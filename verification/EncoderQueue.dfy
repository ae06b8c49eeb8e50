/** The encoder behind its queues, as the application sees it: any replies, in any order. */
module EncoderQueue {
  import opened Ivf
  import opened MachineInts

  // AppExitConditionType; finished and error may be or-ed.
  type ExitCondition = x: int | 0 <= x < 4
  const NONE: ExitCondition := 0
  const FINISHED: ExitCondition := 1
  const ERROR: ExitCondition := 2

  function Or(a: ExitCondition, b: ExitCondition): ExitCondition {
    (if a % 2 == 1 || b % 2 == 1 then 1 else 0) + if a / 2 == 1 || b / 2 == 1 then 2 else 0
  }

  lemma {:induction false} OrIs(a: ExitCondition, b: ExitCondition)
    ensures Or(a, b) == [[0, 1, 2, 3], [1, 1, 3, 3], [2, 3, 2, 3], [3, 3, 3, 3]][a][b]
  {
  }

  datatype Picture = Picture(pts: nat, data: seq<u8>) | EndOfStream

  datatype PacketReply = PacketError | NoPacket | GotPacket(packet: Packet)

  datatype ReconReply = ReconError | NoRecon | GotRecon(pts: nat, data: seq<u8>, eos: bool)

  // What passes between the application and the encoder.
  datatype Event = Sent(picture: Picture) | Asked(blocking: bool, reply: PacketReply) | Fetched(recon: ReconReply)

  // ----- reading a trace -----

  ghost function Pictures(t: seq<Event>): seq<Picture> {
    if t == [] then []
    else
      var e := t[|t| - 1];
      Pictures(t[..|t| - 1]) + if e.Sent? then [e.picture] else []
  }

  ghost function Packets(t: seq<Event>): seq<Packet> {
    if t == [] then []
    else
      var e := t[|t| - 1];
      Packets(t[..|t| - 1]) + if e.Asked? && e.reply.GotPacket? then [e.reply.packet] else []
  }

  ghost function Recons(t: seq<Event>): seq<(nat, seq<u8>)> {
    if t == [] then []
    else
      var e := t[|t| - 1];
      Recons(t[..|t| - 1]) + if e.Fetched? && e.recon.GotRecon? then [(e.recon.pts, e.recon.data)] else []
  }

  ghost predicate InputEnded(t: seq<Event>) { EndOfStream in Pictures(t) }

  // How the packet port stands: the last packet decides, an error is final.
  ghost function PacketPort(t: seq<Event>): ExitCondition {
    if t == [] then NONE
    else
      var before, e := PacketPort(t[..|t| - 1]), t[|t| - 1];
      if !e.Asked? || e.reply.NoPacket? then before
      else if e.reply.PacketError? then ERROR
      else if e.reply.packet.eos then FINISHED else NONE
  }

  ghost function ReconPort(t: seq<Event>): ExitCondition {
    if t == [] then NONE
    else
      var before, e := ReconPort(t[..|t| - 1]), t[|t| - 1];
      if !e.Fetched? || e.recon.NoRecon? then before
      else if e.recon.ReconError? then ERROR
      else if e.recon.eos then FINISHED else NONE
  }

  // The packet call blocks exactly when every input and every reconstruction is through.
  ghost predicate BlocksLast(t: seq<Event>, withRecon: bool) {
    t == [] ||
    var before, e := t[..|t| - 1], t[|t| - 1];
    && BlocksLast(before, withRecon)
    && (e.Asked? ==> (e.blocking <==> InputEnded(before) && (withRecon ==> ReconPort(before) != NONE)))
  }

  // Pictures are numbered from zero, and nothing follows an end of stream.
  ghost predicate InOrder(pictures: seq<Picture>) {
    && (forall i :: 0 <= i < |pictures| && pictures[i].Picture? ==> pictures[i].pts == i)
    && (forall i :: 0 <= i < |pictures| && pictures[i].EndOfStream? ==> i == |pictures| - 1)
  }

  lemma {:induction false} Extend(t: seq<Event>, e: Event)
    ensures Pictures(t + [e]) == Pictures(t) + (if e.Sent? then [e.picture] else [])
    ensures Packets(t + [e]) == Packets(t) + (if e.Asked? && e.reply.GotPacket? then [e.reply.packet] else [])
    ensures PacketPort(t + [e]) ==
            (if !e.Asked? || e.reply.NoPacket? then PacketPort(t)
             else if e.reply.PacketError? then ERROR else if e.reply.packet.eos then FINISHED else NONE)
    ensures ReconPort(t + [e]) ==
            (if !e.Fetched? || e.recon.NoRecon? then ReconPort(t)
             else if e.recon.ReconError? then ERROR else if e.recon.eos then FINISHED else NONE)
    ensures Recons(t + [e]) == Recons(t) + (if e.Fetched? && e.recon.GotRecon? then
        [(e.recon.pts, e.recon.data)] else [])
    ensures forall withRecon :: BlocksLast(t + [e], withRecon) ==
                                (BlocksLast(t, withRecon) &&
                                 (e.Asked? ==> (e.blocking <==> InputEnded(t) && (withRecon ==> ReconPort(t) != NONE))))
  {
    assert (t + [e])[..|t|] == t && (t + [e])[|t|] == e;
  }

  // ----- the encoder -----

  // An error, or the last packet of the stream.
  predicate FinalPacket(reply: PacketReply) {
    reply.PacketError? || (reply.GotPacket? && reply.packet.eos && !reply.packet.altRef)
  }

  predicate FinalRecon(reply: ReconReply) {
    reply.ReconError? || (reply.GotRecon? && reply.eos)
  }

  // Replies are arbitrary but for three promises: a blocking call returns a packet or an
  // error; alt-ref packets are finitely many; once all input is in, the last packet and the
  // last reconstruction come after finitely many calls.
  class Encoder {
    ghost var trace: seq<Event>
    var inputDone: bool
    var altRefs: nat
    var packetPatience: nat
    var reconPatience: nat

    constructor (altRefs: nat, packetPatience: nat, reconPatience: nat)
      ensures trace == [] && !inputDone
    {
      trace, inputDone := [], false;
      this.altRefs, this.packetPatience, this.reconPatience := altRefs, packetPatience, reconPatience;
    }

    // svt_av1_enc_send_picture
    method Send(picture: Picture)
      modifies this
      ensures trace == old(trace) + [Sent(picture)]
      ensures inputDone == (old(inputDone) || picture.EndOfStream?)
      ensures altRefs == old(altRefs) && packetPatience == old(packetPatience) && reconPatience == old(reconPatience)
    {
      trace := trace + [Sent(picture)];
      if picture.EndOfStream? { inputDone := true; }
    }

    // svt_av1_enc_get_packet
    method GetPacket(blocking: bool) returns (reply: PacketReply)
      modifies this
      ensures trace == old(trace) + [Asked(blocking, reply)]
      ensures blocking ==> !reply.NoPacket?
      ensures reply.GotPacket? ==> |reply.packet.payload| < TWO_32
      ensures altRefs <= old(altRefs) && (reply.GotPacket? && reply.packet.altRef ==> altRefs < old(altRefs))
      ensures packetPatience <= old(packetPatience)
      ensures inputDone && !FinalPacket(reply) ==> packetPatience < old(packetPatience)
      ensures inputDone == old(inputDone) && reconPatience == old(reconPatience)
    {
      reply := *;
      if
        || (blocking && reply.NoPacket?)
        || (reply.GotPacket? && (|reply.packet.payload| >= TWO_32 || (reply.packet.altRef && altRefs == 0)))
        || (inputDone && packetPatience == 0)
      {
        reply := GotPacket(Packet([], false, true));
      }
      if reply.GotPacket? && reply.packet.altRef { altRefs := altRefs - 1; }
      if inputDone && packetPatience > 0 { packetPatience := packetPatience - 1; }
      trace := trace + [Asked(blocking, reply)];
    }

    // svt_av1_get_recon
    method GetRecon() returns (reply: ReconReply)
      modifies this
      ensures trace == old(trace) + [Fetched(reply)]
      ensures reconPatience <= old(reconPatience)
      ensures inputDone && !FinalRecon(reply) ==> reconPatience < old(reconPatience)
      ensures inputDone == old(inputDone) && packetPatience == old(packetPatience) && altRefs == old(altRefs)
    {
      reply := *;
      if inputDone && reconPatience == 0 {
        reply := GotRecon(0, [], true);
      }
      if inputDone && reconPatience > 0 { reconPatience := reconPatience - 1; }
      trace := trace + [Fetched(reply)];
    }
  }
}

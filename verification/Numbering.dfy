/** Numbering of outgoing command packets, the keys they are stored under until they are
    acknowledged, and which record an acknowledgement names. */
module Numbering {
  import opened PacketIds
  import opened Wrappers
  import opened Fragments

  /** A packet ready to be sent, with the generation it is filed under. */
  datatype OutUdpPacket = OutUdpPacket(generation: u32, packet: Packet) {
    function Key(): PartialPacketId {
      PartialPacketId(generation, packet.id)
    }
  }

  /** The generation is the one after the increment. */
  function NumberPieces(out: PartialPacketId, pieces: seq<Packet>): seq<OutUdpPacket>
    decreases |pieces|
  {
    if pieces == [] then []
    else [OutUdpPacket(out.Add(1).generation, pieces[0].(id := out.packet))] + NumberPieces(out.Add(1), pieces[1..])
  }

  class Encoder {
    const lz: QuickLz
    var out: PartialPacketId

    constructor (lz: QuickLz, first: u16)
      ensures this.lz == lz && out == PartialPacketId(0, first)
    {
      this.lz, out := lz, PartialPacketId(0, first);
    }

    /** Give the pieces consecutive ids; each is filed under the generation after the increment. */
    method Number(pieces: seq<Packet>) returns (packets: seq<OutUdpPacket>)
      modifies this
      ensures packets == NumberPieces(old(out), pieces)
      ensures out == Forward(old(out), |pieces|)
    {
      packets := [];
      for i := 0 to |pieces|
        invariant |packets| == i
        invariant packets + NumberPieces(out, pieces[i..]) == NumberPieces(old(out), pieces)
        invariant Forward(old(out), |pieces|) == Forward(out, |pieces| - i)
      {
        var packet := pieces[i].(id := out.packet);
        assert pieces[i..][1..] == pieces[i + 1..];
        out := out.Add(1);
        packets := packets + [OutUdpPacket(out.generation, packet)];
      }
    }

    /** Split a command and number its pieces. */
    method EncodePacket(packet: Packet) returns (packets: seq<OutUdpPacket>)
      modifies this
      ensures packets == NumberPieces(old(out), Split(lz, packet))
      ensures out == Forward(old(out), |Split(lz, packet)|)
    {
      var pieces := CompressAndSplit(lz, packet);
      packets := Number(pieces);
    }
  }

  /** The number of the packet filed under a key. The last id of a generation is filed one
      generation too high, because the generation is read after the increment. */
  function NumberOf(key: PartialPacketId): int {
    if key.packet == 0xffff then key.Full() - 0x1_0000 else key.Full()
  }

  lemma {:induction false} NumberInjective(a: PartialPacketId, b: PartialPacketId)
    ensures NumberOf(a) == NumberOf(b) <==> a == b
    ensures NumberOf(a) < 0x1_0000_0000_0000 - 1
  {
  }

  /** The key that packet number `f` is filed under. */
  ghost function KeyOf(f: nat): (key: PartialPacketId)
    ensures f < 0x1_0000_0000_0000 - 1 ==> NumberOf(key) == f
  {
    if f < 0x1_0000_0000_0000 - 1 then
      KeyExists(f);
      var key :| NumberOf(key) == f;
      key
    else
      PartialPacketId(0, 0)
  }

  lemma {:induction false} KeyExists(f: nat)
    requires f < 0x1_0000_0000_0000 - 1
    ensures exists key :: NumberOf(key) == f
  {
    var p := Nth(f);
    if p.packet == 0xffff {
      assert NumberOf(PartialPacketId(p.generation + 1, 0xffff)) == f;
    } else {
      assert NumberOf(p) == f;
    }
  }

  lemma {:induction false} NextKey(out: PartialPacketId)
    requires out.Full() + 1 < 0x1_0000_0000_0000
    ensures out == Nth(out.Full())
    ensures PartialPacketId(out.Add(1).generation, out.packet) == KeyOf(out.Full())
  {
    AddExact(out, 1);
    FullInjective(out, Nth(out.Full()));
    var key := PartialPacketId(out.Add(1).generation, out.packet);
    NumberInjective(key, KeyOf(out.Full()));
  }

  /** Numbering files packet `k` of the pieces under the key of its number. */
  lemma {:induction false} PiecesAreNumbered(out: PartialPacketId, pieces: seq<Packet>, start: nat)
    requires start == out.Full() && start + |pieces| < 0x1_0000_0000_0000
    ensures var r := NumberPieces(out, pieces);
            |r| == |pieces| && forall k :: 0 <= k < |r| ==>
              && r[k].Key() == KeyOf(start + k)
              && r[k].packet == pieces[k].(id := Nth(start + k).packet)
    decreases |pieces|
  {
    if pieces != [] {
      AddExact(out, 1);
      NextKey(out);
      PiecesAreNumbered(out.Add(1), pieces[1..], start + 1);
      var r, r' := NumberPieces(out, pieces), NumberPieces(out.Add(1), pieces[1..]);
      forall k | 0 <= k < |r|
        ensures r[k].Key() == KeyOf(start + k) && r[k].packet == pieces[k].(id := Nth(start + k).packet)
      {
        if k > 0 {
          assert r[k] == r'[k - 1] && pieces[k] == pieces[1..][k - 1];
          assert (start + 1) + (k - 1) == start + k;
        }
      }
    }
  }

  // ----- Acknowledgements

  predicate IsFirst(keys: set<PartialPacketId>, key: PartialPacketId) {
    key in keys && forall k :: k in keys ==> key.AtMost(k)
  }

  lemma {:induction false} FirstExists(keys: set<PartialPacketId>)
    requires keys != {}
    ensures exists key :: IsFirst(keys, key)
    decreases |keys|
  {
    var k :| k in keys;
    if keys == {k} {
      assert IsFirst(keys, k);
    } else {
      FirstExists(keys - {k});
      var first :| IsFirst(keys - {k}, first);
      OrderIsNumeric(k, first);
      var key := if k.Less(first) then k else first;
      forall other | other in keys
        ensures key.AtMost(other)
      {
        OrderIsNumeric(first, other);
        OrderIsNumeric(key, other);
      }
      assert IsFirst(keys, key);
    }
  }

  ghost function First(keys: set<PartialPacketId>): (key: PartialPacketId)
    requires keys != {}
    ensures IsFirst(keys, key)
  {
    FirstExists(keys);
    var key :| IsFirst(keys, key);
    key
  }

  lemma {:induction false} FirstIsUnique(keys: set<PartialPacketId>, a: PartialPacketId, b: PartialPacketId)
    requires IsFirst(keys, a) && IsFirst(keys, b)
    ensures a == b
  {
  }

  /** The record a 16-bit acknowledgement names, judged by the oldest outstanding key. */
  function AckTarget(first: PartialPacketId, id: u16): PartialPacketId {
    if first.packet == id then first
    else PartialPacketId(if id < first.packet then (first.generation + 1) % 0x1_0000_0000 else first.generation, id)
  }

  /** What an acknowledgement of a command packet removes, and what it announces: when it
      names the oldest record, every id before the next one counts as acknowledged. */
  datatype AckEffect = AckEffect(removed: set<PartialPacketId>, announced: Option<PartialPacketId>)

  ghost function Ack(keys: set<PartialPacketId>, out: PartialPacketId, id: u16): AckEffect {
    if keys == {} then AckEffect({}, None)
    else
      var first := First(keys);
      var target := AckTarget(first, id);
      AckEffect({target} * keys,
                if first.packet != id then None
                else Some((if keys == {first} then out else First(keys - {first})).Sub(1)))
  }
}

/** Packet ids: 16-bit ids that wrap, each wrap starting a new 32-bit generation. */
module PacketIds {
  type u16 = x: int | 0 <= x < 0x1_0000
  type u32 = x: int | 0 <= x < 0x1_0000_0000

  /** The maximum number of packets queued out of order. */
  const MAX_QUEUE_LEN := 200

  datatype PartialPacketId = PartialPacketId(generation: u32, packet: u16) {
    /** The unbounded number this pair stands for. */
    function Full(): int {
      generation * 0x1_0000 + packet
    }

    function Add(rhs: u16): PartialPacketId {
      var sum := packet + rhs;
      if sum >= 0x1_0000 then
        PartialPacketId((generation + 1) % 0x1_0000_0000, sum - 0x1_0000)
      else
        PartialPacketId(generation, sum)
    }

    function Sub(rhs: u16): PartialPacketId {
      var diff := packet - rhs;
      if diff < 0 then
        PartialPacketId((generation - 1) % 0x1_0000_0000, diff + 0x1_0000)
      else
        PartialPacketId(generation, diff)
    }

    /** The difference of two ids; a generation weighs `u16::MAX`. */
    function Diff(rhs: PartialPacketId): int {
      (generation - rhs.generation) * 0xffff + (packet - rhs.packet)
    }

    predicate Less(other: PartialPacketId) {
      generation < other.generation || (generation == other.generation && packet < other.packet)
    }

    predicate AtMost(other: PartialPacketId) {
      this == other || Less(other)
    }
  }

  lemma {:induction false} DivModUnique(a: int, m: int, q: int, r: int)
    requires m > 0 && 0 <= r < m && a == q * m + r
    ensures a / m == q && a % m == r
  {
    var q', r' := a / m, a % m;
    assert a == q' * m + r';
    assert (q - q') * m == r' - r;
    assert q - q' >= 1 ==> (q - q') * m >= m;
    assert q - q' <= -1 ==> (q - q') * m <= -m;
  }

  lemma {:induction false} FullInjective(a: PartialPacketId, b: PartialPacketId)
    ensures 0 <= a.Full() < 0x1_0000_0000_0000
    ensures a.Full() == b.Full() <==> a == b
  {
  }

  /** The pair that stands for number `f`. */
  ghost function Nth(f: nat): (p: PartialPacketId)
    ensures f < 0x1_0000_0000_0000 ==> p.Full() == f
  {
    if f < 0x1_0000_0000_0000 then
      assert PartialPacketId(f / 0x1_0000, f % 0x1_0000).Full() == f;
      var p: PartialPacketId :| p.Full() == f;
      p
    else
      PartialPacketId(0, 0)
  }

  /** The lexicographic order on pairs is the order of the numbers they stand for. */
  lemma {:induction false} OrderIsNumeric(a: PartialPacketId, b: PartialPacketId)
    ensures a.Less(b) <==> a.Full() < b.Full()
    ensures a.AtMost(b) <==> a.Full() <= b.Full()
  {
    FullInjective(a, b);
  }

  /** Adding and subtracting are exact modulo the id space, so one undoes the other. */
  lemma {:induction false} AddSubExact(a: PartialPacketId, n: u16)
    ensures a.Add(n).Full() == (a.Full() + n) % 0x1_0000_0000_0000
    ensures a.Sub(n).Full() == (a.Full() - n) % 0x1_0000_0000_0000
    ensures a.Add(n).Sub(n) == a && a.Sub(n).Add(n) == a
  {
    AddExact(a, n);
    SubExact(a, n);
    AddExact(a.Sub(n), n);
    SubExact(a.Add(n), n);
    var f := a.Full();
    assert a.Add(n).Sub(n).Full() == f;
    assert a.Sub(n).Add(n).Full() == f;
    FullInjective(a.Add(n).Sub(n), a);
    FullInjective(a.Sub(n).Add(n), a);
  }

  lemma {:induction false} WrapOnce(x: int, m: int)
    requires m > 0 && -m <= x < 2 * m
    ensures x % m == if x < 0 then x + m else if x < m then x else x - m
  {
    if x < 0 { DivModUnique(x, m, -1, x + m); }
    else if x < m { DivModUnique(x, m, 0, x); }
    else { DivModUnique(x, m, 1, x - m); }
  }

  lemma {:induction false} AddExact(a: PartialPacketId, n: u16)
    ensures a.Add(n).Full() == (a.Full() + n) % 0x1_0000_0000_0000
    ensures a.Add(n).Full() == if a.Full() + n < 0x1_0000_0000_0000 then a.Full() + n
            else a.Full() + n - 0x1_0000_0000_0000
  {
    WrapOnce(a.Full() + n, 0x1_0000_0000_0000);
    WrapOnce(a.generation + 1, 0x1_0000_0000);
  }

  lemma {:induction false} SubExact(a: PartialPacketId, n: u16)
    ensures a.Sub(n).Full() == (a.Full() - n) % 0x1_0000_0000_0000
    ensures a.Sub(n).Full() == if a.Full() >= n then a.Full() - n else a.Full() - n + 0x1_0000_0000_0000
  {
    WrapOnce(a.Full() - n, 0x1_0000_0000_0000);
    WrapOnce(a.generation - 1, 0x1_0000_0000);
  }

  /** The difference operator is the true distance exactly within one generation;
      it is one short for every generation crossed. */
  lemma {:induction false} DiffExactWithinGeneration(a: PartialPacketId, b: PartialPacketId)
    ensures a.Diff(b) == a.Full() - b.Full() - (a.generation - b.generation)
    ensures a.Diff(b) == a.Full() - b.Full() <==> a.generation == b.generation
  {
  }

  /** `n` single increments. */
  function Forward(next: PartialPacketId, n: nat): PartialPacketId
    decreases n
  {
    if n == 0 then next else Forward(next.Add(1), n - 1)
  }

  lemma {:induction false} ForwardAdds(next: PartialPacketId, n: nat)
    requires next.Full() + n < 0x1_0000_0000_0000
    ensures Forward(next, n).Full() == next.Full() + n
    ensures n < 0x1_0000 ==> Forward(next, n).packet == WrapAdd(next.packet, n)
    decreases n
  {
    if n > 0 {
      AddExact(next, 1);
      ForwardAdds(next.Add(1), n - 1);
    }
  }

  /** Result of the receive window test; the fields are in the order the source returns them. */
  datatype Window = Window(accepted: bool, generation: u32, lower: u16, limit: u16)

  /** The generation arithmetic wraps at 32 bits, as in a build without overflow checks. */
  function InReceiveWindow(next: PartialPacketId, id: u16): Window {
    var cur := next.packet;
    var nextGen := cur + 0x7fff >= 0x1_0000;
    var limit := (cur + 0x7fff) % 0x1_0000;
    var accepted := (!nextGen && cur <= id < limit) || (nextGen && (id >= cur || id < limit));
    var generation :=
      if accepted then
        if nextGen && id < limit then (next.generation + 1) % 0x1_0000_0000 else next.generation
      else if id < cur then next.generation
      else (next.generation - 1) % 0x1_0000_0000;
    Window(accepted, generation, cur, limit)
  }

  /** How far an id lies ahead of another one, going around the cycle. */
  function Ahead(from: u16, id: u16): u16 {
    if id >= from then id - from else id - from + 0x1_0000
  }

  /** The id `n` further on in the cycle. */
  function WrapAdd(id: u16, n: u16): u16 {
    if id + n >= 0x1_0000 then id + n - 0x1_0000 else id + n
  }

  /** The window accepts exactly the ids less than half a cycle ahead. */
  lemma {:induction false} WindowAcceptsHalfCycle(next: PartialPacketId, id: u16)
    ensures InReceiveWindow(next, id).accepted <==> Ahead(next.packet, id) < 0x7fff
    ensures InReceiveWindow(next, id).accepted <==> (id - next.packet) % 0x1_0000 < 0x7fff
  {
    WrapOnce(id - next.packet, 0x1_0000);
  }

  lemma {:induction false} WindowAt(next: PartialPacketId, g: int, id: u16, f: int)
    requires f == g * 0x1_0000 + id && next.Full() - 32769 <= f < next.Full() + 32767
    ensures InReceiveWindow(next, id).generation == g % 0x1_0000_0000
    ensures InReceiveWindow(next, id).accepted <==> f >= next.Full()
  {
    WrapOnce(next.packet + 0x7fff, 0x1_0000);
    WrapOnce(next.generation + 1, 0x1_0000_0000);
    WrapOnce(next.generation - 1, 0x1_0000_0000);
    WrapOnce(g, 0x1_0000_0000);
    assert g == next.generation - 1 || g == next.generation || g == next.generation + 1;
  }

  /** Whatever unbounded id within [N - 32769, N + 32767) is on the wire, the window
      recovers its generation, and accepts it exactly when it is not below N. */
  lemma {:induction false} WindowRecoversGeneration(next: PartialPacketId, f: int)
    requires next.Full() - 32769 <= f < next.Full() + 32767
    ensures var w := InReceiveWindow(next, f % 0x1_0000);
            && w.generation == f / 0x1_0000 % 0x1_0000_0000
            && (w.accepted <==> f >= next.Full())
  {
    WindowAt(next, f / 0x1_0000, f % 0x1_0000, f);
  }

  /** The number a received id stands for: the one congruent to it around the next expected one. */
  function TrueId(next: PartialPacketId, id: u16): int {
    var ahead: int := Ahead(next.packet, id);
    next.Full() + if ahead < 0x7fff then ahead else ahead - 0x1_0000
  }

  /** The recoverable range is one whole cycle: each 16-bit id stands for exactly one number in it. */
  lemma {:induction false} RangeIsOneCycle(next: PartialPacketId, id: u16)
    ensures var f := TrueId(next, id); next.Full() - 32769 <= f < next.Full() + 32767 && f % 0x1_0000 == id
    ensures forall f: int :: next.Full() - 32769 <= f < next.Full() + 32767 && f % 0x1_0000 == id ==>
            f == TrueId(next, id)
  {
    var t := TrueId(next, id);
    var m: int := next.generation + if id >= next.packet then (if id - next.packet < 0x7fff then 0 else -1)
                                    else (if id - next.packet + 0x1_0000 < 0x7fff then 1 else 0);
    DivModUnique(t, 0x1_0000, m, id);
    forall f: int | next.Full() - 32769 <= f < next.Full() + 32767 && f % 0x1_0000 == id
      ensures f == t
    {
      assert f - t == (f / 0x1_0000 - m) * 0x1_0000;
    }
  }

  /** Packet types whose next expected id follows every packet or only accepted ones. */
  datatype Tracking = EveryPacket | OnlyAccepted

  /** The update of the next expected id for packets that are not commands. */
  function Track(next: PartialPacketId, how: Tracking, id: u16): PartialPacketId {
    Advance(next, how, id, InReceiveWindow(next, id))
  }

  function Advance(next: PartialPacketId, how: Tracking, id: u16, w: Window): PartialPacketId {
    if how == OnlyAccepted && !w.accepted then next
    else if id == 0xffff then PartialPacketId((w.generation + 1) % 0x1_0000_0000, 0)
    else PartialPacketId(w.generation, id + 1)
  }

  function TrackAll(next: PartialPacketId, how: Tracking, ids: seq<PartialPacketId>): PartialPacketId
    decreases |ids|
  {
    if ids == [] then next else TrackAll(Track(next, how, ids[0].packet), how, ids[1..])
  }

  /** The next expected number if ids never wrapped: one past the last packet that counts. */
  function NextTrue(n: int, how: Tracking, ids: seq<PartialPacketId>): int
    decreases |ids|
  {
    if ids == [] then n
    else NextTrue(if how == EveryPacket || ids[0].Full() >= n then ids[0].Full() + 1 else n, how, ids[1..])
  }

  /** The true number of every packet lies in the recoverable range when it arrives. */
  ghost predicate AllRecoverable(n: int, how: Tracking, ids: seq<PartialPacketId>)
    decreases |ids|
  {
    ids == [] ||
    (n - 32769 <= ids[0].Full() < n + 32767 && ids[0].Full() < 0x1_0000_0000_0000 - 1 &&
     AllRecoverable(if how == EveryPacket || ids[0].Full() >= n then ids[0].Full() + 1 else n, how, ids[1..]))
  }

  /** The window test sees 16 bits and recovers the pair they came from. */
  lemma {:induction false} WindowRecovers(next: PartialPacketId, id: PartialPacketId)
    requires next.Full() - 32769 <= id.Full() < next.Full() + 32767
    ensures var w := InReceiveWindow(next, id.packet);
            w.generation == id.generation && (w.accepted <==> id.Full() >= next.Full())
  {
    WindowAt(next, id.generation, id.packet, id.Full());
  }

  lemma {:induction false} TrackFollows(next: PartialPacketId, how: Tracking, id: PartialPacketId)
    requires next.Full() - 32769 <= id.Full() < next.Full() + 32767 && id.Full() < 0x1_0000_0000_0000 - 1
    ensures Track(next, how, id.packet).Full() ==
            if how == EveryPacket || id.Full() >= next.Full() then id.Full() + 1 else next.Full()
  {
    WindowRecovers(next, id);
    AdvanceFollows(next, how, id, InReceiveWindow(next, id.packet));
  }

  lemma {:induction false} AdvanceFollows(next: PartialPacketId, how: Tracking, id: PartialPacketId, w: Window)
    requires w.generation == id.generation && (w.accepted <==> id.Full() >= next.Full()) &&
             id.Full() < 0x1_0000_0000_0000 - 1
    ensures Advance(next, how, id.packet, w).Full() ==
            if how == EveryPacket || id.Full() >= next.Full() then id.Full() + 1 else next.Full()
  {
    if id.packet == 0xffff {
      WrapOnce(id.generation + 1, 0x1_0000_0000);
    }
  }

  /** Over a whole run the tracked pair is exactly one past the last packet that counts. */
  lemma {:induction false} TrackedIdIsLastPlusOne(next: PartialPacketId, how: Tracking, ids: seq<PartialPacketId>)
    requires AllRecoverable(next.Full(), how, ids)
    ensures TrackAll(next, how, ids).Full() == NextTrue(next.Full(), how, ids)
    decreases |ids|
  {
    if ids != [] {
      TrackFollows(next, how, ids[0]);
      TrackedIdIsLastPlusOne(Track(next, how, ids[0].packet), how, ids[1..]);
    }
  }
}

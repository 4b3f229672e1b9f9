/** Runs that show where the protocol's promises end. */
module Limits {
  import opened PacketIds
  import opened Wrappers
  import opened Fragments
  import opened Numbering
  import opened Receiver
  import opened Reorder
  import opened Stream
  import opened Protocol
  import opened Announcements
  import opened Scenarios

  // ----- How many records may be in flight

  /** With at most `limit` records in flight, no packet is sent half a cycle ahead of the receiver. */
  ghost predicate IsSafe(cfg: Config, limit: nat) {
    forall s, key :: Reachable(cfg, s) && key in s.outstanding && |UpTo(s.outstanding.Keys, key)| <= limit ==>
                       NumberOf(key) - cfg.first < Done(cfg, s) + 32767
  }

  lemma {:induction false} StretchWithin(lo: nat, hi: nat, rest: set<PartialPacketId>, lo': nat, hi': nat)
    requires lo <= lo' && hi' <= hi < 0x1_0000_0000_0000 && rest == Stretch(lo', hi')
    ensures rest <= Stretch(lo, hi)
  {
    forall k | k in rest
      ensures k in Stretch(lo, hi)
    {
      StretchMembers(lo, hi, k);
      StretchMembers(lo', hi', k);
    }
  }

  lemma {:induction false} AllUpTo(lo: nat, hi: nat, keys: set<PartialPacketId>, key: PartialPacketId)
    requires hi < 0x1_0000_0000_0000 && keys <= Stretch(lo, hi) && NumberOf(key) == hi - 1
    ensures UpTo(keys, key) == keys
  {
    forall k | k in keys
      ensures NumberOf(k) <= NumberOf(key)
    {
      StretchMembers(lo, hi, k);
    }
  }

  lemma {:induction false} KeysSize(first: nat, n: nat, done: nat, held: nat, keys: set<PartialPacketId>)
    requires done + held < n && first + n < 0x1_0000_0000_0000 && keys == Keys(first, n, done, held, done)
    ensures |keys| == n - done - held && keys <= Stretch(first + done, first + n)
  {
    var lo, hi, lo', hi' := first + done, first + n, first + done + 1, first + done + 1 + held;
    var all, rest := Stretch(lo, hi), Stretch(lo', hi');
    StretchWithin(lo, hi, rest, lo', hi');
    DifferenceSize(all, rest);
    StretchSize(lo, hi);
    StretchSize(lo', hi');
  }

  lemma {:induction false} DifferenceSize<T>(all: set<T>, rest: set<T>)
    requires rest <= all
    ensures |all - rest| == |all| - |rest|
  {
    assert all * rest == rest;
  }

  /** From the start of a generation on: the next packet is missing, the receiver holds the 199 packets
      behind it, and the last of the 32768 is to be sent. */
  lemma {:induction false} WidestState(cfg: Config, p: Packet, done: nat, g: nat, s: State, key: PartialPacketId)
    requires cfg.lz.Inverse() && Small(p) && cfg.first + done == g * 0x1_0000 && done <= 0x1_0000
    requires s == Snapshot(cfg, p, done + 32768, done, 199, done) && key == KeyOf(cfg.first + done + 32767)
    ensures Reachable(cfg, s) && key in s.outstanding && Done(cfg, s) == done
    ensures |UpTo(s.outstanding.Keys, key)| == MAX_IN_FLIGHT + 1
  {
    RunAhead(cfg, p, done + 32768, done, 199, g, s);
    SnapshotKeys(cfg, p, done + 32768, done, 199, done);
    InKeys(cfg.first, done + 32768, done, 199, done, key);
    KeysSize(cfg.first, done + 32768, done, 199, s.outstanding.Keys);
    AllUpTo(cfg.first + done, cfg.first + done + 32768, s.outstanding.Keys, key);
  }

  /** The bound is exact. */
  lemma {:induction false} InFlightBoundIsExact(cfg: Config, limit: nat)
    requires cfg.lz.Inverse()
    ensures IsSafe(cfg, limit) <==> limit <= MAX_IN_FLIGHT
  {
    if limit <= MAX_IN_FLIGHT {
      forall s, key | Reachable(cfg, s) && key in s.outstanding && |UpTo(s.outstanding.Keys, key)| <= limit
        ensures NumberOf(key) - cfg.first < Done(cfg, s) + 32767
      {
        ReachableInv(cfg, s);
        TransmitStaysInWindow(cfg, s, key);
      }
    } else {
      var g := if cfg.first == 0 then 0 else 1;
      var done := g * 0x1_0000 - cfg.first;
      var key := KeyOf(cfg.first + done + 32767);
      WidestState(cfg, TINY, done, g, Snapshot(cfg, TINY, done + 32768, done, 199, done), key);
    }
  }

  /** A packet sent further ahead is lost: it is acknowledged unread, and its record is removed. */
  lemma {:induction false} FarTransmissionLoses(cfg: Config, s: State, k: nat, r: Reception, s': State)
    requires OrderInv(cfg, s) && Done(cfg, s) + 32767 <= k < |s.sent| && k < Done(cfg, s) + 0x1_0000
    requires r == Receive(cfg.lz, s.channel, s.sent[k], Nth(cfg.first + k).generation)
    requires s' == s.(channel := r.channel, acks := s.acks + {k}, outstanding := s.outstanding - {KeyOf(cfg.first + k)})
    ensures r.acked && KeyOf(cfg.first + k) !in s'.outstanding
    ensures !Received(s'.sent, Done(cfg, s'), s'.channel, k)
  {
    FarPacketIsLost(cfg.lz, s.sent, cfg.first, Done(cfg, s), s.channel, k);
  }

  // ----- The last id of a generation

  lemma {:induction false} LastKeys(n: nat, done: nat, keys: set<PartialPacketId>)
    requires 0xffff <= done <= n && 0x1_0000 <= n <= 0x1_0001 && keys == Keys(0, n, done, 0, 0xfffe)
    ensures var known := {PartialPacketId(0, 0xfffe), PartialPacketId(1, 0xffff)};
            keys == if n == 0x1_0001 then known + {PartialPacketId(1, 0)} else known
  {
    forall key
      ensures key in keys <==> 0xfffe <= NumberOf(key) < n
      ensures NumberOf(key) == 0xfffe <==> key == PartialPacketId(0, 0xfffe)
      ensures NumberOf(key) == 0xffff <==> key == PartialPacketId(1, 0xffff)
      ensures NumberOf(key) == 0x1_0000 <==> key == PartialPacketId(1, 0)
    {
      InKeys(0, n, done, 0, 0xfffe, key);
      NumberInjective(key, PartialPacketId(0, 0xfffe));
      NumberInjective(key, PartialPacketId(1, 0xffff));
      NumberInjective(key, PartialPacketId(1, 0));
    }
  }

  lemma {:induction false} AckOfThree(a: PartialPacketId, b: PartialPacketId, c: PartialPacketId, out: PartialPacketId)
    requires a == PartialPacketId(0, 0xfffe) && b == PartialPacketId(1, 0xffff) && c == PartialPacketId(1, 0)
    ensures Ack({a, b, c}, out, 0xfffe) == AckEffect({a}, Some(PartialPacketId(0, 0xffff)))
    ensures {a, b, c} - {a} == {b, c} && OldestIsLastId({b, c}) && !Ambiguous({a, b, c}, 0xfffe)
  {
    FirstIsUnique({a, b, c}, First({a, b, c}), a);
    assert {a, b, c} - {a} == {b, c};
    FirstIsUnique({b, c}, First({b, c}), c);
    assert IsOldest({b, c}, b);
    NumberInjective(a, KeyOf(0xfffe));
    FullInjective(Nth(0xfffe), a);
  }

  lemma {:induction false} ThreeLeft(cfg: Config, n: nat, done: nat, low: nat) returns (s: State)
    requires cfg.first == 0 && cfg.lz.Inverse() && n == 0x1_0001 && done == 0xffff && low == 0xfffe
    ensures Reachable(cfg, s) && low in s.acks && |s.sent| == n && Done(cfg, s) == done
    ensures s.outstanding.Keys == {PartialPacketId(0, 0xfffe), PartialPacketId(1, 0xffff), PartialPacketId(1, 0)}
  {
    s := Snapshot(cfg, TINY, n, done, 0, low);
    RunUnacked(cfg, TINY, n, done, low);
    SnapshotKeys(cfg, TINY, n, done, 0, low);
    LastKeys(n, done, s.outstanding.Keys);
  }

  /** A false announcement: some run leads to a state in which of the packets 65534, 65535 and 65536 the
      first is acknowledged. The record of 65535 is filed behind the last, so 65535 is announced as
      acknowledged although the receiver still waits for it. */
  lemma {:induction false} FalseAnnouncement(cfg: Config) returns (s: State, s': State)
    requires cfg.first == 0 && cfg.lz.Inverse()
    ensures Reachable(cfg, s) && Enabled(cfg, s, Acknowledge(0xfffe)) && s' == Apply(cfg, s, Acknowledge(0xfffe))
    ensures Ack(s.outstanding.Keys, s.out, 0xfffe).announced == Some(PartialPacketId(0, 0xffff))
    ensures !AckedThrough(cfg, s', 0xffff) && OldestIsLastId(s'.outstanding.Keys)
    ensures cfg.first + Done(cfg, s') == 0xffff
  {
    var a, b, c := PartialPacketId(0, 0xfffe), PartialPacketId(1, 0xffff), PartialPacketId(1, 0);
    s := ThreeLeft(cfg, 0x1_0001, 0xffff, 0xfffe);
    AckOfThree(a, b, c, s.out);
    FullInjective(Nth(0xfffe), a);
    AckStep(cfg, s, 0xfffe, {a});
    s' := s.(outstanding := s.outstanding - {a});
    assert s'.outstanding.Keys == {b, c};
    NumberInjective(KeyOf(0xffff), b);
    assert Outstanding(cfg, s', 0xffff);
  }

  lemma {:induction false} AckOfTwo(a: PartialPacketId, b: PartialPacketId, out: PartialPacketId)
    requires a == PartialPacketId(0, 0xfffe) && b == PartialPacketId(1, 0xffff)
    ensures Ack({a, b}, out, 0xffff).removed == {}
    ensures KeyOf(0xffff) == b && !Ambiguous({a, b}, 0xffff)
  {
    FirstIsUnique({a, b}, First({a, b}), a);
    NumberInjective(KeyOf(0xffff), b);
    FullInjective(Nth(0xffff), PartialPacketId(0, 0xffff));
  }

  lemma {:induction false} TwoLeft(cfg: Config, n: nat, low: nat) returns (s: State)
    requires cfg.first == 0 && cfg.lz.Inverse() && n == 0x1_0000 && low == 0xfffe
    ensures Reachable(cfg, s) && 0xffff in s.acks
    ensures s.outstanding.Keys == {PartialPacketId(0, 0xfffe), PartialPacketId(1, 0xffff)}
  {
    s := Snapshot(cfg, TINY, n, n, 0, low);
    RunUnacked(cfg, TINY, n, n, low);
    SnapshotKeys(cfg, TINY, n, n, 0, low);
    LastKeys(n, n, s.outstanding.Keys);
  }

  /** An acknowledgement without effect: some run leads to a state in which the record of packet 65534 is
      there, and the acknowledgement of packet 65535 removes nothing. */
  lemma {:induction false} BlockedAck(cfg: Config) returns (s: State)
    requires cfg.first == 0 && cfg.lz.Inverse()
    ensures Reachable(cfg, s) && Enabled(cfg, s, Acknowledge(0xffff)) && KeyOf(0xffff) in s.outstanding
    ensures Ack(s.outstanding.Keys, s.out, 0xffff).removed == {} && Apply(cfg, s, Acknowledge(0xffff)) == s
  {
    s := TwoLeft(cfg, 0x1_0000, 0xfffe);
    AckOfTwo(PartialPacketId(0, 0xfffe), PartialPacketId(1, 0xffff), s.out);
    FullInjective(Nth(0xffff), PartialPacketId(0, 0xffff));
    AckStep(cfg, s, 0xffff, {});
    assert s.outstanding - {} == s.outstanding;
  }

  // ----- A late acknowledgement

  lemma {:induction false} OnlyRecordLeft(n: nat, done: nat, keys: set<PartialPacketId>)
    requires n == 0x1_0006 && done == 0x1_0005 && keys == Keys(0, n, done, 0, done)
    ensures keys == {PartialPacketId(1, 5)} && KeyOf(done) == PartialPacketId(1, 5)
  {
    NumberInjective(KeyOf(done), PartialPacketId(1, 5));
    forall key
      ensures key in keys <==> key == PartialPacketId(1, 5)
    {
      InKeys(0, n, done, 0, done, key);
      NumberInjective(key, PartialPacketId(1, 5));
    }
  }

  lemma {:induction false} OneLeft(cfg: Config, n: nat, done: nat) returns (s: State)
    requires cfg.first == 0 && cfg.lz.Inverse() && n == 0x1_0006 && done == 0x1_0005
    ensures Reachable(cfg, s) && TransportInv(cfg, s) && Done(cfg, s) == done && 5 in s.acks && |s.sent| == n
    ensures s.outstanding.Keys == {PartialPacketId(1, 5)} && KeyOf(done) == PartialPacketId(1, 5)
    ensures s.channel.queue == []
  {
    s := Snapshot(cfg, TINY, n, done, 0, done);
    RunInOrder(cfg, TINY, n, done);
    ReachableInv(cfg, s);
    SnapshotKeys(cfg, TINY, n, done, 0, done);
    OnlyRecordLeft(n, done, s.outstanding.Keys);
  }

  /** Some run leads to a state in which the acknowledgement of packet 5, when it comes back again after
      a cycle of ids, removes the record of packet 65541: that has not arrived, and is lost. */
  lemma {:induction false} LateAckLoses(cfg: Config) returns (s: State, s': State)
    requires cfg.first == 0 && cfg.lz.Inverse()
    ensures Reachable(cfg, s) && 5 in s.acks && Ambiguous(s.outstanding.Keys, 5)
    ensures s' == s.(outstanding := s.outstanding - Ack(s.outstanding.Keys, s.out, 5).removed)
    ensures KeyOf(0x1_0005) in s.outstanding && KeyOf(0x1_0005) !in s'.outstanding && 0x1_0005 < |s'.sent|
    ensures Done(cfg, s') >= 0 && !Received(s'.sent, Done(cfg, s'), s'.channel, 0x1_0005)
  {
    s := OneLeft(cfg, 0x1_0006, 0x1_0005);
    s' := s.(outstanding := s.outstanding - Ack(s.outstanding.Keys, s.out, 5).removed);
    FullInjective(Nth(5), PartialPacketId(0, 5));
    LateAckIsAmbiguous(s.outstanding.Keys);
    FirstIsUnique(s.outstanding.Keys, First(s.outstanding.Keys), PartialPacketId(1, 5));
    LateAckIsForeign(KeyOf(0x1_0005));
    AmbiguousAckLoses(cfg, s, 5, 0x1_0005, s');
  }

  lemma {:induction false} LateAckIsForeign(key: PartialPacketId)
    requires key == PartialPacketId(1, 5)
    ensures IsForeign(key, key, 5)
  {
    FullInjective(Nth(5), PartialPacketId(0, 5));
    NumberInjective(key, KeyOf(5));
  }
}

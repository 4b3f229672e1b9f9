/** Runs that lead to given states: small commands are submitted, delivered in order and acknowledged,
    and some are delivered ahead of their turn. */
module Scenarios {
  import opened PacketIds
  import opened Wrappers
  import opened Fragments
  import opened Numbering
  import opened Receiver
  import opened Reorder
  import opened Stream
  import opened Protocol
  import opened Announcements

  /** Some run leads to the state. */
  ghost predicate Reachable(cfg: Config, s: State) {
    exists states, steps :: Reached(cfg, states, steps, s)
  }

  lemma {:induction false} StartIsReachable(cfg: Config)
    requires cfg.lz.Inverse()
    ensures Reachable(cfg, Init(cfg))
  {
    assert Reached(cfg, [Init(cfg)], [], Init(cfg));
  }

  lemma {:induction false} StepIsReachable(cfg: Config, s: State, step: Step)
    requires Reachable(cfg, s) && Enabled(cfg, s, step)
    ensures Reachable(cfg, Apply(cfg, s, step))
  {
    var states, steps :| Reached(cfg, states, steps, s);
    OneStepMore(cfg, states, steps, s, step, Apply(cfg, s, step));
  }

  lemma {:induction false} OneStepMore(
      cfg: Config, states: seq<State>, steps: seq<Step>, s: State, step: Step, s': State)
    requires Reached(cfg, states, steps, s) && Enabled(cfg, s, step) && s' == Apply(cfg, s, step)
    ensures Reached(cfg, states + [s'], steps + [step], s')
  {
    forall k | 0 <= k < |steps + [step]|
      ensures IsStep(cfg, states + [s'], steps + [step], k)
    {
      assert k < |steps| ==> IsStep(cfg, states, steps, k);
    }
  }

  lemma {:induction false} ReachableSender(cfg: Config, s: State)
    requires Reachable(cfg, s)
    ensures SenderInv(cfg, s)
  {
    ReachableInv(cfg, s);
  }

  lemma {:induction false} ReachableInv(cfg: Config, s: State)
    requires Reachable(cfg, s)
    ensures cfg.lz.Inverse() && Inv(cfg, s)
  {
    var states, steps :| Reached(cfg, states, steps, s);
    ReachedInv(cfg, states, steps, s);
  }

  // ----- Small commands

  /** An empty command. */
  const TINY := Packet(C2S, 0, {}, [])

  /** The command fits into one packet. */
  predicate Small(p: Packet) {
    Plain(p) && |p.content| <= p.Room()
  }

  lemma {:induction false} SmallIsOnePiece(lz: QuickLz, p: Packet)
    requires Small(p)
    ensures Split(lz, p) == [p] && Sendable(lz, p)
  {
    assert Chunks(Payload(lz, p), p.Room()) == [p.content];
    assert PieceFlags(false, p.flags, 0, 1) == p.flags;
  }

  /** `n` copies of a packet, numbered. */
  ghost function Numbers(p: Packet, first: nat, n: nat): (r: seq<Packet>)
    ensures |r| == n && forall k :: 0 <= k < n ==> r[k] == p.(id := IdAt(first, k))
  {
    seq(n, k requires 0 <= k < n => p.(id := IdAt(first, k)))
  }

  /** The records under these keys. */
  ghost function Records(sent: seq<Packet>, first: nat, keys: set<PartialPacketId>): map<PartialPacketId, Packet> {
    map key | key in keys && first <= NumberOf(key) < first + |sent| :: sent[NumberOf(key) - first]
  }

  /** The keys of the packets whose acknowledgements have not come back: all from the one after `low`
      packets, but for the `held` packets behind the one after `done`. */
  ghost function Keys(first: nat, n: nat, done: nat, held: nat, low: nat): set<PartialPacketId> {
    Stretch(first + low, first + n) - Stretch(first + done + 1, first + done + 1 + held)
  }

  predicate IsSeen(done: nat, k: nat) {
    k != done
  }

  ghost function Seen(done: nat, held: nat): set<nat> {
    set k: nat | k <= done + held && IsSeen(done, k)
  }

  /** `n` copies of a command were submitted. The receiver has consumed the first `done` and holds the
      `held` packets behind the next one. The acknowledgements of the first `low` packets and of those
      held have come back. */
  ghost function Snapshot(cfg: Config, p: Packet, n: nat, done: nat, held: nat, low: nat): State
    requires low <= done <= n && (held > 0 ==> done + held < n)
  {
    var sent := Numbers(p, cfg.first, n);
    State(Nth(cfg.first + n), Records(sent, cfg.first, Keys(cfg.first, n, done, held, low)),
          Channel(Nth(cfg.first + done), if held == 0 then [] else sent[done + 1..done + 1 + held], None),
          Repeat(p, n), sent[..done], sent, Seen(done, held), Seen(done, held))
  }

  lemma {:induction false} InKeys(first: nat, n: nat, done: nat, held: nat, low: nat, key: PartialPacketId)
    requires first + n < 0x1_0000_0000_0000 && first + done + 1 + held < 0x1_0000_0000_0000
    ensures key in Keys(first, n, done, held, low) <==>
            first + low <= NumberOf(key) < first + n &&
            !(first + done + 1 <= NumberOf(key) < first + done + 1 + held)
  {
    StretchMembers(first + low, first + n, key);
    StretchMembers(first + done + 1, first + done + 1 + held, key);
  }

  lemma {:induction false} SnapshotKeys(cfg: Config, p: Packet, n: nat, done: nat, held: nat, low: nat)
    requires low <= done <= n && (held > 0 ==> done + held < n) && cfg.first + n + 1 < 0x1_0000_0000_0000
    ensures Snapshot(cfg, p, n, done, held, low).outstanding.Keys == Keys(cfg.first, n, done, held, low)
  {
    forall key | key in Keys(cfg.first, n, done, held, low)
      ensures cfg.first <= NumberOf(key) < cfg.first + n
    {
      InKeys(cfg.first, n, done, held, low, key);
    }
  }

  // ----- Submitting

  lemma {:induction false} KeysGrow(first: nat, n: nat)
    ensures Keys(first, n + 1, 0, 0, 0) == Keys(first, n, 0, 0, 0) + {KeyOf(first + n)}
  {
  }

  lemma {:induction false} NumbersOne(
      out: PartialPacketId, p: Packet, packet: OutUdpPacket, records: map<PartialPacketId, Packet>)
    requires packet == OutUdpPacket(out.Add(1).generation, p.(id := out.packet))
    ensures NumberPieces(out, [p]) == [packet] && Packets([packet]) == [packet.packet] && Forward(out, 1) == out.Add(1)
    ensures FileAll(records, [packet]) == records[packet.Key() := packet.packet]
  {
    assert NumberPieces(out.Add(1), [p][1..]) == [];
    assert Forward(out.Add(1), 0) == out.Add(1);
    var more := records[packet.Key() := packet.packet];
    assert FileAll(more, [packet][1..]) == more;
  }

  lemma {:induction false} SubmitStep(cfg: Config, s: State, p: Packet, packet: OutUdpPacket)
    requires Small(p) && cfg.first + |s.sent| + 0x2_0001 < 0x1_0000_0000_0000
    requires packet == OutUdpPacket(s.out.Add(1).generation, p.(id := s.out.packet))
    ensures Enabled(cfg, s, Submit(p))
    ensures Apply(cfg, s, Submit(p)) ==
            s.(commands := s.commands + [p], sent := s.sent + [packet.packet], out := s.out.Add(1),
               outstanding := s.outstanding[packet.Key() := packet.packet])
  {
    SmallIsOnePiece(cfg.lz, p);
    NumbersOne(s.out, p, packet, s.outstanding);
  }

  lemma {:induction false} SubmitGrows(p: Packet, first: nat, n: nat, sent: seq<Packet>, sent': seq<Packet>)
    requires sent == Numbers(p, first, n) && sent' == Numbers(p, first, n + 1)
    ensures sent' == sent + [p.(id := IdAt(first, n))] && Repeat(p, n + 1) == Repeat(p, n) + [p]
  {
  }

  lemma {:induction false} OneSubmitted(
      cfg: Config, p: Packet, n: nat, s: State, s': State, packet: OutUdpPacket)
    requires cfg.first + n + 0x2_0001 < 0x1_0000_0000_0000
    requires s == Snapshot(cfg, p, n, 0, 0, 0) && s' == Snapshot(cfg, p, n + 1, 0, 0, 0)
    requires packet == OutUdpPacket(s.out.Add(1).generation, p.(id := s.out.packet))
    ensures s' == s.(commands := s.commands + [p], sent := s.sent + [packet.packet], out := s.out.Add(1),
                     outstanding := s.outstanding[packet.Key() := packet.packet])
  {
    NextKey(s.out);
    AddExact(s.out, 1);
    FullInjective(s.out.Add(1), s'.out);
    SubmitGrows(p, cfg.first, n, s.sent, s'.sent);
    RecordsGrow(cfg, p, n, s, s', packet);
  }

  lemma {:induction false} OneRecordMore(
      sent: seq<Packet>, first: nat, keys: set<PartialPacketId>, key: PartialPacketId, p: Packet)
    requires NumberOf(key) == first + |sent|
    requires forall k :: k in keys ==> first <= NumberOf(k) < first + |sent|
    ensures Records(sent + [p], first, keys + {key}) == Records(sent, first, keys)[key := p]
  {
  }

  lemma {:induction false} RecordsGrow(cfg: Config, p: Packet, n: nat, s: State, s': State, packet: OutUdpPacket)
    requires cfg.first + n + 2 < 0x1_0000_0000_0000 && packet.Key() == KeyOf(cfg.first + n)
    requires s == Snapshot(cfg, p, n, 0, 0, 0) && s' == Snapshot(cfg, p, n + 1, 0, 0, 0)
    requires s'.sent == s.sent + [packet.packet]
    ensures s'.outstanding == s.outstanding[packet.Key() := packet.packet]
  {
    var keys := Keys(cfg.first, n, 0, 0, 0);
    KeysGrow(cfg.first, n);
    forall key | key in keys
      ensures cfg.first <= NumberOf(key) < cfg.first + n
    {
      InKeys(cfg.first, n, 0, 0, 0, key);
    }
    OneRecordMore(s.sent, cfg.first, keys, packet.Key(), packet.packet);
  }

  lemma {:induction false} SubmitNext(cfg: Config, p: Packet, n: nat)
    requires Small(p) && cfg.first + n + 0x2_0001 < 0x1_0000_0000_0000
    requires Reachable(cfg, Snapshot(cfg, p, n, 0, 0, 0))
    ensures Reachable(cfg, Snapshot(cfg, p, n + 1, 0, 0, 0))
  {
    var s := Snapshot(cfg, p, n, 0, 0, 0);
    var packet := OutUdpPacket(s.out.Add(1).generation, p.(id := s.out.packet));
    SubmitStep(cfg, s, p, packet);
    StepIsReachable(cfg, s, Submit(p));
    OneSubmitted(cfg, p, n, s, Snapshot(cfg, p, n + 1, 0, 0, 0), packet);
  }

  lemma {:induction false} SubmitAll(cfg: Config, p: Packet, n: nat)
    requires cfg.lz.Inverse() && Small(p) && cfg.first + n + 0x2_0000 < 0x1_0000_0000_0000
    ensures Reachable(cfg, Snapshot(cfg, p, n, 0, 0, 0))
    decreases n
  {
    if n == 0 {
      StartIsReachable(cfg);
      SnapshotStart(cfg, p);
    } else {
      SubmitAll(cfg, p, n - 1);
      SubmitNext(cfg, p, n - 1);
    }
  }

  lemma {:induction false} SnapshotStart(cfg: Config, p: Packet)
    ensures Snapshot(cfg, p, 0, 0, 0, 0) == Init(cfg)
  {
    FullInjective(Nth(cfg.first), PartialPacketId(0, cfg.first));
    assert Seen(0, 0) == {};
    assert Stretch(cfg.first, cfg.first) == {};
  }

  // ----- Delivering in order

  lemma {:induction false} ReceivesSmall(lz: QuickLz, c: Channel, p: Packet)
    requires Small(p) && p.id == c.next.packet && c.queue == [] && c.buffer == None
    ensures Receive(lz, c, p, c.next.generation) == Reception(Channel(c.next.Add(1), [], None), [p], true, None)
  {
    NewPacketIsHandled(lz, c, c.next, p);
  }

  lemma {:induction false} FewUpTo(keys: set<PartialPacketId>, lo: nat, hi: nat, key: PartialPacketId)
    requires lo <= hi < 0x1_0000_0000_0000 && NumberOf(key) < hi
    requires forall k :: k in keys ==> NumberOf(k) >= lo
    ensures |UpTo(keys, key)| <= hi - lo
  {
    forall k | k in UpTo(keys, key)
      ensures k in Stretch(lo, hi)
    {
      StretchMembers(lo, hi, k);
    }
    SubsetSize(UpTo(keys, key), Stretch(lo, hi));
    StretchSize(lo, hi);
  }

  lemma {:induction false} TransmitStep(cfg: Config, s: State, k: nat, key: PartialPacketId)
    requires key in s.outstanding && |UpTo(s.outstanding.Keys, key)| <= MAX_IN_FLIGHT
    requires NumberOf(key) == cfg.first + k
    ensures Enabled(cfg, s, Transmit(key)) && Apply(cfg, s, Transmit(key)) == s.(wire := s.wire + {k})
  {
  }

  /** The record of packet `k` may be sent while at most `MAX_IN_FLIGHT` records begin at `low`. */
  lemma {:induction false} TransmitOne(cfg: Config, s: State, keys: set<PartialPacketId>, low: nat, k: nat)
    requires Reachable(cfg, s) && keys == s.outstanding.Keys && KeyOf(cfg.first + k) in keys
    requires low <= k < low + MAX_IN_FLIGHT && cfg.first + k + 1 < 0x1_0000_0000_0000
    requires forall key :: key in keys ==> NumberOf(key) >= cfg.first + low
    ensures Reachable(cfg, s.(wire := s.wire + {k}))
  {
    var key := KeyOf(cfg.first + k);
    FewUpTo(keys, cfg.first + low, cfg.first + k + 1, key);
    TransmitStep(cfg, s, k, key);
    StepIsReachable(cfg, s, Transmit(key));
  }

  lemma {:induction false} RecordOf(
      cfg: Config, p: Packet, n: nat, done: nat, held: nat, low: nat, k: nat, s: State, keys: set<PartialPacketId>)
    requires low <= done <= n && (held > 0 ==> done + held < n) && cfg.first + n + 1 < 0x1_0000_0000_0000
    requires s == Snapshot(cfg, p, n, done, held, low) && low <= k < n && (k <= done || k > done + held)
    requires keys == s.outstanding.Keys
    ensures KeyOf(cfg.first + k) in keys && forall key :: key in keys ==> NumberOf(key) >= cfg.first + low
  {
    SnapshotKeys(cfg, p, n, done, held, low);
    InKeys(cfg.first, n, done, held, low, KeyOf(cfg.first + k));
    forall key | key in keys
      ensures NumberOf(key) >= cfg.first + low
    {
      InKeys(cfg.first, n, done, held, low, key);
    }
  }

  lemma {:induction false} DeliverStep(cfg: Config, s: State, k: nat, r: Reception)
    requires k in s.wire && k < |s.sent| && r.acked
    requires cfg.first + k == s.channel.next.Full() ==> InOrder(s.sent, s.channel.queue, cfg.first, k)
    requires r == Receive(cfg.lz, s.channel, s.sent[k], Nth(cfg.first + k).generation)
    ensures Enabled(cfg, s, Deliver(k))
    ensures Apply(cfg, s, Deliver(k)) ==
            s.(channel := r.channel, delivered := s.delivered + r.delivered, acks := s.acks + {k})
  {
  }

  lemma {:induction false} KeysStay(first: nat, n: nat, done: nat, low: nat)
    ensures Keys(first, n, done + 1, 0, low) == Keys(first, n, done, 0, low)
  {
    assert Stretch(first + done + 1, first + done + 1) == {} && Stretch(first + done + 2, first + done + 2) == {};
  }

  lemma {:induction false} SentGrows(sent: seq<Packet>, done: nat)
    requires done < |sent|
    ensures sent[..done + 1] == sent[..done] + [sent[done]] && Seen(done + 1, 0) == Seen(done, 0) + {done}
  {
  }

  lemma {:induction false} OneConsumed(cfg: Config, p: Packet, n: nat, done: nat, low: nat, s: State, s': State)
    requires low <= done < n && cfg.first + n + 0x2_0000 < 0x1_0000_0000_0000
    requires s == Snapshot(cfg, p, n, done, 0, low).(wire := Seen(done, 0) + {done})
    requires s' == Snapshot(cfg, p, n, done + 1, 0, low)
    ensures s' == s.(channel := Channel(s.channel.next.Add(1), [], None),
                     delivered := s.delivered + [s.sent[done]], acks := s.acks + {done})
  {
    AddExact(s.channel.next, 1);
    FullInjective(s.channel.next.Add(1), s'.channel.next);
    SentGrows(s.sent, done);
    KeysStay(cfg.first, n, done, low);
  }

  lemma {:induction false} DeliversNext(cfg: Config, p: Packet, n: nat, done: nat, low: nat, s: State, s': State)
    requires Small(p) && low <= done < n && cfg.first + n + 0x2_0000 < 0x1_0000_0000_0000
    requires s == Snapshot(cfg, p, n, done, 0, low).(wire := Seen(done, 0) + {done})
    requires s' == Snapshot(cfg, p, n, done + 1, 0, low)
    ensures Enabled(cfg, s, Deliver(done)) && Apply(cfg, s, Deliver(done)) == s'
  {
    var r := Reception(Channel(s.channel.next.Add(1), [], None), [s.sent[done]], true, None);
    ReceivesSmall(cfg.lz, s.channel, s.sent[done]);
    assert InOrder(s.sent, [], cfg.first, done) by { NoneConsecutive(cfg.first, done); }
    DeliverStep(cfg, s, done, r);
    OneConsumed(cfg, p, n, done, low, s, s');
  }

  lemma {:induction false} NoneConsecutive(first: nat, done: nat)
    ensures forall e :: e > done ==> !Consecutive([], first, done, e)
  {
    forall e | e > done
      ensures !Consecutive([], first, done, e)
    {
      assert !Queued([], IdAt(first, e));
    }
  }

  lemma {:induction false} SendNext(cfg: Config, p: Packet, n: nat, done: nat, low: nat)
    requires Small(p) && low <= done < n && done < low + MAX_IN_FLIGHT
    requires cfg.first + n + 0x2_0000 < 0x1_0000_0000_0000 && Reachable(cfg, Snapshot(cfg, p, n, done, 0, low))
    ensures Reachable(cfg, Snapshot(cfg, p, n, done + 1, 0, low))
  {
    var s := Snapshot(cfg, p, n, done, 0, low);
    var s1 := s.(wire := Seen(done, 0) + {done});
    RecordOf(cfg, p, n, done, 0, low, done, s, s.outstanding.Keys);
    TransmitOne(cfg, s, s.outstanding.Keys, low, done);
    DeliversNext(cfg, p, n, done, low, s1, Snapshot(cfg, p, n, done + 1, 0, low));
    StepIsReachable(cfg, s1, Deliver(done));
  }

  // ----- Acknowledging the oldest

  lemma {:induction false} OneRecordLess(
      sent: seq<Packet>, first: nat, keys: set<PartialPacketId>, key: PartialPacketId)
    ensures Records(sent, first, keys - {key}) == Records(sent, first, keys) - {key}
  {
  }

  lemma {:induction false} OneMemberLess(all: set<PartialPacketId>, key: PartialPacketId, rest: set<PartialPacketId>)
    requires forall k :: k in rest <==> k in all && k != key
    ensures rest == all - {key}
  {
  }

  lemma {:induction false} KeysShrink(first: nat, n: nat, done: nat, low: nat)
    requires low < done <= n && first + n + 1 < 0x1_0000_0000_0000
    ensures Keys(first, n, done, 0, low + 1) == Keys(first, n, done, 0, low) - {KeyOf(first + low)}
  {
    var all, rest, oldest := Keys(first, n, done, 0, low), Keys(first, n, done, 0, low + 1), KeyOf(first + low);
    forall key
      ensures key in rest <==> key in all && key != oldest
    {
      InKeys(first, n, done, 0, low, key);
      InKeys(first, n, done, 0, low + 1, key);
      NumberInjective(key, oldest);
    }
    OneMemberLess(all, oldest, rest);
  }

  lemma {:induction false} LowestIsOldest(keys: set<PartialPacketId>, first: nat, n: nat, done: nat, low: nat)
    requires low < done <= n && first + n + 1 < 0x1_0000_0000_0000 && keys == Keys(first, n, done, 0, low)
    ensures IsOldest(keys, KeyOf(first + low))
  {
    InKeys(first, n, done, 0, low, KeyOf(first + low));
    forall key | key in keys
      ensures first + low <= NumberOf(key)
    {
      InKeys(first, n, done, 0, low, key);
    }
  }

  lemma {:induction false} AckStep(cfg: Config, s: State, k: nat, removed: set<PartialPacketId>)
    requires k in s.acks && !Ambiguous(s.outstanding.Keys, cfg.first + k)
    requires removed == Ack(s.outstanding.Keys, s.out, Nth(cfg.first + k).packet).removed
    ensures Enabled(cfg, s, Acknowledge(k))
    ensures Apply(cfg, s, Acknowledge(k)) == s.(outstanding := s.outstanding - removed)
  {
  }

  lemma {:induction false} OneForgotten(cfg: Config, p: Packet, n: nat, done: nat, low: nat, s: State, s': State)
    requires low < done <= n && cfg.first + n + 0x2_0000 < 0x1_0000_0000_0000
    requires s == Snapshot(cfg, p, n, done, 0, low) && s' == Snapshot(cfg, p, n, done, 0, low + 1)
    ensures s' == s.(outstanding := s.outstanding - {KeyOf(cfg.first + low)})
  {
    KeysShrink(cfg.first, n, done, low);
    OneRecordLess(s.sent, cfg.first, Keys(cfg.first, n, done, 0, low), KeyOf(cfg.first + low));
  }

  lemma {:induction false} LowestAck(
      keys: set<PartialPacketId>, out: PartialPacketId, first: nat, n: nat, done: nat, low: nat)
    requires low < done <= n && first + n + 0x2_0000 < 0x1_0000_0000_0000 && keys == Keys(first, n, done, 0, low)
    ensures !Ambiguous(keys, first + low) && Ack(keys, out, Nth(first + low).packet).removed == {KeyOf(first + low)}
  {
    LowestIsOldest(keys, first, n, done, low);
    OldestAckTakesEffect(keys, out, first + low);
  }

  lemma {:induction false} OldestIsForgotten(
      cfg: Config, p: Packet, n: nat, done: nat, low: nat, s: State, s': State)
    requires low < done <= n && cfg.first + n + 0x2_0000 < 0x1_0000_0000_0000
    requires s == Snapshot(cfg, p, n, done, 0, low) && s' == Snapshot(cfg, p, n, done, 0, low + 1)
    ensures Enabled(cfg, s, Acknowledge(low)) && Apply(cfg, s, Acknowledge(low)) == s'
  {
    var key := KeyOf(cfg.first + low);
    assert s' == s.(outstanding := s.outstanding - {key}) by {
      OneForgotten(cfg, p, n, done, low, s, s');
    }
    SnapshotKeys(cfg, p, n, done, 0, low);
    LowestAck(s.outstanding.Keys, s.out, cfg.first, n, done, low);
    AckStep(cfg, s, low, {key});
  }

  lemma {:induction false} AckOldest(cfg: Config, p: Packet, n: nat, done: nat, low: nat)
    requires low < done <= n && cfg.first + n + 0x2_0000 < 0x1_0000_0000_0000
    requires Reachable(cfg, Snapshot(cfg, p, n, done, 0, low))
    ensures Reachable(cfg, Snapshot(cfg, p, n, done, 0, low + 1))
  {
    var s, s' := Snapshot(cfg, p, n, done, 0, low), Snapshot(cfg, p, n, done, 0, low + 1);
    OldestIsForgotten(cfg, p, n, done, low, s, s');
    StepIsReachable(cfg, s, Acknowledge(low));
  }

  /** Packets are sent, delivered and acknowledged one after the other. */
  lemma {:induction false} RunInOrder(cfg: Config, p: Packet, n: nat, low: nat)
    requires cfg.lz.Inverse() && Small(p) && low <= n && cfg.first + n + 0x2_0000 < 0x1_0000_0000_0000
    ensures Reachable(cfg, Snapshot(cfg, p, n, low, 0, low))
    decreases low
  {
    if low == 0 {
      SubmitAll(cfg, p, n);
    } else {
      RunInOrder(cfg, p, n, low - 1);
      SendNext(cfg, p, n, low - 1, low - 1);
      AckOldest(cfg, p, n, low, low - 1);
    }
  }

  /** Then the acknowledgements stay away. */
  lemma {:induction false} RunUnacked(cfg: Config, p: Packet, n: nat, done: nat, low: nat)
    requires cfg.lz.Inverse() && Small(p) && low <= done <= n && done <= low + MAX_IN_FLIGHT
    requires cfg.first + n + 0x2_0000 < 0x1_0000_0000_0000
    ensures Reachable(cfg, Snapshot(cfg, p, n, done, 0, low))
    decreases done
  {
    if done == low {
      RunInOrder(cfg, p, n, low);
    } else {
      RunUnacked(cfg, p, n, done - 1, low);
      SendNext(cfg, p, n, done - 1, low);
    }
  }

  // ----- Delivering ahead

  lemma {:induction false} ReceivesAhead(
      lz: QuickLz, stream: seq<Packet>, first: nat, done: nat, c: Channel, k: nat)
    requires Follows(stream, first, done, c) && done < k < |stream| && k < done + MAX_QUEUE_LEN
    ensures Receive(lz, c, stream[k], Nth(first + k).generation) ==
            Reception(c.(queue := c.queue + [stream[k]]), [], true, None)
  {
    var (c', h) := Handle(lz, c, stream[k]);
    HandleLater(lz, stream, first, done, c, k, c', h);
    NewPacketIsHandled(lz, c, Nth(first + k), stream[k]);
  }

  lemma {:induction false} KeysHeld(first: nat, n: nat, done: nat, held: nat)
    ensures Keys(first, n, done, held + 1, done) == Keys(first, n, done, held, done) - {KeyOf(first + done + held + 1)}
  {
  }

  lemma {:induction false} QueueGrows(sent: seq<Packet>, done: nat, held: nat)
    requires done + held + 1 < |sent|
    ensures sent[done + 1..done + 1 + (held + 1)] == sent[done + 1..done + 1 + held] + [sent[done + held + 1]]
    ensures Seen(done, held + 1) == Seen(done, held) + {done + held + 1}
  {
  }

  lemma {:induction false} RecordHeld(
      sent: seq<Packet>, first: nat, n: nat, done: nat, held: nat,
      records: map<PartialPacketId, Packet>, records': map<PartialPacketId, Packet>, key: PartialPacketId)
    requires records == Records(sent, first, Keys(first, n, done, held, done)) && key == KeyOf(first + done + held + 1)
    requires records' == Records(sent, first, Keys(first, n, done, held + 1, done))
    ensures records' == records - {key}
  {
    KeysHeld(first, n, done, held);
    OneRecordLess(sent, first, Keys(first, n, done, held, done), key);
  }

  lemma {:induction false} OneHeld(cfg: Config, p: Packet, n: nat, done: nat, held: nat, s: State, s': State, k: nat)
    requires k == done + held + 1 < n && cfg.first + n + 0x2_0000 < 0x1_0000_0000_0000
    requires s == Snapshot(cfg, p, n, done, held, done) && s' == Snapshot(cfg, p, n, done, held + 1, done)
    ensures s' == s.(channel := s.channel.(queue := s.channel.queue + [s.sent[k]]),
                     wire := s.wire + {k}, acks := s.acks + {k}, outstanding := s.outstanding - {KeyOf(cfg.first + k)})
  {
    RecordHeld(s.sent, cfg.first, n, done, held, s.outstanding, s'.outstanding, KeyOf(cfg.first + k));
    QueueGrows(s.sent, done, held);
  }

  ghost predicate FiledIn(key: PartialPacketId, g: nat) {
    key.generation == g
  }

  /** The last id of a generation is filed under the next one. */
  lemma {:induction false} NumbersFiledIn(key: PartialPacketId, g: nat)
    requires g * 0x1_0000 <= NumberOf(key) + 1 < (g + 1) * 0x1_0000
    ensures FiledIn(key, g)
  {
  }

  /** While all records are filed under one generation every acknowledgement takes effect. */
  lemma {:induction false} AckInGeneration(keys: set<PartialPacketId>, out: PartialPacketId, g: nat, f: nat)
    requires f < 0x1_0000_0000_0000 - 0x2_0000 && KeyOf(f) in keys
    requires forall key :: key in keys ==> FiledIn(key, g)
    ensures Ack(keys, out, Nth(f).packet).removed == {KeyOf(f)} && !Ambiguous(keys, f)
  {
    var first := First(keys);
    KeyHasId(f);
    assert FiledIn(first, g) && FiledIn(KeyOf(f), g);
    forall key | key in keys
      ensures !IsForeign(first, key, f)
    {
      assert FiledIn(key, g);
    }
    AckRemovesOnlyOwnExactly(keys, out, f);
    AckTakesEffectExactly(keys, out, f);
  }

  lemma {:induction false} TransmitAhead(cfg: Config, p: Packet, n: nat, done: nat, held: nat, s: State, k: nat)
    requires cfg.first + n + 0x2_0000 < 0x1_0000_0000_0000 && held + 1 < MAX_QUEUE_LEN
    requires k == done + held + 1 < n && s == Snapshot(cfg, p, n, done, held, done) && Reachable(cfg, s)
    ensures Reachable(cfg, s.(wire := s.wire + {k}))
  {
    RecordOf(cfg, p, n, done, held, done, k, s, s.outstanding.Keys);
    TransmitOne(cfg, s, s.outstanding.Keys, done, k);
  }

  lemma {:induction false} DeliverAhead(cfg: Config, s: State, done: nat, k: nat)
    requires Reachable(cfg, s) && Follows(s.sent, cfg.first, done, s.channel)
    requires k in s.wire && done < k < |s.sent| && k < done + MAX_QUEUE_LEN
    ensures Reachable(cfg, s.(channel := s.channel.(queue := s.channel.queue + [s.sent[k]]), acks := s.acks + {k}))
  {
    ReceivesAhead(cfg.lz, s.sent, cfg.first, done, s.channel, k);
    DeliverStep(cfg, s, k, Receive(cfg.lz, s.channel, s.sent[k], Nth(cfg.first + k).generation));
    assert s.delivered + [] == s.delivered;
    StepIsReachable(cfg, s, Deliver(k));
  }

  lemma {:induction false} HeldAck(
      cfg: Config, p: Packet, n: nat, done: nat, held: nat, s: State, k: nat, g: nat)
    requires cfg.first + n + 0x2_0000 < 0x1_0000_0000_0000 && k == done + held + 1 < n
    requires g * 0x1_0000 <= cfg.first + done + 1 && cfg.first + n < (g + 1) * 0x1_0000
    requires s == Snapshot(cfg, p, n, done, held, done)
    ensures Ack(s.outstanding.Keys, s.out, Nth(cfg.first + k).packet).removed == {KeyOf(cfg.first + k)}
    ensures !Ambiguous(s.outstanding.Keys, cfg.first + k)
  {
    SnapshotKeys(cfg, p, n, done, held, done);
    RecordOf(cfg, p, n, done, held, done, k, s, s.outstanding.Keys);
    forall key | key in s.outstanding.Keys
      ensures FiledIn(key, g)
    {
      InKeys(cfg.first, n, done, held, done, key);
      NumbersFiledIn(key, g);
    }
    AckInGeneration(s.outstanding.Keys, s.out, g, cfg.first + k);
  }

  lemma {:induction false} AckAhead(
      cfg: Config, p: Packet, n: nat, done: nat, held: nat, s: State, k: nat, g: nat, s2: State)
    requires cfg.first + n + 0x2_0000 < 0x1_0000_0000_0000 && k == done + held + 1 < n
    requires g * 0x1_0000 <= cfg.first + done + 1 && cfg.first + n < (g + 1) * 0x1_0000
    requires s == Snapshot(cfg, p, n, done, held, done) && Reachable(cfg, s2)
    requires s2 == s.(channel := s.channel.(queue := s.channel.queue + [s.sent[k]]),
                      wire := s.wire + {k}, acks := s.acks + {k})
    ensures Reachable(cfg, s2.(outstanding := s.outstanding - {KeyOf(cfg.first + k)}))
  {
    HeldAck(cfg, p, n, done, held, s, k, g);
    AckStep(cfg, s2, k, {KeyOf(cfg.first + k)});
    StepIsReachable(cfg, s2, Acknowledge(k));
  }

  lemma {:induction false} ReachableFollows(cfg: Config, s: State, done: nat)
    requires Reachable(cfg, s) && done == Done(cfg, s)
    ensures Follows(s.sent, cfg.first, done, s.channel)
  {
    ReachableInv(cfg, s);
  }

  lemma {:induction false} SendAhead(
      cfg: Config, p: Packet, n: nat, done: nat, held: nat, g: nat, s: State, s': State)
    requires cfg.first + n + 0x2_0000 < 0x1_0000_0000_0000 && g * 0x1_0000 <= cfg.first + done + 1 &&
             cfg.first + n < (g + 1) * 0x1_0000
    requires done + held + 1 < n && held + 1 < MAX_QUEUE_LEN
    requires s == Snapshot(cfg, p, n, done, held, done) && s' == Snapshot(cfg, p, n, done, held + 1, done)
    requires Reachable(cfg, s)
    ensures Reachable(cfg, s')
  {
    var k := done + held + 1;
    TransmitAhead(cfg, p, n, done, held, s, k);
    var s1 := s.(wire := s.wire + {k});
    ReachableFollows(cfg, s1, done);
    DeliverAhead(cfg, s1, done, k);
    var s2 := s1.(channel := s.channel.(queue := s.channel.queue + [s.sent[k]]), acks := s.acks + {k});
    AckAhead(cfg, p, n, done, held, s, k, g, s2);
    OneHeld(cfg, p, n, done, held, s, s', k);
  }

  /** Within a generation of keys, packets behind the next one are sent, delivered and acknowledged. */
  lemma {:induction false} RunAhead(cfg: Config, p: Packet, n: nat, done: nat, held: nat, g: nat, s: State)
    requires Small(p) && cfg.lz.Inverse() && cfg.first + n + 0x2_0000 < 0x1_0000_0000_0000
    requires g * 0x1_0000 <= cfg.first + done + 1 && cfg.first + n < (g + 1) * 0x1_0000
    requires done + held < n && held < MAX_QUEUE_LEN && s == Snapshot(cfg, p, n, done, held, done)
    ensures Reachable(cfg, s)
    decreases held
  {
    if held == 0 {
      RunInOrder(cfg, p, n, done);
    } else {
      var less := held - 1;
      var before := Snapshot(cfg, p, n, done, less, done);
      RunAhead(cfg, p, n, done, less, g, before);
      SendAhead(cfg, p, n, done, less, g, before, s);
    }
  }
}

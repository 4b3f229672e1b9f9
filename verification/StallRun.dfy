/** A session that comes to a standstill: more packets than the receiver holds wait behind the last id of
    a generation, and the window is one packet. */
module StallRun {
  import opened PacketIds
  import opened Wrappers
  import opened Fragments
  import opened Numbering
  import opened Receiver
  import opened Stream
  import opened Resend
  import opened Announcements
  import opened Scenarios
  import opened Session
  import opened Stall
  import L = ResendLimits
  import P = Protocol
  import R = ResendRuns

  /** Some session with a window of one packet leads to the state. */
  ghost predicate Attained(cfgs: Both<P.Config>, s: Session) {
    exists sessions, events :: IsSessionTo(cfgs, sessions, events, s)
  }

  ghost predicate IsSessionTo(cfgs: Both<P.Config>, sessions: seq<Session>, events: seq<Event>, s: Session) {
    SessionRun(cfgs, sessions, events, 1) && sessions[|events|] == s
  }

  lemma {:induction false} StartAttained(cfgs: Both<P.Config>)
    requires cfgs.command.lz.Inverse() && cfgs.low.lz.Inverse()
    ensures Attained(cfgs, Start(cfgs))
  {
    assert IsSessionTo(cfgs, [Start(cfgs)], [], Start(cfgs));
  }

  lemma {:induction false} EventAttained(cfgs: Both<P.Config>, s: Session, e: Event, s': Session)
    requires Attained(cfgs, s) && Possible(cfgs, s, 1, e) && s' == Next(cfgs, s, 1, e)
    ensures Attained(cfgs, s')
  {
    var sessions, events :| IsSessionTo(cfgs, sessions, events, s);
    forall k | 0 <= k < |events + [e]|
      ensures IsEvent(cfgs, sessions + [s'], events + [e], 1, k)
    {
      assert k < |events| ==> IsEvent(cfgs, sessions, events, 1, k);
    }
    assert IsSessionTo(cfgs, sessions + [s'], events + [e], s');
  }

  // ----- The state between two packets

  /** The record of a command, submitted at the start and not sent yet. */
  ghost function Fresh(key: PartialPacketId): SendRecord {
    NewRecord(Command, OutUdpPacket(key.generation, TINY.(id := key.packet)), 0)
  }

  ghost function FreshRecords(keys: set<PartialPacketId>): Records {
    map key | key in keys :: Fresh(key)
  }

  /** One packet is in the heap, and the others wait behind the cursor. */
  ghost function Waiting(cfgs: Both<P.Config>, channel: P.State, entry: SendRecordId, records: Records,
      cursor: PartialPacketId): Session
  {
    Session(Both(channel, P.Init(cfgs.low)), L.Commands([entry], records, cursor), 0)
  }

  /** The record that is sent next is that of `key`. */
  ghost function About(cfgs: Both<P.Config>, channel: P.State, key: PartialPacketId): Session {
    Waiting(cfgs, channel, Fresh(key).id, FreshRecords(channel.outstanding.Keys), key.Add(1))
  }

  // ----- One packet is sent, arrives and is acknowledged

  ghost function Touched(key: PartialPacketId): SendRecordId {
    SendRecordId(0, 1, PacketId(Command, key))
  }

  lemma {:induction false} SendsEntry(
      cfgs: Both<P.Config>, channel: P.State, key: PartialPacketId, k: nat, s: Session, s': Session)
    requires key in channel.outstanding && NumberOf(key) == cfgs.command.first + k && s == About(cfgs, channel, key)
    requires s' == Waiting(cfgs, channel.(wire := channel.wire + {k}), Touched(key),
                           FreshRecords(channel.outstanding.Keys)[key := Fresh(key).(id := Touched(key))], key.Add(1))
    requires Attained(cfgs, s)
    ensures Attained(cfgs, s')
  {
    L.Sends(s.queues, FreshRecords(channel.outstanding.Keys), key.Add(1), Fresh(key).id, 0);
    EventAttained(cfgs, s, Round(0, L.Single(0)), s');
  }

  lemma {:induction false} PacketComes(
      cfgs: Both<P.Config>, k: nat, c1: P.State, c2: P.State, entry: SendRecordId, records: Records,
      cursor: PartialPacketId)
    requires Attained(cfgs, Waiting(cfgs, c1, entry, records, cursor)) && IsStepTo(cfgs.command, c1, P.Deliver(k), c2)
    ensures Attained(cfgs, Waiting(cfgs, c2, entry, records, cursor))
  {
    var s := Waiting(cfgs, c1, entry, records, cursor);
    EventAttained(cfgs, s, PacketArrives(Command, k), Waiting(cfgs, c2, entry, records, cursor));
  }

  lemma {:induction false} AckComes(
      cfgs: Both<P.Config>, k: nat, removed: set<PartialPacketId>, c2: P.State, c3: P.State,
      entry: SendRecordId, records: Records, cursor: PartialPacketId)
    requires Attained(cfgs, Waiting(cfgs, c2, entry, records, cursor))
    requires IsStepTo(cfgs.command, c2, P.Acknowledge(k), c3) && records.Keys == c2.outstanding.Keys
    requires removed == Ack(records.Keys, c2.out, Nth(cfgs.command.first + k).packet).removed
    ensures Attained(cfgs, Waiting(cfgs, c3, entry, records - removed, cursor))
  {
    var s := Waiting(cfgs, c2, entry, records, cursor);
    assert s.queues.Remove(Command, removed) == L.Commands([entry], records - removed, cursor);
    EventAttained(cfgs, s, AckArrives(Command, k), Waiting(cfgs, c3, entry, records - removed, cursor));
  }

  /** The record that enters the heap behind that of `key`. */
  ghost predicate IsAfter(keys: set<PartialPacketId>, key: PartialPacketId, next: PartialPacketId) {
    next in keys && !next.Less(key.Add(1)) && forall e :: e in keys && !e.Less(key.Add(1)) ==> next.AtMost(e)
  }

  lemma {:induction false} NextEnters(
      cfgs: Both<P.Config>, channel: P.State, key: PartialPacketId, next: PartialPacketId, s: Session)
    requires key !in channel.outstanding && IsAfter(channel.outstanding.Keys, key, next)
    requires s == Waiting(cfgs, channel, Touched(key), FreshRecords(channel.outstanding.Keys), key.Add(1))
    requires Attained(cfgs, s)
    ensures Attained(cfgs, About(cfgs, channel, next))
  {
    L.Pops(s.queues, FreshRecords(channel.outstanding.Keys), key.Add(1), Touched(key), next, 0);
    EventAttained(cfgs, s, Round(0, L.Single(0)), About(cfgs, channel, next));
  }

  lemma {:induction false} RecordsLeft(keys: set<PartialPacketId>, key: PartialPacketId, rec: SendRecord)
    requires key in keys
    ensures FreshRecords(keys)[key := rec].Keys == keys
    ensures FreshRecords(keys)[key := rec] - {key} == FreshRecords(keys - {key})
  {
  }

  /** The acknowledgement of packet `k` leaves the records but for that of `key`. */
  ghost predicate Forgets(cfg: P.Config, c2: P.State, k: nat, key: PartialPacketId, c3: P.State) {
    && IsStepTo(cfg, c2, P.Acknowledge(k), c3) && c3.outstanding == c2.outstanding - {key}
    && Ack(c2.outstanding.Keys, c2.out, Nth(cfg.first + k).packet).removed == {key}
  }

  lemma {:induction false} ArrivesAndLeaves(
      cfgs: Both<P.Config>, k: nat, c1: P.State, c2: P.State, c3: P.State, key: PartialPacketId,
      keys: set<PartialPacketId>, records: Records)
    requires IsStepTo(cfgs.command, c1, P.Deliver(k), c2) && Forgets(cfgs.command, c2, k, key, c3)
    requires key in keys && keys == c2.outstanding.Keys
    requires records == FreshRecords(keys)[key := Fresh(key).(id := Touched(key))]
    requires Attained(cfgs, Waiting(cfgs, c1, Touched(key), records, key.Add(1)))
    ensures Attained(cfgs, Waiting(cfgs, c3, Touched(key), FreshRecords(keys - {key}), key.Add(1)))
  {
    PacketComes(cfgs, k, c1, c2, Touched(key), records, key.Add(1));
    RecordsLeft(keys, key, Fresh(key).(id := Touched(key)));
    AckComes(cfgs, k, {key}, c2, c3, Touched(key), records, key.Add(1));
  }

  /** Packet `k` is sent, arrives and is acknowledged, and the next record enters the heap. */
  lemma {:induction false} CycleAttained(
      cfgs: Both<P.Config>, k: nat, c0: P.State, c1: P.State, c2: P.State, c3: P.State,
      key: PartialPacketId, next: PartialPacketId)
    requires c1 == c0.(wire := c0.wire + {k}) && c2.outstanding == c0.outstanding
    requires IsStepTo(cfgs.command, c1, P.Deliver(k), c2) && Forgets(cfgs.command, c2, k, key, c3)
    requires key in c0.outstanding && NumberOf(key) == cfgs.command.first + k && IsAfter(c3.outstanding.Keys, key, next)
    requires Attained(cfgs, About(cfgs, c0, key))
    ensures Attained(cfgs, About(cfgs, c3, next))
  {
    var keys := c0.outstanding.Keys;
    var records := FreshRecords(keys)[key := Fresh(key).(id := Touched(key))];
    SendsEntry(cfgs, c0, key, k, About(cfgs, c0, key), Waiting(cfgs, c1, Touched(key), records, key.Add(1)));
    ArrivesAndLeaves(cfgs, k, c1, c2, c3, key, keys, records);
    assert c3.outstanding.Keys == keys - {key};
    NextEnters(cfgs, c3, key, next, Waiting(cfgs, c3, Touched(key), FreshRecords(keys - {key}), key.Add(1)));
  }

  // ----- All commands are submitted at the start

  lemma {:induction false} SendsTiny(cfg: P.Config, c0: P.State, q: Queues, packet: OutUdpPacket)
    requires packet == OutUdpPacket(c0.out.Add(1).generation, TINY.(id := c0.out.packet))
    ensures Split(cfg.lz, TINY) == [TINY] && NumberPieces(c0.out, Split(cfg.lz, TINY)) == [packet]
    ensures SendAll(q, Command, [packet], [(0, 1)]) == q.Send(Command, packet, 0, 1)
  {
    SmallIsOnePiece(cfg.lz, TINY);
    NumbersOne(c0.out, TINY, packet, c0.outstanding);
    var q' := q.Send(Command, packet, 0, 1);
    assert [packet][1..] == [] && [(0, 1)][1..] == [];
    assert SendAll(q', Command, [packet][1..], [(0, 1)][1..]) == q';
  }

  lemma {:induction false} TinySent(
      cfgs: Both<P.Config>, c0: P.State, c1: P.State, q: Queues, q': Queues, packet: OutUdpPacket)
    requires Attained(cfgs, Session(Both(c0, P.Init(cfgs.low)), q, 0))
    requires IsStepTo(cfgs.command, c0, P.Submit(TINY), c1) && q' == q.Send(Command, packet, 0, 1)
    requires packet == OutUdpPacket(c0.out.Add(1).generation, TINY.(id := c0.out.packet))
    ensures Attained(cfgs, Session(Both(c1, P.Init(cfgs.low)), q', 0))
  {
    var s := Session(Both(c0, P.Init(cfgs.low)), q, 0);
    SendsTiny(cfgs.command, c0, q, packet);
    var e := Send(Command, TINY, [(0, 1)]);
    assert InTime(0, 1, [(0, 1)][1..]);
    EventAttained(cfgs, s, e, Session(Both(c1, P.Init(cfgs.low)), q', 0));
  }

  lemma {:induction false} SubmitIsStep(cfg: P.Config, n: nat, c0: P.State, c1: P.State, packet: OutUdpPacket)
    requires cfg.first + n + 0x2_0001 < 0x1_0000_0000_0000
    requires c0 == Snapshot(cfg, TINY, n, 0, 0, 0) && c1 == Snapshot(cfg, TINY, n + 1, 0, 0, 0)
    requires packet == OutUdpPacket(c0.out.Add(1).generation, TINY.(id := c0.out.packet))
    ensures IsStepTo(cfg, c0, P.Submit(TINY), c1)
    ensures c1.outstanding == c0.outstanding[packet.Key() := packet.packet]
  {
    SubmitStep(cfg, c0, TINY, packet);
    OneSubmitted(cfg, TINY, n, c0, c1, packet);
  }

  lemma {:induction false} NextPacketKey(cfg: P.Config, n: nat, c0: P.State, packet: OutUdpPacket)
    requires cfg.first + n + 0x2_0001 < 0x1_0000_0000_0000 && c0 == Snapshot(cfg, TINY, n, 0, 0, 0)
    requires packet == OutUdpPacket(c0.out.Add(1).generation, TINY.(id := c0.out.packet))
    ensures packet.Key() == KeyOf(cfg.first + n) && NewRecord(Command, packet, 0) == Fresh(packet.Key())
    ensures packet.Key().Full() + 1 < 0x1_0000_0000_0000 && packet.Key().Full() >= cfg.first + n
  {
    NextKey(c0.out);
    assert NumberOf(packet.Key()) == cfg.first + n;
  }

  lemma {:induction false} FirstQueue(packet: OutUdpPacket, keys: set<PartialPacketId>, key: PartialPacketId)
    requires key == packet.Key() && keys == {key} && key.Full() + 1 < 0x1_0000_0000_0000
    requires NewRecord(Command, packet, 0) == Fresh(key)
    ensures R.Empty().Send(Command, packet, 0, 1) == L.Commands([Fresh(key).id], FreshRecords(keys), key.Add(1))
  {
    L.SubmitsFirst(packet, 0);
    assert FreshRecords({key}) == map[key := Fresh(key)];
  }

  lemma {:induction false} LaterQueue(
      packet: OutUdpPacket, keys: set<PartialPacketId>, key: PartialPacketId, first: PartialPacketId)
    requires key == packet.Key() && key.Full() + 1 < 0x1_0000_0000_0000 && !key.Less(first.Add(1))
    requires NewRecord(Command, packet, 0) == Fresh(key)
    ensures L.Commands([Fresh(first).id], FreshRecords(keys), first.Add(1)).Send(Command, packet, 0, 1) ==
            L.Commands([Fresh(first).id], FreshRecords(keys + {key}), first.Add(1))
  {
    L.SubmitsMore(Fresh(first).id, FreshRecords(keys), first.Add(1), packet, 0, 0);
    assert FreshRecords(keys)[key := Fresh(key)] == FreshRecords(keys + {key});
  }

  lemma {:induction false} FirstSubmitted(cfgs: Both<P.Config>)
    requires cfgs.command.lz.Inverse() && cfgs.low.lz.Inverse()
    ensures Attained(cfgs, About(cfgs, Snapshot(cfgs.command, TINY, 1, 0, 0, 0), KeyOf(cfgs.command.first)))
  {
    var cfg := cfgs.command;
    var c0, c1 := Snapshot(cfg, TINY, 0, 0, 0, 0), Snapshot(cfg, TINY, 1, 0, 0, 0);
    var packet := OutUdpPacket(c0.out.Add(1).generation, TINY.(id := c0.out.packet));
    SnapshotStart(cfg, TINY);
    StartAttained(cfgs);
    NextPacketKey(cfg, 0, c0, packet);
    SubmitIsStep(cfg, 0, c0, c1, packet);
    assert c1.outstanding.Keys == {packet.Key()};
    FirstQueue(packet, c1.outstanding.Keys, packet.Key());
    TinySent(cfgs, c0, c1, R.Empty(), R.Empty().Send(Command, packet, 0, 1), packet);
  }

  lemma {:induction false} LaterIsAbove(first: u16, f: nat, key: PartialPacketId)
    requires first < 0xffff && f > first && key.Full() >= f
    ensures !key.Less(KeyOf(first).Add(1))
  {
    NumberInjective(KeyOf(first), PartialPacketId(0, first));
    OrderIsNumeric(key, KeyOf(first).Add(1));
  }

  lemma {:induction false} LaterSubmitted(
      cfgs: Both<P.Config>, n: nat, c0: P.State, c1: P.State, first: PartialPacketId)
    requires 0 < n && cfgs.command.first < 0xffff && cfgs.command.first + n + 0x2_0001 < 0x1_0000_0000_0000
    requires c0 == Snapshot(cfgs.command, TINY, n, 0, 0, 0) && c1 == Snapshot(cfgs.command, TINY, n + 1, 0, 0, 0)
    requires first == KeyOf(cfgs.command.first) && Attained(cfgs, About(cfgs, c0, first))
    ensures Attained(cfgs, About(cfgs, c1, first))
  {
    var packet := OutUdpPacket(c0.out.Add(1).generation, TINY.(id := c0.out.packet));
    var key, keys := packet.Key(), c0.outstanding.Keys;
    NextPacketKey(cfgs.command, n, c0, packet);
    LaterIsAbove(cfgs.command.first, cfgs.command.first + n, key);
    LaterQueue(packet, keys, key, first);
    SubmitIsStep(cfgs.command, n, c0, c1, packet);
    assert c1.outstanding.Keys == keys + {key};
    TinySent(cfgs, c0, c1, L.Commands([Fresh(first).id], FreshRecords(keys), first.Add(1)),
             L.Commands([Fresh(first).id], FreshRecords(keys + {key}), first.Add(1)), packet);
  }

  lemma {:induction false} AllSubmitted(cfgs: Both<P.Config>, n: nat, c: P.State, first: PartialPacketId)
    requires cfgs.command.lz.Inverse() && cfgs.low.lz.Inverse() && cfgs.command.first < 0xffff
    requires 0 < n && cfgs.command.first + n + 0x2_0000 < 0x1_0000_0000_0000
    requires c == Snapshot(cfgs.command, TINY, n, 0, 0, 0) && first == KeyOf(cfgs.command.first)
    ensures Attained(cfgs, About(cfgs, c, first))
    decreases n
  {
    if n == 1 {
      FirstSubmitted(cfgs);
    } else {
      var less := n - 1;
      var before := Snapshot(cfgs.command, TINY, less, 0, 0, 0);
      AllSubmitted(cfgs, less, before, first);
      LaterSubmitted(cfgs, less, before, c, first);
    }
  }

  // ----- The packets of the first generation but its last

  lemma {:induction false} InOrderArrives(cfg: P.Config, n: nat, m: nat, c0: P.State, c1: P.State, c2: P.State)
    requires m < n && cfg.first + n + 0x2_0000 < 0x1_0000_0000_0000
    requires c0 == Snapshot(cfg, TINY, n, m, 0, m) && c1 == c0.(wire := c0.wire + {m})
    requires c2 == Snapshot(cfg, TINY, n, m + 1, 0, m)
    ensures IsStepTo(cfg, c1, P.Deliver(m), c2) && c2.outstanding == c0.outstanding
  {
    DeliversNext(cfg, TINY, n, m, m, c1, c2);
    OneConsumed(cfg, TINY, n, m, m, c1, c2);
  }

  lemma {:induction false} ForgetsOne(cfg: P.Config, c2: P.State, k: nat, key: PartialPacketId, c3: P.State)
    requires k in c2.acks && !P.Ambiguous(c2.outstanding.Keys, cfg.first + k)
    requires Ack(c2.outstanding.Keys, c2.out, Nth(cfg.first + k).packet).removed == {key}
    requires c3 == c2.(outstanding := c2.outstanding - {key})
    ensures Forgets(cfg, c2, k, key, c3)
  {
    AckStep(cfg, c2, k, {key});
  }

  lemma {:induction false} OldestIsAcked(cfg: P.Config, n: nat, m: nat, c2: P.State)
    requires m < n && cfg.first + n + 0x2_0000 < 0x1_0000_0000_0000 && c2 == Snapshot(cfg, TINY, n, m + 1, 0, m)
    ensures m in c2.acks && !P.Ambiguous(c2.outstanding.Keys, cfg.first + m)
    ensures Ack(c2.outstanding.Keys, c2.out, Nth(cfg.first + m).packet).removed == {KeyOf(cfg.first + m)}
  {
    SnapshotKeys(cfg, TINY, n, m + 1, 0, m);
    LowestAck(c2.outstanding.Keys, c2.out, cfg.first, n, m + 1, m);
  }

  lemma {:induction false} InOrderForgets(cfg: P.Config, n: nat, m: nat, c2: P.State, c3: P.State)
    requires m < n && cfg.first + n + 0x2_0000 < 0x1_0000_0000_0000
    requires c2 == Snapshot(cfg, TINY, n, m + 1, 0, m) && c3 == Snapshot(cfg, TINY, n, m + 1, 0, m + 1)
    ensures Forgets(cfg, c2, m, KeyOf(cfg.first + m), c3)
  {
    var key := KeyOf(cfg.first + m);
    assert c3 == c2.(outstanding := c2.outstanding - {key}) by {
      OneForgotten(cfg, TINY, n, m + 1, m, c2, c3);
    }
    assert m in c2.acks && !P.Ambiguous(c2.outstanding.Keys, cfg.first + m) &&
           Ack(c2.outstanding.Keys, c2.out, Nth(cfg.first + m).packet).removed == {key} by {
      OldestIsAcked(cfg, n, m, c2);
    }
    ForgetsOne(cfg, c2, m, key, c3);
  }

  /** Behind packet 65534 the packet after the next one enters the heap. */
  function Following(f: nat): nat {
    if f == 0xfffe then 0x1_0000 else f + 1
  }

  lemma {:induction false} FollowingIsAfter(
      first: nat, n: nat, m: nat, keys: set<PartialPacketId>, key: PartialPacketId,
      next: PartialPacketId)
    requires first + m < 0xffff && 0x1_0000 < first + n < 0x1_0000_0000_0000 - 1
    requires keys == Keys(first, n, m + 1, 0, m + 1)
    requires key == KeyOf(first + m) && next == KeyOf(Following(first + m))
    ensures IsAfter(keys, key, next)
  {
    NumberInjective(key, PartialPacketId(0, first + m));
    assert key.Add(1) == PartialPacketId(0, first + m + 1);
    InKeys(first, n, m + 1, 0, m + 1, next);
    forall e | e in keys && !e.Less(key.Add(1))
      ensures next.AtMost(e)
    {
      InKeys(first, n, m + 1, 0, m + 1, e);
      OrderIsNumeric(next, e);
    }
    OrderIsNumeric(next, key.Add(1));
  }

  lemma {:induction false} NextInOrder(cfgs: Both<P.Config>, n: nat, m: nat)
    requires cfgs.command.first + m < 0xffff && 0x1_0000 < cfgs.command.first + n < 0x1_0000_0000_0000 - 0x2_0000
    requires m < n
    requires Attained(cfgs, About(cfgs, Snapshot(cfgs.command, TINY, n, m, 0, m), KeyOf(cfgs.command.first + m)))
    ensures Attained(cfgs, About(cfgs, Snapshot(cfgs.command, TINY, n, m + 1, 0, m + 1),
                                 KeyOf(Following(cfgs.command.first + m))))
  {
    var cfg, key, next := cfgs.command, KeyOf(cfgs.command.first + m), KeyOf(Following(cfgs.command.first + m));
    var c0, c2 := Snapshot(cfg, TINY, n, m, 0, m), Snapshot(cfg, TINY, n, m + 1, 0, m);
    var c1, c3 := c0.(wire := c0.wire + {m}), Snapshot(cfg, TINY, n, m + 1, 0, m + 1);
    InOrderArrives(cfg, n, m, c0, c1, c2);
    InOrderForgets(cfg, n, m, c2, c3);
    RecordOf(cfg, TINY, n, m, 0, m, m, c0, c0.outstanding.Keys);
    SnapshotKeys(cfg, TINY, n, m + 1, 0, m + 1);
    FollowingIsAfter(cfg.first, n, m, c3.outstanding.Keys, key, next);
    CycleAttained(cfgs, m, c0, c1, c2, c3, key, next);
  }

  /** Up to packet 65534 all is well. */
  lemma {:induction false} FirstGeneration(cfgs: Both<P.Config>, n: nat, m: nat)
    requires cfgs.command.lz.Inverse() && cfgs.low.lz.Inverse()
    requires cfgs.command.first + m < 0xffff && 0x1_0000 < cfgs.command.first + n < 0x1_0000_0000_0000 - 0x2_0000
    ensures Attained(cfgs, About(cfgs, Snapshot(cfgs.command, TINY, n, m, 0, m), KeyOf(cfgs.command.first + m)))
    decreases m
  {
    if m == 0 {
      AllSubmitted(cfgs, n, Snapshot(cfgs.command, TINY, n, 0, 0, 0), KeyOf(cfgs.command.first));
    } else {
      FirstGeneration(cfgs, n, m - 1);
      NextInOrder(cfgs, n, m - 1);
    }
  }

  // ----- Packets behind the last one of the generation

  lemma {:induction false} AheadCycle(
      cfg: P.Config, n: nat, done: nat, held: nat, k: nat, c0: P.State, c1: P.State, c2: P.State, c3: P.State)
    requires cfg.first + done == 0xffff && k == done + held + 1 < n && held + 1 < MAX_QUEUE_LEN
    requires cfg.first + n < 0x2_0000 && Reachable(cfg, c0)
    requires c0 == Snapshot(cfg, TINY, n, done, held, done) && c1 == c0.(wire := c0.wire + {k})
    requires c2 == c1.(channel := c0.channel.(queue := c0.channel.queue + [c0.sent[k]]), acks := c0.acks + {k})
    requires c3 == Snapshot(cfg, TINY, n, done, held + 1, done)
    ensures IsStepTo(cfg, c1, P.Deliver(k), c2) && Forgets(cfg, c2, k, KeyOf(cfg.first + k), c3)
  {
    ReachableFollows(cfg, c0, done);
    ReceivesAhead(cfg.lz, c0.sent, cfg.first, done, c0.channel, k);
    DeliverStep(cfg, c1, k, Receive(cfg.lz, c0.channel, c0.sent[k], Nth(cfg.first + k).generation));
    assert c1.delivered + [] == c1.delivered;
    HeldAck(cfg, TINY, n, done, held, c0, k, 1);
    OneHeld(cfg, TINY, n, done, held, c0, c3, k);
    ForgetsOne(cfg, c2, k, KeyOf(cfg.first + k), c3);
  }

  lemma {:induction false} NextKeyIsAfter(first: nat, n: nat, done: nat, held: nat, k: nat,
      keys: set<PartialPacketId>, key: PartialPacketId, next: PartialPacketId)
    requires first + done == 0xffff && k == done + held + 1 && k + 1 < n && first + n < 0x2_0000
    requires keys == Keys(first, n, done, held + 1, done) && key == KeyOf(first + k) && next == KeyOf(first + k + 1)
    ensures IsAfter(keys, key, next)
  {
    var id := PartialPacketId(1, held);
    NumberInjective(key, id);
    NumberInjective(next, PartialPacketId(1, held + 1));
    InKeys(first, n, done, held + 1, done, next);
    forall e | e in keys && !e.Less(next)
      ensures next.AtMost(e)
    {
      OrderIsNumeric(e, next);
      OrderIsNumeric(next, e);
    }
  }

  lemma {:induction false} AttainedReachable(cfgs: Both<P.Config>, s: Session)
    requires Attained(cfgs, s)
    ensures Reachable(cfgs.command, s.channels.command)
  {
    var sessions, events :| IsSessionTo(cfgs, sessions, events, s);
    SessionKeepsInv(cfgs, sessions, events, 1, |events|, s);
    assert ChannelInv(cfgs.Get(Command), s.channels.Get(Command), s.queues, Command);
  }

  lemma {:induction false} NextAhead(
      cfgs: Both<P.Config>, n: nat, done: nat, held: nat, k: nat, c0: P.State, c3: P.State,
      key: PartialPacketId, next: PartialPacketId)
    requires cfgs.command.first + done == 0xffff && k == done + held + 1 && k + 1 < n && held + 1 < MAX_QUEUE_LEN
    requires cfgs.command.first + n < 0x2_0000
    requires c0 == Snapshot(cfgs.command, TINY, n, done, held, done)
    requires c3 == Snapshot(cfgs.command, TINY, n, done, held + 1, done)
    requires key == KeyOf(cfgs.command.first + k) && next == KeyOf(cfgs.command.first + k + 1)
    requires Attained(cfgs, About(cfgs, c0, key))
    ensures Attained(cfgs, About(cfgs, c3, next))
  {
    var c1 := c0.(wire := c0.wire + {k});
    var c2 := c1.(channel := c0.channel.(queue := c0.channel.queue + [c0.sent[k]]), acks := c0.acks + {k});
    AttainedReachable(cfgs, About(cfgs, c0, key));
    AheadCycle(cfgs.command, n, done, held, k, c0, c1, c2, c3);
    RecordOf(cfgs.command, TINY, n, done, held, done, k, c0, c0.outstanding.Keys);
    SnapshotKeys(cfgs.command, TINY, n, done, held + 1, done);
    NextKeyIsAfter(cfgs.command.first, n, done, held, k, c3.outstanding.Keys, key, next);
    CycleAttained(cfgs, k, c0, c1, c2, c3, key, next);
  }

  lemma {:induction false} LastOfGeneration(cfgs: Both<P.Config>, n: nat, done: nat, c: P.State, key: PartialPacketId)
    requires cfgs.command.lz.Inverse() && cfgs.low.lz.Inverse() && done > 0
    requires cfgs.command.first + done == 0xffff && done + 1 < n && cfgs.command.first + n < 0x2_0000
    requires c == Snapshot(cfgs.command, TINY, n, done, 0, done) && key == KeyOf(0x1_0000)
    ensures Attained(cfgs, About(cfgs, c, key))
  {
    FirstGeneration(cfgs, n, done - 1);
    NextInOrder(cfgs, n, done - 1);
  }

  lemma {:induction false} Ahead(
      cfgs: Both<P.Config>, n: nat, done: nat, held: nat, c: P.State, key: PartialPacketId)
    requires cfgs.command.lz.Inverse() && cfgs.low.lz.Inverse() && done > 0
    requires cfgs.command.first + done == 0xffff && done + held + 1 < n && held < MAX_QUEUE_LEN
    requires cfgs.command.first + n < 0x2_0000 && c == Snapshot(cfgs.command, TINY, n, done, held, done)
    requires key == KeyOf(0x1_0000 + held)
    ensures Attained(cfgs, About(cfgs, c, key))
    decreases held
  {
    if held == 0 {
      LastOfGeneration(cfgs, n, done, c, key);
    } else {
      var less := held - 1;
      var before, earlier := Snapshot(cfgs.command, TINY, n, done, less, done), KeyOf(0x1_0000 + less);
      Ahead(cfgs, n, done, less, before, earlier);
      NextAhead(cfgs, n, done, less, done + held, before, c, earlier, key);
    }
  }

  // ----- The stall

  lemma {:induction false} OneIsRefused(
      keys: set<PartialPacketId>, key: PartialPacketId, last: PartialPacketId, bound: int)
    requires key in keys && key.Less(last) && NumberOf(key) >= bound
    ensures 1 <= |Refused(FreshRecords(keys), last, bound)|
  {
    var refused := Refused(FreshRecords(keys), last, bound);
    assert key in refused;
    P.SubsetSize({key}, refused);
  }

  lemma {:induction false} RefusedIsKept(
      cfg: P.Config, n: nat, done: nat, held: nat, c: P.State, keys: set<PartialPacketId>, key: PartialPacketId)
    requires cfg.first + done == 0xffff && n == done + held + 2 && 0 < held < MAX_QUEUE_LEN
    requires c == Snapshot(cfg, TINY, n, done, held, done) && keys == c.outstanding.Keys
    requires key == PartialPacketId(1, held)
    ensures key in keys && NumberOf(key) == 0x1_0000 + held && P.Done(cfg, c) == done
    ensures done < |c.sent| && done !in c.wire && |c.commands| == n && |c.delivered| == done
  {
    SnapshotKeys(cfg, TINY, n, done, held, done);
    InKeys(cfg.first, n, done, held, done, key);
  }

  /** The receiver holds all it can, and packet 65535 waits outside the heap. */
  lemma {:induction false} HeldStateStalls(
      cfg: P.Config, n: nat, done: nat, held: nat, c: P.State, key: PartialPacketId, q: Queues)
    requires cfg.first + done == 0xffff && n == done + held + 2 && held == MAX_QUEUE_LEN - 1
    requires c == Snapshot(cfg, TINY, n, done, held, done) && key == PartialPacketId(1, held)
    requires q == L.Commands([Fresh(key).id], FreshRecords(c.outstanding.Keys), key.Add(1))
    ensures Stalled(cfg, c, q, Command, 1) && |c.commands| > |c.delivered|
  {
    var last := KeyOf(0xffff);
    NumberInjective(last, PartialPacketId(1, 0xffff));
    RefusedIsKept(cfg, n, done, held, c, c.outstanding.Keys, key);
    OneIsRefused(c.outstanding.Keys, key, last, 0x1_0000 + held);
  }

  lemma {:induction false} StalledAttained(cfgs: Both<P.Config>, held: nat) returns (s: Session)
    requires cfgs.command.lz.Inverse() && cfgs.low.lz.Inverse() && cfgs.command.first < 0xffff
    requires held == MAX_QUEUE_LEN - 1
    ensures Attained(cfgs, s) && Stalled(cfgs.command, s.channels.command, s.queues, Command, 1)
    ensures |s.channels.command.commands| > |s.channels.command.delivered|
  {
    var done: nat := 0xffff - cfgs.command.first;
    var n, key := done + held + 2, PartialPacketId(1, held);
    var c := Snapshot(cfgs.command, TINY, n, done, held, done);
    NumberInjective(KeyOf(0x1_0000 + held), key);
    s := About(cfgs, c, key);
    Ahead(cfgs, n, done, held, c, key);
    HeldStateStalls(cfgs.command, n, done, held, c, key, s.queues);
  }

  /** A session that stalls: 65536 - `first` + 200 commands are submitted, and all packets arrive at once
      and are acknowledged at once. Packet 65535 is never sent: its successors fill the window of one
      packet, and when the receiver holds 199 of them it refuses the next one for ever. */
  lemma {:induction false} StallingSession(cfgs: Both<P.Config>)
    returns (sessions: seq<Session>, events: seq<Event>)
    requires cfgs.command.lz.Inverse() && cfgs.low.lz.Inverse() && cfgs.command.first < 0xffff
    ensures SessionRun(cfgs, sessions, events, 1)
    ensures var s := sessions[|events|];
            && Stalled(cfgs.command, s.channels.command, s.queues, Command, 1)
            && |s.channels.command.commands| > |s.channels.command.delivered|
  {
    var s := StalledAttained(cfgs, MAX_QUEUE_LEN - 1);
    sessions, events :| IsSessionTo(cfgs, sessions, events, s);
  }
}

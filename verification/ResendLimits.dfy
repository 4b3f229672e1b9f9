/** Runs of the resender in which the last id of a generation is overtaken and starves. */
module ResendLimits {
  import opened PacketIds
  import opened Wrappers
  import opened Numbering
  import opened Resend
  import opened ResendRuns

  const ZERO := PartialPacketId(0, 0)

  /** Queues in which only commands wait. */
  function Commands(heap: seq<SendRecordId>, records: Records, cursor: PartialPacketId): Queues {
    Queues(heap, PerKind(map[], records, map[]), PerKind(ZERO, cursor, ZERO))
  }

  /** A round with a window of one packet, in which every packet that was sent before counts as lost. */
  function Single(now: nat): Env {
    Env(now, now, 100, 1, Ready, false)
  }

  lemma {:induction false} FillsNext(
      heap: seq<SendRecordId>, records: Records, cursor: PartialPacketId, part: PartialPacketId, n: nat)
    requires part in records && !part.Less(cursor) && n > 0
    requires forall k :: k in records && !k.Less(cursor) ==> part.AtMost(k)
    ensures Commands(heap, records, cursor).Fill(n) ==
            Commands(heap + [records[part].id], records, part.Add(1)).Fill(n - 1)
  {
    var q := Commands(heap, records, cursor);
    assert q.Rest(Init) == {} && q.Rest(CommandLow) == {};
    assert part in q.Rest(Command);
    FirstIsUnique(q.Rest(Command), First(q.Rest(Command)), part);
    assert q.Rest(q.Pick()) != {};
  }

  lemma {:induction false} FillsOne(records: Records, cursor: PartialPacketId, part: PartialPacketId)
    requires part in records && !part.Less(cursor)
    requires forall k :: k in records && !k.Less(cursor) ==> part.AtMost(k)
    ensures Commands([], records, cursor).FillUp(1) == Commands([records[part].id], records, part.Add(1))
  {
    FillsNext([], records, cursor, part, 1);
  }

  lemma {:induction false} SubmitsFirst(p: OutUdpPacket, now: nat)
    requires p.Key().Full() + 1 < 0x1_0000_0000_0000
    ensures var rec := NewRecord(Command, p, now);
            Moves(Empty(), 0, 1, Submit(Command, p, now, 1),
                  Commands([rec.id], map[p.Key() := rec], p.Key().Add(1)), now)
  {
    var rec := NewRecord(Command, p, now);
    assert Empty().Insert(rec) == Commands([], map[p.Key() := rec], ZERO);
    FillsOne(map[p.Key() := rec], ZERO, p.Key());
  }

  lemma {:induction false} SubmitsMore(
      entry: SendRecordId, records: Records, cursor: PartialPacketId, p: OutUdpPacket, clock: nat, now: nat)
    requires p.Key().Full() + 1 < 0x1_0000_0000_0000 && !p.Key().Less(cursor) && clock <= now
    ensures Moves(Commands([entry], records, cursor), clock, 1, Submit(Command, p, now, 1),
                  Commands([entry], records[p.Key() := NewRecord(Command, p, now)], cursor), now)
  {
  }

  /** A due entry is sent. One that was sent before has the heap rebuilt. */
  lemma {:induction false} Sends(q: Queues, records: Records, cursor: PartialPacketId, entry: SendRecordId, now: nat)
    requires q == Commands([entry], records, cursor) && entry.id.kind == Command && entry.id.part in records
    requires entry.last <= now && now - records[entry.id.part].sent <= 100
    ensures var touched := SendRecordId(now, entry.tries + 1, entry.id);
            var records' := records[entry.id.part := records[entry.id.part].(id := touched)];
            var q' := Commands([touched], records', cursor);
            && q.IsTop(0) && q.Poll(0, Single(now)).sent == Some(records[entry.id.part].packet)
            && q.PollsTo(Single(now), q.Poll(0, Single(now)))
            && q.Poll(0, Single(now)).queues == if entry.tries == 0 then q' else Commands([], records', ZERO).FillUp(1)
  {
    assert Beats(q.heap, 0, 0);
    var touched := SendRecordId(now, entry.tries + 1, entry.id);
    var records' := records[entry.id.part := records[entry.id.part].(id := touched)];
    assert q.Touch(0, now) == Commands([touched], records', cursor);
  }

  /** An entry that was acknowledged makes room for the lowest record above the cursor. */
  lemma {:induction false} Pops(
      q: Queues, records: Records, cursor: PartialPacketId, entry: SendRecordId, part: PartialPacketId, now: nat)
    requires q == Commands([entry], records, cursor) && entry.id.kind == Command && entry.id.part !in records
    requires part in records && !part.Less(cursor)
    requires forall k :: k in records && !k.Less(cursor) ==> part.AtMost(k)
    ensures q.IsTop(0)
    ensures q.Poll(0, Single(now)) == Polled(Commands([records[part].id], records, part.Add(1)), Again, None)
  {
    assert Beats(q.heap, 0, 0) && q.IsTop(0);
    assert q.Pop(0) == Commands([], records, cursor);
    FillsOne(records, cursor, part);
  }

  // ----- The last id is overtaken

  /** The packets 65534, 65535 and 65536. The second is filed behind the third. */
  datatype Trio = Trio(a: OutUdpPacket, b: OutUdpPacket, c: OutUdpPacket) {
    ghost predicate Valid() {
      && a.Key() == PartialPacketId(0, 0xfffe)
      && b.Key() == PartialPacketId(1, 0xffff)
      && c.Key() == PartialPacketId(1, 0)
    }

    function Last(): PacketId {
      PacketId(Command, b.Key())
    }

    function RecordOf(p: OutUdpPacket, now: nat, tries: nat, last: nat): SendRecord {
      SendRecord(now, SendRecordId(last, tries, PacketId(Command, p.Key())), p)
    }

    /** The records of the second packet and of the third, which was sent `tries` times. */
    function Rest(tries: nat, last: nat): Records {
      map[b.Key() := RecordOf(b, 2, 0, 2), c.Key() := RecordOf(c, 3, tries, last)]
    }

    function All(tries: nat, last: nat): Records {
      Rest(0, 3)[a.Key() := RecordOf(a, 1, tries, last)]
    }

    /** The state before operation `k`: three submissions, the first packet is sent and acknowledged,
        the third enters the heap and is sent twice. */
    function Stage(k: nat): Queues {
      var cursor, over := PartialPacketId(0, 0xffff), PartialPacketId(1, 1);
      var unsent := RecordOf(a, 1, 0, 1);
      if k == 0 then Queues([], PerKind(map[], map[], map[]), PerKind(ZERO, ZERO, ZERO))
      else if k == 1 then Commands([unsent.id], map[a.Key() := unsent], cursor)
      else if k == 2 then Commands([unsent.id], map[a.Key() := unsent, b.Key() := RecordOf(b, 2, 0, 2)], cursor)
      else if k == 3 then Commands([unsent.id], All(0, 1), cursor)
      else if k == 4 then Commands([RecordOf(a, 1, 1, 4).id], All(1, 4), cursor)
      else if k == 5 then Commands([RecordOf(a, 1, 1, 4).id], Rest(0, 3), cursor)
      else if k == 6 then Commands([RecordOf(c, 3, 0, 3).id], Rest(0, 3), over)
      else if k == 7 then Commands([RecordOf(c, 3, 1, 6).id], Rest(1, 6), over)
      else Commands([RecordOf(c, 3, 2, 7).id], Rest(2, 7), over)
    }

    function Time(k: nat): nat {
      if k < 5 then k else k - 1
    }

    function Operation(k: nat): Op {
      if k == 0 then Submit(Command, a, 1, 1)
      else if k == 1 then Submit(Command, b, 2, 1)
      else if k == 2 then Submit(Command, c, 3, 1)
      else if k == 4 then Acked(Command, PartialPacketId(1, 1), 0xfffe)
      else Round(Single(Time(k + 1)))
    }
  }

  lemma {:induction false} SubmitStages(t: Trio, k: nat)
    requires t.Valid() && k < 3
    ensures Moves(t.Stage(k), t.Time(k), 1, t.Operation(k), t.Stage(k + 1), t.Time(k + 1))
  {
    var first := NewRecord(Command, t.a, 1);
    if k == 0 {
      SubmitsFirst(t.a, 1);
    } else if k == 1 {
      SubmitsMore(first.id, map[t.a.Key() := first], PartialPacketId(0, 0xffff), t.b, 1, 2);
    } else {
      var records := map[t.a.Key() := first, t.b.Key() := NewRecord(Command, t.b, 2)];
      SubmitsMore(first.id, records, PartialPacketId(0, 0xffff), t.c, 2, 3);
      assert records[t.c.Key() := NewRecord(Command, t.c, 3)] == t.All(0, 1);
    }
  }

  lemma {:induction false} SendStage(t: Trio)
    requires t.Valid()
    ensures Moves(t.Stage(3), t.Time(3), 1, t.Operation(3), t.Stage(4), t.Time(4))
  {
    Sends(t.Stage(3), t.All(0, 1), PartialPacketId(0, 0xffff), t.RecordOf(t.a, 1, 0, 1).id, 4);
    assert t.All(0, 1)[t.a.Key() := t.RecordOf(t.a, 1, 1, 4)] == t.All(1, 4);
  }

  lemma {:induction false} AckStage(t: Trio)
    requires t.Valid()
    ensures Moves(t.Stage(4), t.Time(4), 1, t.Operation(4), t.Stage(5), t.Time(5))
  {
    var keys := t.All(1, 4).Keys;
    assert keys == {t.a.Key(), t.b.Key(), t.c.Key()};
    FirstIsUnique(keys, First(keys), t.a.Key());
    assert Ack(keys, PartialPacketId(1, 1), 0xfffe).removed == {t.a.Key()};
    assert t.All(1, 4) - {t.a.Key()} == t.Rest(0, 3);
  }

  lemma {:induction false} PopStage(t: Trio)
    requires t.Valid()
    ensures Moves(t.Stage(5), t.Time(5), 1, t.Operation(5), t.Stage(6), t.Time(6))
  {
    Pops(t.Stage(5), t.Rest(0, 3), PartialPacketId(0, 0xffff), t.RecordOf(t.a, 1, 1, 4).id, t.c.Key(), 5);
    assert t.Stage(5).PollsTo(Single(5), t.Stage(5).Poll(0, Single(5)));
  }

  lemma {:induction false} OvertakeStages(t: Trio)
    requires t.Valid()
    ensures Moves(t.Stage(6), t.Time(6), 1, t.Operation(6), t.Stage(7), t.Time(7))
    ensures Moves(t.Stage(7), t.Time(7), 1, t.Operation(7), t.Stage(8), t.Time(8))
    ensures t.Stage(6).IsTop(0) && t.Stage(6).Poll(0, Single(6)).sent == Some(t.c)
  {
    var over := PartialPacketId(1, 1);
    Sends(t.Stage(6), t.Rest(0, 3), over, t.RecordOf(t.c, 3, 0, 3).id, 6);
    assert t.Rest(0, 3)[t.c.Key() := t.RecordOf(t.c, 3, 1, 6)] == t.Rest(1, 6);
    Sends(t.Stage(7), t.Rest(1, 6), over, t.RecordOf(t.c, 3, 1, 6).id, 7);
    assert t.Rest(1, 6)[t.c.Key() := t.RecordOf(t.c, 3, 2, 7)] == t.Rest(2, 7);
    FillsOne(t.Rest(2, 7), ZERO, t.c.Key());
  }

  /** The stages are a run with a window of one packet. */
  lemma {:induction false} TrioRuns(t: Trio, states: seq<Queues>, times: seq<nat>, ops: seq<Op>)
    requires t.Valid() && |states| == |times| == 9 && |ops| == 8
    requires forall k :: 0 <= k < 9 ==> states[k] == t.Stage(k) && times[k] == t.Time(k)
    requires forall k :: 0 <= k < 8 ==> ops[k] == t.Operation(k)
    ensures Run(states, times, ops, 1)
  {
    forall j, k | 0 <= j < k < |ops|
      ensures InSequence(ops, j, k)
    {
      NumberInjective(t.a.Key(), t.b.Key());
    }
    forall k | 0 <= k < |ops|
      ensures Moves(states[k], times[k], 1, ops[k], states[k + 1], times[k + 1])
    {
      if k < 3 {
        SubmitStages(t, k);
      } else {
        SendStage(t);
        AckStage(t);
        PopStage(t);
        OvertakeStages(t);
      }
    }
  }

  /** A packet is sent before one with a lower number: after the acknowledgement of packet 65534 the
      resender sends packet 65536, and packet 65535 was never sent. */
  lemma {:induction false} LastIdIsOvertaken(t: Trio) returns (states: seq<Queues>, times: seq<nat>, ops: seq<Op>)
    requires t.Valid()
    ensures Run(states, times, ops, 1) && |states| == 9 && |ops| == 8
    ensures forall k :: 0 <= k < 9 ==> states[k] == t.Stage(k)
    ensures ops[6].Round? && ops[7].Round?
    ensures var q := states[6];
            && q.IsTop(0) && q.heap[0].tries == 0 && q.Poll(0, Single(6)).sent == Some(t.c)
            && Unsent(q, t.Last()) && NumberOf(t.Last().part) < NumberOf(t.c.Key())
            && !EarlierSent(q, q.heap[0].id)
  {
    states, times := seq(9, k requires 0 <= k < 9 => t.Stage(k)), seq(9, k requires 0 <= k < 9 => t.Time(k));
    ops := seq(8, k requires 0 <= k < 8 => t.Operation(k));
    TrioRuns(t, states, times, ops);
    OvertakeStages(t);
  }

  // ----- The last id starves

  lemma {:induction false} LastIsOut(t: Trio, k: nat, q: Queues)
    requires t.Valid() && 6 <= k <= 8 && q == t.Stage(k)
    ensures q.Owned() && Unsent(q, t.Last()) && !q.InHeap(t.Last())
    ensures LiveBelow(q, Command, t.b.Key()) == {t.c.Key()}
    ensures forall id :: q.Live(id) ==> id.kind == Command && NumberOf(t.b.Key()) <= NumberOf(id.part)
  {
    NumberInjective(t.b.Key(), t.c.Key());
    assert q.full.command.Keys == {t.b.Key(), t.c.Key()};
    assert PartialPacketId(1, 0).Less(PartialPacketId(1, 0xffff));
  }

  /** A record that starves: packet 65535 has the lowest number of all that wait and was never sent. It
      is not in the heap, nor in a rebuilt one, while packet 65536 is sent again and again. It stays
      outside as long as no acknowledgement arrives and the window does not grow. */
  lemma {:induction false} LastIdStarves(t: Trio, states: seq<Queues>, times: seq<nat>, ops: seq<Op>, end: nat)
    requires t.Valid() && Run(states, times, ops, 1) && 6 <= end < |states| && states[6] == t.Stage(6)
    requires forall k :: 6 <= k < end ==> ops[k].Round?
    ensures !states[end].InHeap(t.Last())
    ensures !states[6].Rebuild(1).InHeap(t.Last())
    ensures forall id :: states[6].Live(id) ==> NumberOf(t.Last().part) <= NumberOf(id.part)
  {
    LastIsOut(t, 6, states[6]);
    OldestIsQueuedExactly(states[6], 1, t.Last(), states[6].Rebuild(1));
    forall k | 6 <= k < end
      ensures OnlyCrowds(states, ops, 6, k, t.Last())
    {
      assert Moves(states[k], times[k], 1, ops[k], states[k + 1], times[k + 1]);
    }
    StarvesUntilAcked(states, times, ops, 1, 6, end, t.Last());
  }

  /** There is such a run, in which packet 65536 is sent twice. */
  lemma {:induction false} StarvingRun(t: Trio) returns (states: seq<Queues>, times: seq<nat>, ops: seq<Op>)
    requires t.Valid()
    ensures Run(states, times, ops, 1) && |states| == 9 && states[6] == t.Stage(6)
    ensures ops[6].Round? && ops[7].Round? && |states[8].heap| == 1 && states[8].heap[0].tries == 2
    ensures forall k :: 6 <= k <= 8 ==> Unsent(states[k], t.Last()) && !states[k].InHeap(t.Last())
  {
    states, times, ops := LastIdIsOvertaken(t);
    forall k | 6 <= k <= 8
      ensures Unsent(states[k], t.Last()) && !states[k].InHeap(t.Last())
    {
      LastIsOut(t, k, states[k]);
    }
  }

  // ----- The last id is queued twice

  lemma {:induction false} FirstOfTwo(t: Trio, b: SendRecord, q: Queues)
    requires t.Valid() && b == NewRecord(Command, t.b, 1)
    requires q == Commands([b.id], map[t.b.Key() := b], PartialPacketId(2, 0))
    ensures Moves(Empty(), 0, 3, Submit(Command, t.b, 1, 3), q, 1)
  {
    var records := map[t.b.Key() := b];
    assert Empty().Insert(b) == Commands([], records, ZERO);
    FillsNext([], records, ZERO, t.b.Key(), 3);
    assert t.b.Key().Add(1) == PartialPacketId(2, 0);
    assert q.Rest(Command) == {} && q.NothingLeft();
  }

  lemma {:induction false} SecondOfTwo(t: Trio, b: SendRecord, c: SendRecord, q: Queues, q': Queues)
    requires t.Valid() && b == NewRecord(Command, t.b, 1) && c == NewRecord(Command, t.c, 2)
    requires q == Commands([b.id], map[t.b.Key() := b], PartialPacketId(2, 0))
    requires q' == Commands([b.id, c.id, b.id], map[t.b.Key() := b, t.c.Key() := c], PartialPacketId(2, 0))
    ensures Moves(q, 1, 3, Submit(Command, t.c, 2, 3), q', 2)
  {
    var both := map[t.b.Key() := b, t.c.Key() := c];
    assert q.Insert(c) == Commands([b.id], both, t.c.Key());
    FillsNext([b.id], both, t.c.Key(), t.c.Key(), 2);
    assert t.c.Key().Add(1) == PartialPacketId(1, 1) && t.b.Key().Add(1) == PartialPacketId(2, 0);
    FillsNext([b.id, c.id], both, PartialPacketId(1, 1), t.b.Key(), 1);
    assert [b.id] + [c.id] == [b.id, c.id] && [b.id, c.id] + [b.id] == [b.id, c.id, b.id];
  }

  /** Packet 65536 is submitted while packet 65535 waits in the heap, and the window has room for
      three: the cursor is lowered, and packet 65535 enters the heap again. */
  lemma {:induction false} LastIdIsQueuedTwice(t: Trio) returns (states: seq<Queues>, times: seq<nat>, ops: seq<Op>)
    requires t.Valid()
    ensures Run(states, times, ops, 3) && |states| == 3 && |states[2].heap| == 3
    ensures states[2].heap[0].id == states[2].heap[2].id == t.Last()
  {
    var b, c := NewRecord(Command, t.b, 1), NewRecord(Command, t.c, 2);
    var q1 := Commands([b.id], map[t.b.Key() := b], PartialPacketId(2, 0));
    var q2 := Commands([b.id, c.id, b.id], map[t.b.Key() := b, t.c.Key() := c], PartialPacketId(2, 0));
    FirstOfTwo(t, b, q1);
    SecondOfTwo(t, b, c, q1, q2);
    states, times := [Empty(), q1, q2], [0, 1, 2];
    ops := [Submit(Command, t.b, 1, 3), Submit(Command, t.c, 2, 3)];
    assert InSequence(ops, 0, 1);
  }
}

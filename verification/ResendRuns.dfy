/** Whole runs of the resender: what is in the heap, what polling achieves, and what the last id of a
    generation does to the order. */
module ResendRuns {
  import opened PacketIds
  import opened Wrappers
  import opened Numbering
  import opened Resend
  import Protocol

  // ----- What every run keeps

  /** Nothing is live while the heap is empty, so polling an empty heap never starves a record. */
  ghost predicate NoneStarved(q: Queues) {
    q.heap == [] ==> forall id :: !q.Live(id)
  }

  ghost predicate Dated(q: Queues, clock: nat, id: PacketId) {
    q.Live(id) ==>
      var rec := q.Record(id);
      rec.sent <= clock && (rec.id.tries == 0 ==> rec.id.last == rec.sent)
  }

  /** Records of a type are as old as their packet numbers. The type of `Init` hands out no numbers. */
  ghost predicate SameAge(q: Queues, a: PacketId, b: PacketId) {
    q.Live(a) && q.Live(b) && a.kind == b.kind != Init && NumberOf(a.part) < NumberOf(b.part) ==>
      q.Record(a).sent <= q.Record(b).sent
  }

  ghost predicate Timely(q: Queues, clock: nat) {
    (forall id :: Dated(q, clock, id)) && (forall a, b :: SameAge(q, a, b))
  }

  /** An entry is below its cursor, or it is that of the last id filed under the generation of the
      cursor. An entry not sent yet is as old as its record. */
  ghost predicate InPlace(q: Queues, i: nat)
    requires i < |q.heap|
  {
    var id := q.heap[i].id;
    id.kind != Init ==>
      && (q.Passed(id) || (id.part.packet == 0xffff && id.part.generation == q.cursor.Get(id.kind).generation))
      && (q.Live(id) && q.heap[i].tries == 0 ==> q.heap[i].last == q.Record(id).sent)
  }

  ghost predicate Placed(q: Queues) {
    forall i :: 0 <= i < |q.heap| ==> InPlace(q, i)
  }

  ghost predicate RunInv(q: Queues, clock: nat, maxWindow: nat) {
    q.Sound() && NoneStarved(q) && Timely(q, clock) && Placed(q) && |q.heap| <= maxWindow
  }

  datatype Op =
    | Submit(kind: Kind, packet: OutUdpPacket, now: nat, window: nat)
    | Acked(kind: Kind, out: PartialPacketId, id: u16)
    | Round(env: Env)

  ghost predicate NumberedBelow(q: Queues, i: nat, id: PacketId)
    requires i < |q.heap|
  {
    q.heap[i].id.kind == id.kind ==> NumberOf(q.heap[i].id.part) < NumberOf(id.part)
  }

  /** The packet is numbered above all of its type that the resender knows of. */
  ghost predicate Latest(q: Queues, id: PacketId) {
    && (forall other: PacketId :: q.Live(other) && other.kind == id.kind ==> NumberOf(other.part) < NumberOf(id.part))
    && (forall i :: 0 <= i < |q.heap| ==> NumberedBelow(q, i, id))
  }

  /** One step; the clock goes forward. */
  ghost predicate Moves(q: Queues, clock: nat, maxWindow: nat, op: Op, q': Queues, clock': nat) {
    match op
    case Submit(kind, packet, now, window) =>
      && clock <= now == clock' && 1 <= window <= maxWindow
      && packet.Key().Full() + 1 < 0x1_0000_0000_0000
      && q' == q.Send(kind, packet, now, window)
    case Acked(kind, out, id) =>
      clock == clock' && q' == q.Remove(kind, Ack(q.full.Get(kind).Keys, out, id).removed)
    case Round(env) =>
      clock <= env.now == clock' && 1 <= env.window <= maxWindow && exists r :: q.PollsTo(env, r) && q' == r.queues
  }

  function Submitted(op: Op): PacketId
    requires op.Submit?
  {
    PacketId(op.kind, op.packet.Key())
  }

  // ----- Submitting

  lemma {:induction false} InsertKeepsTimely(q: Queues, clock: nat, rec: SendRecord, q': Queues)
    requires Timely(q, clock) && clock <= rec.sent == rec.id.last && q' == q.Insert(rec)
    requires rec.id.id.kind != Init ==> Latest(q, rec.id.id)
    ensures Timely(q', rec.sent)
  {
    InsertPassed(q, rec, q');
    forall id
      ensures Dated(q', rec.sent, id)
    {
      assert Dated(q, clock, id);
    }
    forall a, b
      ensures SameAge(q', a, b)
    {
      assert SameAge(q, a, b) && Dated(q, clock, a);
    }
  }

  /** A later number under a lower key is only possible for the last id of a generation. */
  lemma {:induction false} LaterButLower(a: PartialPacketId, b: PartialPacketId)
    requires NumberOf(a) < NumberOf(b) && !a.Less(b)
    ensures a.packet == 0xffff && b.packet != 0xffff && a.generation == b.generation
  {
  }

  lemma {:induction false} InsertKeepsPlaced(q: Queues, rec: SendRecord, q': Queues)
    requires Placed(q) && q' == q.Insert(rec)
    requires rec.id.id.kind != Init ==> Latest(q, rec.id.id)
    ensures Placed(q')
  {
    InsertPassed(q, rec, q');
    var added := rec.id.id;
    forall i | 0 <= i < |q'.heap|
      ensures InPlace(q', i)
    {
      var id := q.heap[i].id;
      assert InPlace(q, i);
      if id.kind == added.kind != Init {
        assert NumberedBelow(q, i, added);
        if !id.part.Less(added.part) {
          LaterButLower(id.part, added.part);
        }
      }
    }
  }

  lemma {:induction false} PushKeepsPlaced(q: Queues, clock: nat, kind: Kind, q': Queues)
    requires q.Owned() && Placed(q) && Timely(q, clock) && q.Rest(kind) != {} && q' == q.Push(kind)
    ensures Placed(q')
  {
    var id := PacketId(kind, First(q.Rest(kind)));
    PushPasses(q, kind, q', id);
    assert q.Owns(id) && Dated(q, clock, id);
    AddExact(id.part, 1);
    OrderIsNumeric(id.part, q.cursor.Get(kind));
    forall i | 0 <= i < |q'.heap|
      ensures InPlace(q', i)
    {
      assert i < |q.heap| ==> InPlace(q, i);
    }
  }

  lemma {:induction false} FillKeepsPlaced(q: Queues, clock: nat, n: nat)
    requires q.Owned() && Placed(q) && Timely(q, clock)
    ensures Placed(q.Fill(n))
    decreases n
  {
    if n > 0 && !q.NothingLeft() {
      var kind := q.Pick();
      var q' := q.Push(kind);
      PushPasses(q, kind, q', PacketId(kind, First(q.Rest(kind))));
      PushKeepsPlaced(q, clock, kind, q');
      SameRecordsTimely(q, clock, q', clock);
      FillKeepsPlaced(q', clock, n - 1);
    }
  }

  lemma {:induction false} SameRecordsTimely(q: Queues, clock: nat, q': Queues, clock': nat)
    requires Timely(q, clock) && clock <= clock'
    requires forall id: PacketId :: q'.Live(id) ==> q.Live(id) && q'.Record(id) == q.Record(id)
    ensures Timely(q', clock')
  {
    forall id
      ensures Dated(q', clock', id)
    {
      assert Dated(q, clock, id);
    }
    forall a, b
      ensures SameAge(q', a, b)
    {
      assert SameAge(q, a, b);
    }
  }

  /** What filling up does for the invariant. */
  lemma {:induction false} FillUpKeepsInv(q: Queues, clock: nat, maxWindow: nat, window: nat, q': Queues)
    requires q.Sound() && Timely(q, clock) && Placed(q) && |q.heap| <= maxWindow
    requires 1 <= window <= maxWindow && q' == q.FillUp(window)
    ensures RunInv(q', clock, maxWindow)
  {
    FillUpReachesWindow(q, window);
    SameRecordsTimely(q, clock, q', clock);
    if |q.heap| < window {
      FillKeepsPlaced(q, clock, window - |q.heap|);
    }
    if q'.heap == [] {
      forall id
        ensures !q'.Live(id)
      {
        assert q'.Live(id) ==> q'.Entered(id);
      }
    }
  }

  lemma {:induction false} SubmitKeepsInv(q: Queues, clock: nat, maxWindow: nat, op: Op, q': Queues, clock': nat)
    requires op.Submit? && RunInv(q, clock, maxWindow) && Moves(q, clock, maxWindow, op, q', clock')
    requires op.kind != Init ==> Latest(q, Submitted(op))
    ensures RunInv(q', clock', maxWindow)
  {
    var rec := NewRecord(op.kind, op.packet, op.now);
    var mid := q.Insert(rec);
    InsertKeepsSound(q, rec, mid);
    InsertKeepsTimely(q, clock, rec, mid);
    InsertKeepsPlaced(q, rec, mid);
    FillUpKeepsInv(mid, clock', maxWindow, op.window, q');
  }

  // ----- Acknowledging

  lemma {:induction false} RemoveKeepsPlaced(q: Queues, kind: Kind, parts: set<PartialPacketId>, q': Queues)
    requires Placed(q) && q' == q.Remove(kind, parts)
    ensures Placed(q')
    ensures forall id: PacketId :: q'.Live(id) ==> q.Live(id) && q'.Record(id) == q.Record(id)
  {
    forall i | 0 <= i < |q'.heap|
      ensures InPlace(q', i)
    {
      assert InPlace(q, i);
    }
  }

  lemma {:induction false} AckedKeepsInv(q: Queues, clock: nat, maxWindow: nat, op: Op, q': Queues, clock': nat)
    requires op.Acked? && RunInv(q, clock, maxWindow) && Moves(q, clock, maxWindow, op, q', clock')
    ensures RunInv(q', clock', maxWindow)
  {
    var parts := Ack(q.full.Get(op.kind).Keys, op.out, op.id).removed;
    RemoveKeepsSound(q, op.kind, parts, q');
    RemoveKeepsPlaced(q, op.kind, parts, q');
    SameRecordsTimely(q, clock, q', clock');
  }

  // ----- Polling

  lemma {:induction false} PopKeepsPlaced(q: Queues, i: nat, q': Queues)
    requires Placed(q) && i < |q.heap| && q' == q.Pop(i)
    ensures Placed(q')
  {
    forall j | 0 <= j < |q'.heap|
      ensures InPlace(q', j)
    {
      assert InPlace(q, if j < i then j else j + 1);
    }
  }

  lemma {:induction false} TouchKeeps(q: Queues, clock: nat, i: nat, now: nat, q': Queues)
    requires Timely(q, clock) && Placed(q) && clock <= now
    requires i < |q.heap| && q.Live(q.heap[i].id) && q' == q.Touch(i, now)
    ensures Timely(q', now) && Placed(q')
  {
    var id := q.heap[i].id;
    forall other: PacketId
      ensures q'.Live(other) == q.Live(other)
      ensures q.Live(other) ==> q'.Record(other).sent == q.Record(other).sent
      ensures q.Live(other) && other != id ==> q'.Record(other) == q.Record(other)
    {
    }
    forall other
      ensures Dated(q', now, other)
    {
      assert Dated(q, clock, other);
    }
    forall a, b
      ensures SameAge(q', a, b)
    {
      assert SameAge(q, a, b);
    }
    forall j | 0 <= j < |q'.heap|
      ensures InPlace(q', j)
    {
      assert InPlace(q, j);
    }
  }

  lemma {:induction false} RoundKeepsInv(q: Queues, clock: nat, maxWindow: nat, i: nat, env: Env, q': Queues)
    requires RunInv(q, clock, maxWindow) && clock <= env.now && 1 <= env.window <= maxWindow
    requires i < |q.heap| && q' == q.Poll(i, env).queues
    ensures RunInv(q', env.now, maxWindow)
  {
    SameRecordsTimely(q, clock, q, env.now);
    if !q.Live(q.heap[i].id) {
      var popped := q.Pop(i);
      PopKeepsSound(q, i, popped);
      PopKeepsPlaced(q, i, popped);
      SameRecordsTimely(q, env.now, popped, env.now);
      FillUpKeepsInv(popped, env.now, maxWindow, env.window, q');
    } else if q' != q {
      ResendKeepsInv(q, clock, maxWindow, i, env, q.Touch(i, env.now), q');
    }
  }

  lemma {:induction false} ResendKeepsInv(
    q: Queues, clock: nat, maxWindow: nat, i: nat, env: Env, touched: Queues, q': Queues)
    requires RunInv(q, clock, maxWindow) && clock <= env.now && 1 <= env.window <= maxWindow
    requires i < |q.heap| && q.Live(q.heap[i].id) && touched == q.Touch(i, env.now)
    requires q' == touched || q' == touched.Rebuild(env.window)
    ensures RunInv(q', env.now, maxWindow)
  {
    TouchKeepsSound(q, i, env.now, touched);
    TouchKeeps(q, clock, i, env.now, touched);
    if q' != touched {
      ClearedIsValid(touched);
      SameRecordsTimely(touched, env.now, Cleared(touched), env.now);
      FillUpKeepsInv(Cleared(touched), env.now, maxWindow, env.window, q');
    }
  }

  lemma {:induction false} MoveKeepsInv(q: Queues, clock: nat, maxWindow: nat, op: Op, q': Queues, clock': nat)
    requires RunInv(q, clock, maxWindow) && Moves(q, clock, maxWindow, op, q', clock')
    requires op.Submit? && op.kind != Init ==> Latest(q, Submitted(op))
    ensures RunInv(q', clock', maxWindow) && clock <= clock'
  {
    match op
    case Submit(_, _, _, _) => SubmitKeepsInv(q, clock, maxWindow, op, q', clock');
    case Acked(_, _, _) => AckedKeepsInv(q, clock, maxWindow, op, q', clock');
    case Round(env) =>
      SameRecordsTimely(q, clock, q, env.now);
      var r :| q.PollsTo(env, r) && q' == r.queues;
      if q.heap != [] {
        var i: nat :| q.IsTop(i) && r == q.Poll(i, env);
        RoundKeepsInv(q, clock, maxWindow, i, env, q');
      }
  }

  // ----- Where the ids come from

  /** The resender has a record or an entry of the id. */
  ghost predicate Known(q: Queues, id: PacketId) {
    q.Live(id) || q.InHeap(id)
  }

  lemma {:induction false} FillKnows(q: Queues, n: nat, id: PacketId)
    requires q.Owned() && Known(q.Fill(n), id)
    ensures Known(q, id)
    decreases n
  {
    if n > 0 && !q.NothingLeft() {
      var kind := q.Pick();
      var q' := q.Push(kind);
      var pushed := PacketId(kind, First(q.Rest(kind)));
      PushPasses(q, kind, q', pushed);
      assert q.Owns(pushed);
      FillKnows(q', n - 1, id);
      if !q.Live(id) {
        var i :| 0 <= i < |q'.heap| && q'.heap[i].id == id;
        assert i < |q.heap| ==> q.heap[i].id == id;
      }
    }
  }

  lemma {:induction false} FillUpKnows(q: Queues, window: nat, id: PacketId)
    requires q.Owned() && Known(q.FillUp(window), id)
    ensures Known(q, id)
  {
    if |q.heap| < window {
      FillKnows(q, window - |q.heap|, id);
    }
  }

  lemma {:induction false} PollKnows(q: Queues, i: nat, env: Env, id: PacketId)
    requires q.Owned() && i < |q.heap| && Known(q.Poll(i, env).queues, id)
    ensures Known(q, id)
  {
    if !q.Live(q.heap[i].id) {
      var popped := q.Pop(i);
      SameRecordsOwned(q, popped);
      FillUpKnows(popped, env.window, id);
      if !q.Live(id) {
        var j :| 0 <= j < |popped.heap| && popped.heap[j].id == id;
        assert q.heap[if j < i then j else j + 1].id == id;
      }
    } else {
      var touched := q.Touch(i, env.now);
      TouchKeepsOwned(q, i, env.now, touched);
      if q.Poll(i, env).queues == touched.Rebuild(env.window) {
        ClearedIsValid(touched);
        FillUpKnows(Cleared(touched), env.window, id);
        assert touched.Live(id);
      } else if !q.Live(id) {
        var j :| 0 <= j < |q.Poll(i, env).queues.heap| && q.Poll(i, env).queues.heap[j].id == id;
        assert q.heap[j].id == id;
      }
    }
  }

  /** Only a submission makes an id known. */
  lemma {:induction false} MoveKnows(
    q: Queues, clock: nat, maxWindow: nat, op: Op, q': Queues, clock': nat, id: PacketId)
    requires q.Sound() && Moves(q, clock, maxWindow, op, q', clock') && Known(q', id)
    ensures Known(q, id) || (op.Submit? && Submitted(op) == id)
  {
    match op
    case Submit(kind, packet, now, window) =>
      var rec := NewRecord(kind, packet, now);
      InsertKeepsSound(q, rec, q.Insert(rec));
      InsertPassed(q, rec, q.Insert(rec));
      FillUpKnows(q.Insert(rec), window, id);
    case Acked(kind, out, ack) =>
    case Round(env) =>
      var r :| q.PollsTo(env, r) && q' == r.queues;
      if q.heap != [] {
        var i: nat :| q.IsTop(i) && r == q.Poll(i, env);
        PollKnows(q, i, env, id);
      }
  }

  // ----- Whole runs

  ghost function Empty(): Queues {
    var zero := PartialPacketId(0, 0);
    Queues([], PerKind(map[], map[], map[]), PerKind(zero, zero, zero))
  }

  /** Two submissions of a type other than `Init` are numbered in increasing order. */
  ghost predicate InSequence(ops: seq<Op>, j: nat, k: nat)
    requires j < |ops| && k < |ops|
  {
    ops[j].Submit? && ops[k].Submit? && ops[j].kind == ops[k].kind != Init ==>
      NumberOf(Submitted(ops[j]).part) < NumberOf(Submitted(ops[k]).part)
  }

  /** A run from empty queues: `times` are the clock readings of the states. */
  ghost predicate Run(states: seq<Queues>, times: seq<nat>, ops: seq<Op>, maxWindow: nat) {
    && |states| == |times| == |ops| + 1
    && states[0] == Empty()
    && (forall j, k :: 0 <= j < k < |ops| ==> InSequence(ops, j, k))
    && forall k :: 0 <= k < |ops| ==> Moves(states[k], times[k], maxWindow, ops[k], states[k + 1], times[k + 1])
  }

  /** One of the first `k` operations submitted the id. */
  ghost predicate WasSubmitted(ops: seq<Op>, k: nat, id: PacketId)
    requires k <= |ops|
  {
    exists j :: 0 <= j < k && ops[j].Submit? && Submitted(ops[j]) == id
  }

  ghost predicate Traced(ops: seq<Op>, k: nat, q: Queues)
    requires k <= |ops|
  {
    forall id :: Known(q, id) ==> WasSubmitted(ops, k, id)
  }

  lemma {:induction false} TracedMeansLatest(ops: seq<Op>, k: nat, q: Queues)
    requires k < |ops| && Traced(ops, k, q) && ops[k].Submit? && ops[k].kind != Init
    requires forall j :: 0 <= j < k ==> InSequence(ops, j, k)
    ensures Latest(q, Submitted(ops[k]))
  {
    var id := Submitted(ops[k]);
    forall other | Known(q, other) && other.kind == id.kind
      ensures NumberOf(other.part) < NumberOf(id.part)
    {
      assert WasSubmitted(ops, k, other);
      var j :| 0 <= j < k && ops[j].Submit? && Submitted(ops[j]) == other;
      assert InSequence(ops, j, k);
    }
    forall i | 0 <= i < |q.heap|
      ensures NumberedBelow(q, i, id)
    {
      assert q.InHeap(q.heap[i].id) && Known(q, q.heap[i].id);
    }
  }

  lemma {:induction false} MoveKeepsTraced(
    q: Queues, clock: nat, maxWindow: nat, ops: seq<Op>, k: nat, q': Queues, clock': nat)
    requires k < |ops| && q.Sound() && Traced(ops, k, q) && Moves(q, clock, maxWindow, ops[k], q', clock')
    ensures Traced(ops, k + 1, q')
  {
    forall id | Known(q', id)
      ensures WasSubmitted(ops, k + 1, id)
    {
      MoveKnows(q, clock, maxWindow, ops[k], q', clock', id);
      assert Known(q, id) ==> WasSubmitted(ops, k, id);
    }
  }

  /** In every state of every run, wraps of the ids included, each live record below the cursor of
      its type is in the heap, nothing is live when the heap is empty, and what the resender knows
      was submitted. */
  lemma {:induction false} RunKeepsInv(
    states: seq<Queues>, times: seq<nat>, ops: seq<Op>, maxWindow: nat, k: nat)
    requires Run(states, times, ops, maxWindow) && k < |states|
    ensures RunInv(states[k], times[k], maxWindow) && Traced(ops, k, states[k])
    decreases k
  {
    if k > 0 {
      RunKeepsInv(states, times, ops, maxWindow, k - 1);
      if ops[k - 1].Submit? && ops[k - 1].kind != Init {
        TracedMeansLatest(ops, k - 1, states[k - 1]);
      }
      MoveKeepsInv(states[k - 1], times[k - 1], maxWindow, ops[k - 1], states[k], times[k]);
      MoveKeepsTraced(states[k - 1], times[k - 1], maxWindow, ops, k - 1, states[k], times[k]);
    }
  }

  /** Every submission has the highest key of its type. */
  ghost predicate Orderly(states: seq<Queues>, ops: seq<Op>)
    requires |states| == |ops| + 1
  {
    forall k :: 0 <= k < |ops| ==> SubmitsAbove(states[k], ops[k])
  }

  ghost predicate SubmitsAbove(q: Queues, op: Op) {
    op.Submit? ==> AboveHeap(q, Submitted(op))
  }

  lemma {:induction false} MoveKeepsValid(q: Queues, clock: nat, maxWindow: nat, op: Op, q': Queues, clock': nat)
    requires q.Valid() && Moves(q, clock, maxWindow, op, q', clock') && SubmitsAbove(q, op)
    ensures q'.Valid()
  {
    match op
    case Submit(kind, packet, now, window) =>
      var rec := NewRecord(kind, packet, now);
      InsertKeepsValidExactly(q, rec, q.Insert(rec));
      FillUpKeepsValid(q.Insert(rec), window);
    case Acked(kind, out, id) => RemoveKeepsValid(q, kind, Ack(q.full.Get(kind).Keys, out, id).removed, q');
    case Round(env) =>
      var r :| q.PollsTo(env, r) && q' == r.queues;
      if q.heap != [] {
        var i: nat :| q.IsTop(i) && r == q.Poll(i, env);
        PollKeepsValid(q, i, env);
      }
  }

  /** In a run whose submissions each have the highest key, the heap holds each live record below
      the cursors once, and nothing above them. */
  lemma {:induction false} OrderlyRunKeepsValid(
    states: seq<Queues>, times: seq<nat>, ops: seq<Op>, maxWindow: nat, k: nat)
    requires Run(states, times, ops, maxWindow) && Orderly(states, ops) && k < |states|
    ensures states[k].Valid()
    decreases k
  {
    if k > 0 {
      OrderlyRunKeepsValid(states, times, ops, maxWindow, k - 1);
      assert SubmitsAbove(states[k - 1], ops[k - 1]);
      MoveKeepsValid(states[k - 1], times[k - 1], maxWindow, ops[k - 1], states[k], times[k]);
    }
  }

  // ----- What polling achieves

  /** When polling stops because the top is not due, no entry of the heap is unsent or overdue,
      nor is any live record below the cursors. */
  lemma {:induction false} StopMeansNothingDue(q: Queues, env: Env, r: Polled)
    requires q.Sound() && q.PollsTo(env, r) && r.verdict == NotDue
    ensures forall i :: 0 <= i < |q.heap| ==> !q.Due(i, env.threshold)
    ensures forall id :: q.Live(id) && q.Passed(id) ==>
                           q.Record(id).id.tries > 0 && q.Record(id).id.last > env.threshold
  {
    var top: nat :| q.IsTop(top) && r == q.Poll(top, env);
    forall i | 0 <= i < |q.heap|
      ensures !q.Due(i, env.threshold)
    {
      assert Beats(q.heap, top, i);
    }
    forall id | q.Live(id) && q.Passed(id)
      ensures q.Record(id).id.tries > 0 && q.Record(id).id.last > env.threshold
    {
      assert q.Entered(id);
      var i :| 0 <= i < |q.heap| && q.heap[i] == q.Record(id).id;
      assert !q.Due(i, env.threshold);
    }
  }

  /** An empty heap means that everything was acknowledged. */
  lemma {:induction false} IdleMeansAllAcknowledged(
    states: seq<Queues>, times: seq<nat>, ops: seq<Op>, maxWindow: nat, k: nat, env: Env, r: Polled)
    requires Run(states, times, ops, maxWindow) && k < |states| && states[k].PollsTo(env, r)
    ensures r.verdict == Idle <==> forall id :: !states[k].Live(id) && !states[k].InHeap(id)
  {
    RunKeepsInv(states, times, ops, maxWindow, k);
    if states[k].heap != [] {
      var i: nat :| states[k].IsTop(i) && r == states[k].Poll(i, env);
      assert states[k].InHeap(states[k].heap[i].id);
    }
  }

  /** The records numbered below an entry of the heap are below the cursor, except that of the last
      id filed under the same generation. */
  lemma {:induction false} LowerIsPassed(q: Queues, i: nat, id: PacketId)
    requires i < |q.heap| && InPlace(q, i) && id.kind == q.heap[i].id.kind != Init
    requires NumberOf(id.part) < NumberOf(q.heap[i].id.part)
    ensures q.Passed(id) || (id.part.packet == 0xffff && id.part.generation == q.heap[i].id.part.generation)
    ensures id.part.packet != 0xffff ==> q.Passed(id)
  {
    var top := q.heap[i].id;
    OrderIsNumeric(id.part, q.cursor.Get(id.kind));
    OrderIsNumeric(top.part, q.cursor.Get(id.kind));
    if !id.part.Less(top.part) {
      LaterButLower(id.part, top.part);
    }
  }

  ghost predicate Unsent(q: Queues, id: PacketId) {
    q.Live(id) && q.Record(id).id.tries == 0
  }

  /** The last id filed under the generation of a key. Its number is the one before that generation. */
  function LastOf(id: PacketId): PacketId {
    PacketId(id.kind, PartialPacketId(id.part.generation, 0xffff))
  }

  /** Packets of a type are first sent in the order of their numbers; only the last id filed under the
      generation of the packet sent may be overtaken. */
  lemma {:induction false} FirstSendsInOrder(q: Queues, clock: nat, i: nat, env: Env, id: PacketId)
    requires q.Sound() && Timely(q, clock) && Placed(q) && q.IsTop(i) && q.heap[i].tries == 0
    requires q.Poll(i, env).sent.Some? && id.kind == q.heap[i].id.kind != Init
    requires NumberOf(id.part) < NumberOf(q.heap[i].id.part) && id != LastOf(q.heap[i].id)
    ensures !Unsent(q, id)
  {
    if Unsent(q, id) {
      var top := q.heap[i].id;
      assert InPlace(q, i);
      LowerIsPassed(q, i, id);
      assert q.Entered(id);
      var j :| 0 <= j < |q.heap| && q.heap[j] == q.Record(id).id;
      assert Beats(q.heap, i, j) && Dated(q, clock, id) && SameAge(q, id, top) && q.Owns(id);
      LowerNumberIsBelow(id.part, top.part);
    }
  }

  lemma {:induction false} LowerNumberIsBelow(a: PartialPacketId, b: PartialPacketId)
    requires NumberOf(a) < NumberOf(b) && a != PartialPacketId(b.generation, 0xffff)
    ensures a.Less(b) && !b.AtMost(a)
  {
    if !a.Less(b) {
      LaterButLower(a, b);
    }
    OrderIsNumeric(a, b);
    OrderIsNumeric(b, a);
  }

  /** Every packet of the type that is numbered below was sent or is acknowledged. */
  ghost predicate EarlierSent(q: Queues, top: PacketId) {
    forall id: PacketId :: id.kind == top.kind && NumberOf(id.part) < NumberOf(top.part) ==> !Unsent(q, id)
  }

  /** When polling sends a packet for the first time, all packets numbered below it were sent before if
      and only if the last id filed under its generation does not wait unsent, or is itself that packet. */
  lemma {:induction false} FirstSendsInOrderExactly(q: Queues, clock: nat, i: nat, env: Env)
    requires q.Sound() && Timely(q, clock) && Placed(q) && q.IsTop(i) && q.heap[i].tries == 0
    requires q.Poll(i, env).sent.Some? && q.heap[i].id.kind != Init
    ensures var top := q.heap[i].id;
            EarlierSent(q, top) <==> !(top.part.packet != 0xffff && Unsent(q, LastOf(top)))
  {
    var top := q.heap[i].id;
    forall id: PacketId | id.kind == top.kind && NumberOf(id.part) < NumberOf(top.part) && id != LastOf(top)
      ensures !Unsent(q, id)
    {
      FirstSendsInOrder(q, clock, i, env, id);
    }
    assert NumberOf(LastOf(top).part) < NumberOf(top.part) <==> top.part.packet != 0xffff;
  }

  lemma {:induction false} HeapHolds(heap: seq<SendRecordId>, kind: Kind, parts: set<PartialPacketId>)
    requires forall part :: part in parts ==> exists i :: 0 <= i < |heap| && heap[i].id == PacketId(kind, part)
    ensures |parts| <= |heap|
    decreases |heap|
  {
    if heap == [] {
      assert forall part :: part !in parts;
      assert parts == {};
    } else {
      var n := |heap| - 1;
      var rest := parts - {heap[n].id.part};
      forall part | part in rest
        ensures exists i :: 0 <= i < n && heap[..n][i].id == PacketId(kind, part)
      {
        var i :| 0 <= i < |heap| && heap[i].id == PacketId(kind, part);
        assert heap[..n][i].id == PacketId(kind, part);
      }
      HeapHolds(heap[..n], kind, rest);
      Protocol.SubsetSize(parts, rest + {heap[n].id.part});
    }
  }

  lemma {:induction false} OlderIsQueued(q: Queues, i: nat, other: PacketId)
    requires q.Sound() && i < |q.heap| && InPlace(q, i) && other.kind == q.heap[i].id.kind != Init && q.Live(other)
    requires NumberOf(other.part) <= NumberOf(q.heap[i].id.part)
    requires other.part != PartialPacketId(q.heap[i].id.part.generation, 0xffff)
    ensures exists j :: 0 <= j < |q.heap| && q.heap[j].id == other
  {
    NumberInjective(other.part, q.heap[i].id.part);
    if other == q.heap[i].id {
      assert q.heap[i].id == other;
    } else {
      LowerIsPassed(q, i, other);
      assert q.Entered(other) && q.Owns(other);
      var j :| 0 <= j < |q.heap| && q.heap[j] == q.Record(other).id;
      assert q.heap[j].id == other;
    }
  }

  lemma {:induction false} OlderFit(q: Queues, i: nat, id: PacketId, older: set<PartialPacketId>)
    requires q.Sound() && i < |q.heap| && InPlace(q, i) && id == q.heap[i].id && id.kind != Init
    requires older == Protocol.UpTo(q.full.Get(id.kind).Keys, id.part) - {PartialPacketId(id.part.generation, 0xffff)}
    ensures |older| <= |q.heap|
  {
    forall part | part in older
      ensures exists j :: 0 <= j < |q.heap| && q.heap[j].id == PacketId(id.kind, part)
    {
      OlderIsQueued(q, i, PacketId(id.kind, part));
    }
    HeapHolds(q.heap, id.kind, older);
  }

  /** What polling sends is a live record, and at most `maxWindow` records of its type have a lower
      or the same number, or one more when the record of the last id of the generation waits outside
      the heap. With windows below `MAX_IN_FLIGHT` that is what the protocol asks of a transmission. */
  lemma {:induction false} SendsAmongTheOldest(q: Queues, clock: nat, maxWindow: nat, i: nat, env: Env)
    requires RunInv(q, clock, maxWindow) && q.IsTop(i) && q.Poll(i, env).sent.Some? && q.heap[i].id.kind != Init
    ensures var id := q.heap[i].id;
            var older := Protocol.UpTo(q.full.Get(id.kind).Keys, id.part);
            && q.Live(id) && q.Poll(i, env).sent == Some(q.Record(id).packet)
            && |older - {PartialPacketId(id.part.generation, 0xffff)}| <= maxWindow && |older| <= maxWindow + 1
  {
    var id := q.heap[i].id;
    assert InPlace(q, i);
    var older := Protocol.UpTo(q.full.Get(id.kind).Keys, id.part);
    var last := PartialPacketId(id.part.generation, 0xffff);
    OlderFit(q, i, id, older - {last});
    Protocol.SubsetSize(older, older - {last} + {last});
  }

  // ----- Which records a rebuilt heap holds

  ghost function Parts(heap: seq<SendRecordId>, kind: Kind): set<PartialPacketId> {
    set i | 0 <= i < |heap| && heap[i].id.kind == kind :: heap[i].id.part
  }

  ghost function LiveBelow(q: Queues, kind: Kind, part: PartialPacketId): set<PartialPacketId> {
    set k | k in q.full.Get(kind) && k.Less(part)
  }

  ghost predicate AllLive(q: Queues) {
    forall i :: 0 <= i < |q.heap| ==> q.Live(q.heap[i].id)
  }

  lemma {:induction false} FillKeepsLive(q: Queues, n: nat)
    requires q.Owned() && AllLive(q)
    ensures AllLive(q.Fill(n))
    decreases n
  {
    if n > 0 && !q.NothingLeft() {
      var kind := q.Pick();
      var id := PacketId(kind, First(q.Rest(kind)));
      PushPasses(q, kind, q.Push(kind), id);
      assert q.Owns(id);
      FillKeepsLive(q.Push(kind), n - 1);
    }
  }

  lemma {:induction false} PartsAreBelow(q: Queues, kind: Kind)
    requires q.Valid() && AllLive(q)
    ensures Parts(q.heap, kind) == LiveBelow(q, kind, q.cursor.Get(kind))
  {
    forall part
      ensures part in Parts(q.heap, kind) <==> part in LiveBelow(q, kind, q.cursor.Get(kind))
    {
      var id := PacketId(kind, part);
      if part in Parts(q.heap, kind) {
        var i :| 0 <= i < |q.heap| && q.heap[i].id.kind == kind && q.heap[i].id.part == part;
        assert q.Entry(i) && q.heap[i].id == id;
      }
      if part in LiveBelow(q, kind, q.cursor.Get(kind)) {
        assert q.Live(id) && q.Passed(id) && q.InHeap(id);
      }
    }
  }

  /** A rebuilt heap takes the lowest keys of each type: a live record is in it if and only if fewer
      live records of its type lie below it than the heap holds of that type. */
  lemma {:induction false} RebuildTakesLowest(q: Queues, window: nat, id: PacketId, r: Queues)
    requires q.Owned() && q.Live(id) && r == q.Rebuild(window)
    ensures r.InHeap(id) <==> |LiveBelow(q, id.kind, id.part)| < |Parts(r.heap, id.kind)|
  {
    RebuildMakesValid(q, window);
    ClearedIsValid(q);
    FillKeepsLive(Cleared(q), window);
    PartsAreBelow(r, id.kind);
    if r.InHeap(id) {
      var i :| 0 <= i < |r.heap| && r.heap[i].id == id;
      assert r.Entry(i);
    }
    assert LiveBelow(q, id.kind, id.part) == LiveBelow(r, id.kind, id.part);
    BelowIsNested(r, id.kind, id.part, r.cursor.Get(id.kind));
  }

  lemma {:induction false} BelowIsNested(q: Queues, kind: Kind, part: PartialPacketId, bound: PartialPacketId)
    requires part in q.full.Get(kind)
    ensures part.Less(bound) <==> |LiveBelow(q, kind, part)| < |LiveBelow(q, kind, bound)|
  {
    var below, within := LiveBelow(q, kind, part), LiveBelow(q, kind, bound);
    if part.Less(bound) {
      forall k | k in below + {part}
        ensures k in within
      {
      }
      Protocol.SubsetSize(below + {part}, within);
    } else {
      forall k | k in within
        ensures k in below
      {
        OrderIsNumeric(k, bound);
        OrderIsNumeric(part, bound);
      }
      Protocol.SubsetSize(within, below);
    }
  }

  lemma {:induction false} PartsOneMore(heap: seq<SendRecordId>, entry: SendRecordId, kind: Kind)
    requires entry.id.kind == kind
    ensures Parts(heap + [entry], kind) == Parts(heap, kind) + {entry.id.part}
  {
    var all := heap + [entry];
    forall part
      ensures part in Parts(all, kind) <==> part in Parts(heap, kind) + {entry.id.part}
    {
      if part in Parts(heap, kind) {
        var i :| 0 <= i < |heap| && heap[i].id.kind == kind && heap[i].id.part == part;
        assert all[i].id.part == part;
      }
      assert all[|heap|] == entry;
    }
  }

  lemma {:induction false} PartsCount(heap: seq<SendRecordId>, kind: Kind)
    requires forall i :: 0 <= i < |heap| ==> heap[i].id.kind == kind
    requires forall i, j :: 0 <= i < j < |heap| ==> heap[i].id != heap[j].id
    ensures |Parts(heap, kind)| == |heap|
    decreases |heap|
  {
    if heap == [] {
      assert Parts(heap, kind) == {};
    } else {
      var n := |heap| - 1;
      PartsCount(heap[..n], kind);
      PartsOneMore(heap[..n], heap[n], kind);
      assert heap[..n] + [heap[n]] == heap;
    }
  }

  /** Whether a rebuilt heap holds the record with the lowest number, when one type waits: exactly if
      fewer than `window` records lie below its key. That is always so, unless it is the last id of a
      generation: its successors lie below it, and keep it out while `window` of them wait. */
  lemma {:induction false} OldestIsQueuedExactly(q: Queues, window: nat, id: PacketId, r: Queues)
    requires q.Owned() && q.Live(id) && r == q.Rebuild(window) && window > 0
    requires forall other: PacketId :: q.Live(other) ==>
               other.kind == id.kind && NumberOf(id.part) <= NumberOf(other.part)
    ensures r.InHeap(id) <==> |LiveBelow(q, id.kind, id.part)| < window
    ensures id.part.packet != 0xffff ==> LiveBelow(q, id.kind, id.part) == {} && r.InHeap(id)
    ensures forall part :: part in LiveBelow(q, id.kind, id.part) ==>
              part.generation == id.part.generation && NumberOf(part) > NumberOf(id.part)
  {
    RebuildTakesLowest(q, window, id, r);
    RebuildMakesValid(q, window);
    ClearedIsValid(q);
    FillKeepsLive(Cleared(q), window);
    forall i, j | 0 <= i < j < |r.heap|
      ensures r.heap[i].id != r.heap[j].id
    {
      assert r.Different(i, j);
    }
    PartsCount(r.heap, id.kind);
    forall part | part in LiveBelow(q, id.kind, id.part)
      ensures id.part.packet == 0xffff && part.packet != 0xffff && part.generation == id.part.generation
      ensures NumberOf(part) > NumberOf(id.part)
    {
      assert q.Live(PacketId(id.kind, part));
      NumberInjective(part, id.part);
      OrderIsNumeric(part, id.part);
      OrderIsNumeric(id.part, part);
      LaterButLower(id.part, part);
    }
    if |r.heap| < window {
      assert r.Live(id) && r.Entered(id) && r.Owns(id);
      var i :| 0 <= i < |r.heap| && r.heap[i] == r.Record(id).id;
      assert r.heap[i].id == id;
    }
  }

  // ----- What keeps a record out of the heap

  /** Nothing is pushed past the records below it, all of which would be in the heap. */
  lemma {:induction false} FillKeepsOut(q: Queues, n: nat, id: PacketId)
    requires q.Sound() && !q.InHeap(id) && |q.heap| + n <= |LiveBelow(q, id.kind, id.part)|
    ensures !q.Fill(n).InHeap(id)
    decreases n
  {
    if n > 0 && !q.NothingLeft() {
      var kind := q.Pick();
      var q' := q.Push(kind);
      var pushed := PacketId(kind, First(q.Rest(kind)));
      PushPasses(q, kind, q', pushed);
      PushKeepsSound(q, kind, q');
      assert q.Owns(pushed);
      if pushed == id {
        BelowPushedIsQueued(q, id);
      }
      forall i | 0 <= i < |q'.heap|
        ensures q'.heap[i].id != id
      {
        assert i < |q.heap| ==> q.InHeap(q.heap[i].id);
      }
      FillKeepsOut(q', n - 1, id);
    }
  }

  lemma {:induction false} BelowPushedIsQueued(q: Queues, id: PacketId)
    requires q.Sound() && q.Rest(id.kind) != {} && id.part == First(q.Rest(id.kind))
    ensures |LiveBelow(q, id.kind, id.part)| <= |q.heap|
  {
    forall part | part in LiveBelow(q, id.kind, id.part)
      ensures exists j :: 0 <= j < |q.heap| && q.heap[j].id == PacketId(id.kind, part)
    {
      var other := PacketId(id.kind, part);
      OrderIsNumeric(part, id.part);
      OrderIsNumeric(id.part, part);
      assert part !in q.Rest(id.kind);
      assert q.Entered(other) && q.Owns(other);
      var j :| 0 <= j < |q.heap| && q.heap[j] == q.Record(other).id;
      assert q.heap[j].id == other;
    }
    HeapHolds(q.heap, id.kind, LiveBelow(q, id.kind, id.part));
  }

  lemma {:induction false} FillUpKeepsOut(q: Queues, window: nat, id: PacketId)
    requires q.Sound() && !q.InHeap(id) && window <= |LiveBelow(q, id.kind, id.part)|
    ensures !q.FillUp(window).InHeap(id)
  {
    if |q.heap| < window {
      FillKeepsOut(q, window - |q.heap|, id);
    }
  }

  lemma {:induction false} PollKeepsOut(q: Queues, i: nat, env: Env, id: PacketId)
    requires q.Sound() && i < |q.heap| && !q.InHeap(id) && env.window <= |LiveBelow(q, id.kind, id.part)|
    ensures !q.Poll(i, env).queues.InHeap(id) && q.heap[i].id != id
  {
    assert q.InHeap(q.heap[i].id);
    if !q.Live(q.heap[i].id) {
      var popped := q.Pop(i);
      PopKeepsSound(q, i, popped);
      assert LiveBelow(popped, id.kind, id.part) == LiveBelow(q, id.kind, id.part);
      forall j | 0 <= j < |popped.heap|
        ensures popped.heap[j].id != id
      {
        assert q.InHeap(q.heap[if j < i then j else j + 1].id);
      }
      FillUpKeepsOut(popped, env.window, id);
    } else {
      var touched := q.Touch(i, env.now);
      TouchKeepsSound(q, i, env.now, touched);
      ClearedIsValid(touched);
      assert LiveBelow(Cleared(touched), id.kind, id.part) == LiveBelow(q, id.kind, id.part);
      FillUpKeepsOut(Cleared(touched), env.window, id);
      forall j | 0 <= j < |touched.heap|
        ensures touched.heap[j].id != id
      {
        assert q.InHeap(q.heap[j].id);
      }
    }
  }

  /** At least as many live records as the window holds lie below the record. */
  ghost predicate Crowded(q: Queues, op: Op, id: PacketId) {
    match op
    case Submit(_, _, _, window) => Submitted(op) != id && window <= |LiveBelow(q, id.kind, id.part)|
    case Acked(_, _, _) => true
    case Round(env) => env.window <= |LiveBelow(q, id.kind, id.part)|
  }

  lemma {:induction false} MoveKeepsOut(
      q: Queues, clock: nat, maxWindow: nat, op: Op, q': Queues, clock': nat, id: PacketId)
    requires q.Sound() && Moves(q, clock, maxWindow, op, q', clock') && Crowded(q, op, id) && !q.InHeap(id)
    ensures !q'.InHeap(id)
  {
    match op
    case Submit(kind, packet, now, window) =>
      var rec := NewRecord(kind, packet, now);
      var mid := q.Insert(rec);
      InsertKeepsSound(q, rec, mid);
      InsertPassed(q, rec, mid);
      assert LiveBelow(q, id.kind, id.part) <= LiveBelow(mid, id.kind, id.part);
      Protocol.SubsetSize(LiveBelow(q, id.kind, id.part), LiveBelow(mid, id.kind, id.part));
      FillUpKeepsOut(mid, window, id);
    case Acked(kind, out, ack) =>
    case Round(env) =>
      var r :| q.PollsTo(env, r) && q' == r.queues;
      if q.heap != [] {
        var i: nat :| q.IsTop(i) && r == q.Poll(i, env);
        PollKeepsOut(q, i, env, id);
      }
  }

  /** In every run: a record that is not in the heap stays out of it, so that polling does not send it,
      as long as at least as many live records lie below it as the window holds. */
  lemma {:induction false} StarvesWhileCrowded(
      states: seq<Queues>, times: seq<nat>, ops: seq<Op>, maxWindow: nat, start: nat, end: nat, id: PacketId)
    requires Run(states, times, ops, maxWindow) && start <= end < |states| && !states[start].InHeap(id)
    requires forall k :: start <= k < end ==> Crowded(states[k], ops[k], id)
    ensures !states[end].InHeap(id)
    decreases end
  {
    if start < end {
      StarvesWhileCrowded(states, times, ops, maxWindow, start, end - 1, id);
      RunKeepsInv(states, times, ops, maxWindow, end - 1);
      MoveKeepsOut(states[end - 1], times[end - 1], maxWindow, ops[end - 1], states[end], times[end], id);
    }
  }

  /** Operation `k` removes nothing, submits another packet, and its window is covered by the live
      records that lay below the record at the start. */
  ghost predicate OnlyCrowds(states: seq<Queues>, ops: seq<Op>, start: nat, k: nat, id: PacketId)
    requires start < |states| && k < |ops|
  {
    match ops[k]
    case Submit(_, _, _, window) =>
      Submitted(ops[k]) != id && window <= |LiveBelow(states[start], id.kind, id.part)|
    case Acked(_, _, _) => false
    case Round(env) => env.window <= |LiveBelow(states[start], id.kind, id.part)|
  }

  /** Only an acknowledgement removes a record. */
  lemma {:induction false} MoveKeepsLive(
      q: Queues, clock: nat, maxWindow: nat, op: Op, q': Queues, clock': nat, other: PacketId)
    requires q.Sound() && Moves(q, clock, maxWindow, op, q', clock') && !op.Acked? && q.Live(other)
    ensures q'.Live(other)
  {
    match op
    case Submit(kind, packet, now, window) =>
      var mid := q.Insert(NewRecord(kind, packet, now));
      InsertKeepsSound(q, NewRecord(kind, packet, now), mid);
      FillUpReachesWindow(mid, window);
    case Round(env) =>
      var r :| q.PollsTo(env, r) && q' == r.queues;
      if q.heap != [] {
        var i: nat :| q.IsTop(i) && r == q.Poll(i, env);
        PollKeepsLive(q, i, env, other);
      }
  }

  lemma {:induction false} PollKeepsLive(q: Queues, i: nat, env: Env, other: PacketId)
    requires q.Sound() && i < |q.heap| && q.Live(other)
    ensures q.Poll(i, env).queues.Live(other)
  {
    if !q.Live(q.heap[i].id) {
      PopKeepsSound(q, i, q.Pop(i));
      FillUpReachesWindow(q.Pop(i), env.window);
    } else {
      var touched := q.Touch(i, env.now);
      TouchKeepsSound(q, i, env.now, touched);
      ClearedIsValid(touched);
      FillUpReachesWindow(Cleared(touched), env.window);
    }
  }

  /** In every run: a record outside the heap stays outside as long as nothing is acknowledged and the
      window is covered by the live records that lie below it. */
  lemma {:induction false} StarvesUntilAcked(
      states: seq<Queues>, times: seq<nat>, ops: seq<Op>, maxWindow: nat, start: nat, end: nat, id: PacketId)
    requires Run(states, times, ops, maxWindow) && start <= end < |states| && !states[start].InHeap(id)
    requires forall k :: start <= k < end ==> OnlyCrowds(states, ops, start, k, id)
    ensures !states[end].InHeap(id)
    ensures LiveBelow(states[start], id.kind, id.part) <= LiveBelow(states[end], id.kind, id.part)
    decreases end
  {
    if start < end {
      var k := end - 1;
      StarvesUntilAcked(states, times, ops, maxWindow, start, k, id);
      RunKeepsInv(states, times, ops, maxWindow, k);
      assert OnlyCrowds(states, ops, start, k, id);
      var below := LiveBelow(states[start], id.kind, id.part);
      Protocol.SubsetSize(below, LiveBelow(states[k], id.kind, id.part));
      MoveKeepsOut(states[k], times[k], maxWindow, ops[k], states[end], times[end], id);
      forall part | part in below
        ensures states[end].Live(PacketId(id.kind, part))
      {
        MoveKeepsLive(states[k], times[k], maxWindow, ops[k], states[end], times[end], PacketId(id.kind, part));
      }
    }
  }

  // ----- The last id of a generation

  lemma {:induction false} FillEnters(q: Queues, n: nat, id: PacketId)
    requires q.Owned() && q.Live(id) && !q.Passed(id) && q.Fill(n).NothingLeft()
    ensures q.heap <= q.Fill(n).heap
    ensures exists j :: |q.heap| <= j < |q.Fill(n).heap| && q.Fill(n).heap[j].id == id
    decreases n
  {
    assert id.part in q.Rest(id.kind);
    if n > 0 {
      var kind := q.Pick();
      var part, q' := First(q.Rest(kind)), q.Push(kind);
      assert q.Owns(PacketId(kind, part)) && q.Live(PacketId(kind, part));
      AddExact(part, 1);
      OrderIsNumeric(id.part, part);
      OrderIsNumeric(part, id.part);
      OrderIsNumeric(id.part, part.Add(1));
      FillPrefix(q', n - 1);
      var r := q.Fill(n);
      if id == PacketId(kind, part) {
        assert r.heap[|q.heap|] == q'.heap[|q.heap|];
      } else {
        forall other
          ensures q'.Owns(other)
        {
          assert q.Owns(other);
        }
        FillEnters(q', n - 1, id);
      }
    }
  }

  lemma {:induction false} FillPrefix(q: Queues, n: nat)
    ensures q.heap <= q.Fill(n).heap
    decreases n
  {
    if n > 0 && !q.NothingLeft() {
      FillPrefix(q.Push(q.Pick()), n - 1);
    }
  }

  /** A record above the one just sent that is in the heap already enters it a second time when
      the window has room for all. */
  lemma {:induction false} LoweredCursorQueuesTwice(
      q: Queues, kind: Kind, packet: OutUdpPacket, now: nat, window: nat, i: nat)
    requires q.Owned() && packet.Key().Full() + 1 < 0x1_0000_0000_0000
    requires i < |q.heap| && q.heap[i].id.kind == kind && q.Live(q.heap[i].id) && packet.Key().Less(q.heap[i].id.part)
    requires q.Send(kind, packet, now, window).NothingLeft()
    ensures exists j :: |q.heap| <= j < |q.Send(kind, packet, now, window).heap| &&
                        q.Send(kind, packet, now, window).heap[j].id == q.heap[i].id
  {
    var rec := NewRecord(kind, packet, now);
    var mid := q.Insert(rec);
    InsertPassed(q, rec, mid);
    OrderIsNumeric(packet.Key(), q.heap[i].id.part);
    OrderIsNumeric(q.heap[i].id.part, packet.Key());
    assert mid.Live(q.heap[i].id) && !mid.Passed(q.heap[i].id);
    forall other
      ensures mid.Owns(other)
    {
      assert q.Owns(other);
    }
    assert q.heap[i].id.part in mid.Rest(kind);
    FillEnters(mid, if |mid.heap| < window then window - |mid.heap| else 0, q.heap[i].id);
  }

  /** The packet after the last id of a generation is filed below it. So while the last id waits
      in the heap for its acknowledgement, sending the next packet queues it a second time. */
  lemma {:induction false} LastIdIsFiledAboveItsSuccessor(out: PartialPacketId)
    requires out.packet == 0xffff && out.generation < 0xffff_ffff
    ensures PartialPacketId(out.Add(2).generation,
            out.Add(1).packet).Less(PartialPacketId(out.Add(1).generation, out.packet))
  {
    AddExact(out, 1);
    AddExact(out, 2);
  }
}

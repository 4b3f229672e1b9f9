/** The resender's queues: every unacknowledged packet by id, and the heap of those being sent. */
module Resend {
  import opened PacketIds
  import opened Wrappers
  import opened Numbering

  datatype Kind = Init | Command | CommandLow

  /** One value per packet type that is resent. */
  datatype PerKind<T> = PerKind(init: T, command: T, low: T) {
    function Get(kind: Kind): T {
      match kind
      case Init => init
      case Command => command
      case CommandLow => low
    }

    function Set(kind: Kind, value: T): PerKind<T> {
      match kind
      case Init => this.(init := value)
      case Command => this.(command := value)
      case CommandLow => this.(low := value)
    }
  }

  datatype PacketId = PacketId(kind: Kind, part: PartialPacketId)

  datatype SendRecordId = SendRecordId(last: nat, tries: nat, id: PacketId) {
    /** At least as urgent: unsent before sent, then the smallest time, then the lower id. */
    predicate AtLeast(other: SendRecordId) {
      if tries == 0 && other.tries != 0 then true
      else if tries != 0 && other.tries == 0 then false
      else last < other.last || (last == other.last && id.part.AtMost(other.id.part))
    }
  }

  datatype SendRecord = SendRecord(sent: nat, id: SendRecordId, packet: OutUdpPacket)

  type Records = map<PartialPacketId, SendRecord>

  /** `cursor` is, per type, the lowest id that was not yet put into the heap. The heap is kept
      in no particular order. */
  datatype Queues = Queues(heap: seq<SendRecordId>, full: PerKind<Records>, cursor: PerKind<PartialPacketId>) {
    predicate Live(id: PacketId) {
      id.part in full.Get(id.kind)
    }

    function Record(id: PacketId): SendRecord
      requires Live(id)
    {
      full.Get(id.kind)[id.part]
    }

    /** The id is below the cursor of its type. */
    predicate Passed(id: PacketId) {
      id.part.Less(cursor.Get(id.kind))
    }

    // ----- The invariant

    ghost predicate Owns(id: PacketId) {
      Live(id) ==> Record(id).id.id == id && id.part.Full() + 1 < 0x1_0000_0000_0000
    }

    ghost predicate Owned() {
      forall id :: Owns(id)
    }

    /** The record is in the heap as it is. */
    ghost predicate Entered(id: PacketId)
      requires Live(id)
    {
      exists i :: 0 <= i < |heap| && heap[i] == Record(id).id
    }

    /** Every live record below the cursor of its type is in the heap. */
    ghost predicate Sound() {
      Owned() && forall id :: Live(id) && Passed(id) ==> Entered(id)
    }

    ghost predicate Entry(i: nat)
      requires i < |heap|
    {
      Passed(heap[i].id) && (Live(heap[i].id) ==> Record(heap[i].id).id == heap[i])
    }

    ghost predicate InHeap(id: PacketId) {
      exists i :: 0 <= i < |heap| && heap[i].id == id
    }

    ghost predicate Different(i: nat, j: nat)
      requires i < |heap| && j < |heap|
    {
      heap[i].id != heap[j].id
    }

    /** A live record is in the heap exactly when it is below the cursor, once, as it is. */
    ghost predicate Valid() {
      && Owned()
      && (forall i :: 0 <= i < |heap| ==> Entry(i))
      && (forall i, j :: 0 <= i < j < |heap| ==> Different(i, j))
      && (forall id :: Live(id) && Passed(id) ==> InHeap(id))
    }

    // ----- Filling the heap

    /** The ids of a type that are not in the heap yet. */
    function Rest(kind: Kind): set<PartialPacketId> {
      set k | k in full.Get(kind) && !k.Less(cursor.Get(kind))
    }

    ghost function Next(kind: Kind): SendRecord
      requires Rest(kind) != {}
    {
      full.Get(kind)[First(Rest(kind))]
    }

    /** The type whose next record was submitted last; the first such type. */
    ghost predicate IsPick(kind: Kind) {
      Rest(kind) != {} && forall other :: Rest(other) != {} ==> PreferredTo(kind, other)
    }

    ghost predicate PreferredTo(kind: Kind, other: Kind)
      requires Rest(kind) != {} && Rest(other) != {}
    {
      Next(kind).sent > Next(other).sent || (Next(kind).sent == Next(other).sent && Index(kind) <= Index(other))
    }

    ghost predicate NothingLeft() {
      forall kind :: Rest(kind) == {}
    }

    ghost function Push(kind: Kind): Queues
      requires Rest(kind) != {}
    {
      this.(heap := heap + [Next(kind).id], cursor := cursor.Set(kind, First(Rest(kind)).Add(1)))
    }

    ghost function Pick(): Kind
      requires !NothingLeft()
      ensures IsPick(Pick())
    {
      PickExists(this);
      var kind :| IsPick(kind);
      kind
    }

    ghost function Fill(n: nat): Queues
      decreases n
    {
      if n == 0 || NothingLeft() then this else Push(Pick()).Fill(n - 1)
    }

    /** Fill up to the send window. */
    ghost function FillUp(window: nat): Queues {
      if |heap| < window then Fill(window - |heap|) else this
    }

    ghost function Rebuild(window: nat): Queues {
      var zero := PartialPacketId(0, 0);
      this.(heap := [], cursor := PerKind(zero, zero, zero)).FillUp(window)
    }

    // ----- Records come and go

    function Insert(rec: SendRecord): Queues {
      var id := rec.id.id;
      Queues(heap, full.Set(id.kind, full.Get(id.kind)[id.part := rec]),
             if id.part.Less(cursor.Get(id.kind)) then cursor.Set(id.kind, id.part) else cursor)
    }

    ghost function Send(kind: Kind, packet: OutUdpPacket, now: nat, window: nat): Queues {
      Insert(NewRecord(kind, packet, now)).FillUp(window)
    }

    function Remove(kind: Kind, parts: set<PartialPacketId>): Queues {
      this.(full := full.Set(kind, full.Get(kind) - parts))
    }

    function Pop(i: nat): Queues
      requires i < |heap|
    {
      this.(heap := heap[..i] + heap[i + 1..])
    }

    /** The entry was sent once more. */
    function Touch(i: nat, now: nat): Queues
      requires i < |heap| && Live(heap[i].id)
    {
      var id := heap[i].id;
      var entry := SendRecordId(now, heap[i].tries + 1, id);
      var queue := full.Get(id.kind);
      Queues(heap[i := entry], full.Set(id.kind, queue[id.part := queue[id.part].(id := entry)]), cursor)
    }

    // ----- One round of the poll loop

    predicate IsTop(i: nat) {
      Top(heap, i)
    }

    predicate Due(i: nat, threshold: int)
      requires i < |heap|
    {
      heap[i].tries == 0 || heap[i].last <= threshold
    }

    ghost function Poll(i: nat, env: Env): Polled
      requires i < |heap|
    {
      if !Live(heap[i].id) then Polled(Pop(i).FillUp(env.window), Again, None)
      else
        var rec := Record(heap[i].id);
        if !Due(i, env.threshold) then Polled(this, if env.timerFired then Again else NotDue, None)
        else if env.now - rec.sent > env.timeout then Polled(this, TimedOut, None)
        else match env.socket
          case Pending => Polled(this, Blocked, None)
          case Broken => Polled(this, SocketError, None)
          case Ready =>
            var touched := Touch(i, env.now);
            Polled(if heap[i].tries == 0 then touched else touched.Rebuild(env.window), Again, Some(rec.packet))
    }

    ghost predicate PollsTo(env: Env, r: Polled) {
      if heap == [] then r == Polled(this, Idle, None)
      else exists i :: IsTop(i) && r == Poll(i, env)
    }
  }

  predicate Beats(heap: seq<SendRecordId>, i: nat, j: nat)
    requires i < |heap| && j < |heap|
  {
    heap[i].AtLeast(heap[j])
  }

  /** The entry that peeking at the heap may return. */
  predicate Top(heap: seq<SendRecordId>, i: nat) {
    i < |heap| && forall j :: 0 <= j < |heap| ==> Beats(heap, i, j)
  }

  function Index(kind: Kind): nat {
    match kind
    case Init => 0
    case Command => 1
    case CommandLow => 2
  }

  function NewRecord(kind: Kind, packet: OutUdpPacket, now: nat): SendRecord {
    SendRecord(now, SendRecordId(now, 0, PacketId(kind, packet.Key())), packet)
  }

  datatype Socket = Ready | Pending | Broken

  /** What one round of the poll loop observes: the clock, the time before which a packet counts
      as lost, the connection timeout, the congestion window, the socket and the timer. */
  datatype Env = Env(now: nat, threshold: int, timeout: nat, window: nat, socket: Socket, timerFired: bool)

  datatype Verdict = Again | Idle | NotDue | TimedOut | Blocked | SocketError

  datatype Polled = Polled(queues: Queues, verdict: Verdict, sent: Option<OutUdpPacket>)

  lemma {:induction false} PickExists(q: Queues)
    requires !q.NothingLeft()
    ensures exists kind :: q.IsPick(kind)
  {
    var first := if q.Rest(Init) != {} then Init else if q.Rest(Command) != {} then Command else CommandLow;
    assert q.Rest(first) != {} by {
      var k :| q.Rest(k) != {};
      assert k == Init || k == Command || k == CommandLow;
    }
    var a := if q.Rest(Command) != {} && q.Next(Command).sent > q.Next(first).sent then Command else first;
    var b := if q.Rest(CommandLow) != {} && q.Next(CommandLow).sent > q.Next(a).sent then CommandLow else a;
    forall other | q.Rest(other) != {}
      ensures q.PreferredTo(b, other)
    {
      match other
      case Init =>
      case Command =>
      case CommandLow =>
    }
    assert q.IsPick(b);
  }

  lemma {:induction false} PickIsUnique(q: Queues, a: Kind, b: Kind)
    requires q.IsPick(a) && q.IsPick(b)
    ensures a == b
  {
    assert q.PreferredTo(a, b) && q.PreferredTo(b, a);
  }

  // ----- Every operation keeps the live records below the cursors in the heap

  lemma {:induction false} PushPasses(q: Queues, kind: Kind, q': Queues, id: PacketId)
    requires q.Owned() && q.Rest(kind) != {} && q' == q.Push(kind)
    requires id == PacketId(kind, First(q.Rest(kind)))
    ensures q'.Owned() && q.Live(id) && !q.Passed(id) && q'.heap == q.heap + [q.Record(id).id]
    ensures forall other: PacketId :: q'.Passed(other) <==>
              q.Passed(other) || (other.kind == kind && other.part.AtMost(id.part))
  {
    assert q.Live(id) && q.Owns(id);
    AddExact(id.part, 1);
    forall other: PacketId
      ensures q'.Passed(other) <==> q.Passed(other) || (other.kind == kind && other.part.AtMost(id.part))
      ensures q'.Owns(other)
    {
      assert q.Owns(other);
      OrderIsNumeric(other.part, id.part);
      OrderIsNumeric(other.part, id.part.Add(1));
      OrderIsNumeric(other.part, q.cursor.Get(kind));
      OrderIsNumeric(id.part, q.cursor.Get(kind));
    }
  }

  lemma {:induction false} PushKeepsSound(q: Queues, kind: Kind, q': Queues)
    requires q.Sound() && q.Rest(kind) != {} && q' == q.Push(kind)
    ensures q'.Sound()
  {
    var id := PacketId(kind, First(q.Rest(kind)));
    PushPasses(q, kind, q', id);
    forall other | q'.Live(other) && q'.Passed(other)
      ensures q'.Entered(other)
    {
      if q.Passed(other) {
        assert q.Entered(other);
        var i :| 0 <= i < |q.heap| && q.heap[i] == q.Record(other).id;
        assert q'.heap[i] == q'.Record(other).id;
      } else {
        assert other.part in q.Rest(kind);
        assert other == id && q'.heap[|q.heap|] == q'.Record(id).id;
      }
    }
  }

  /** A fill leaves the records and what is in the heap, and stops only when it has put `n` records
      into the heap or none is left outside. */
  lemma {:induction false} FillAdds(q: Queues, n: nat)
    requires q.Owned()
    ensures var r := q.Fill(n);
            && r.Owned() && r.full == q.full && q.heap <= r.heap && |r.heap| <= |q.heap| + n
            && (|r.heap| == |q.heap| + n || r.NothingLeft())
    decreases n
  {
    if n > 0 && !q.NothingLeft() {
      var kind := q.Pick();
      PushPasses(q, kind, q.Push(kind), PacketId(kind, First(q.Rest(kind))));
      FillAdds(q.Push(kind), n - 1);
    }
  }

  lemma {:induction false} FillKeepsSound(q: Queues, n: nat)
    requires q.Sound()
    ensures q.Fill(n).Sound()
    decreases n
  {
    if n > 0 && !q.NothingLeft() {
      PushKeepsSound(q, q.Pick(), q.Push(q.Pick()));
      FillKeepsSound(q.Push(q.Pick()), n - 1);
    }
  }

  /** After a fill the heap holds `window` entries or every live record. */
  lemma {:induction false} FillUpReachesWindow(q: Queues, window: nat)
    requires q.Sound()
    ensures var r := q.FillUp(window);
            && r.Sound() && r.full == q.full && q.heap <= r.heap && |r.heap| <= Max(|q.heap|, window)
            && (|r.heap| >= window || forall id :: r.Live(id) ==> r.Entered(id))
  {
    var r := q.FillUp(window);
    if |q.heap| < window {
      FillAdds(q, window - |q.heap|);
      FillKeepsSound(q, window - |q.heap|);
    }
    if |r.heap| < window {
      forall id | r.Live(id)
        ensures r.Entered(id)
      {
        assert r.Rest(id.kind) == {};
        assert id.part !in r.Rest(id.kind);
      }
    }
  }

  ghost function Cleared(q: Queues): Queues {
    var zero := PartialPacketId(0, 0);
    q.(heap := [], cursor := PerKind(zero, zero, zero))
  }

  lemma {:induction false} ClearedIsValid(q: Queues)
    requires q.Owned()
    ensures Cleared(q).Valid() && Cleared(q).Sound()
  {
    assert forall id :: q.Owns(id) ==> Cleared(q).Owns(id);
    assert forall id :: !Cleared(q).Passed(id);
  }

  /** A new record lowers the cursor if need be; whatever lies above it is queued again. */
  lemma {:induction false} InsertKeepsSound(q: Queues, rec: SendRecord, q': Queues)
    requires q.Sound() && rec.id.id.part.Full() + 1 < 0x1_0000_0000_0000 && q' == q.Insert(rec)
    ensures q'.Sound()
  {
    InsertPassed(q, rec, q');
    forall other
      ensures q'.Owns(other)
    {
      assert q.Owns(other);
    }
    forall other | q'.Live(other) && q'.Passed(other)
      ensures q'.Entered(other)
    {
      assert q.Live(other) && q.Entered(other);
    }
  }

  lemma {:induction false} RemoveKeepsSound(q: Queues, kind: Kind, parts: set<PartialPacketId>, q': Queues)
    requires q.Sound() && q' == q.Remove(kind, parts)
    ensures q'.Sound()
  {
    forall id: PacketId
      ensures q'.Owns(id) && (q'.Live(id) ==> q.Live(id) && q'.Record(id) == q.Record(id))
      ensures q'.Live(id) && q'.Passed(id) ==> q'.Entered(id)
    {
      assert q.Owns(id);
      if q'.Live(id) && q'.Passed(id) {
        assert q.Entered(id);
      }
    }
  }

  lemma {:induction false} PopKeepsSound(q: Queues, i: nat, q': Queues)
    requires q.Sound() && i < |q.heap| && !q.Live(q.heap[i].id) && q' == q.Pop(i)
    ensures q'.Sound()
  {
    forall id
      ensures q'.Owns(id) && (q'.Live(id) && q'.Passed(id) ==> q'.Entered(id))
    {
      assert q.Owns(id);
      if q'.Live(id) && q'.Passed(id) {
        assert q.Entered(id);
        var j :| 0 <= j < |q.heap| && q.heap[j] == q.Record(id).id;
        assert q'.heap[if j < i then j else j - 1] == q'.Record(id).id;
      }
    }
  }

  lemma {:induction false} TouchKeepsSound(q: Queues, i: nat, now: nat, q': Queues)
    requires q.Sound() && i < |q.heap| && q.Live(q.heap[i].id) && q' == q.Touch(i, now)
    ensures q'.Sound()
  {
    var id := q.heap[i].id;
    forall other: PacketId
      ensures q'.Passed(other) == q.Passed(other) && q'.Live(other) == q.Live(other) && q'.Owns(other)
      ensures q'.Live(other) && q'.Passed(other) ==> q'.Entered(other)
    {
      assert q.Owns(other);
      if q'.Live(other) && q'.Passed(other) {
        if other == id {
          assert q'.heap[i] == q'.Record(id).id;
        } else {
          assert q.Entered(other);
          var j :| 0 <= j < |q.heap| && q.heap[j] == q.Record(other).id;
          assert q'.heap[j] == q'.Record(other).id;
        }
      }
    }
  }

  lemma {:induction false} PollKeepsSound(q: Queues, i: nat, env: Env)
    requires q.Sound() && i < |q.heap|
    ensures q.Poll(i, env).queues.Sound()
  {
    if !q.Live(q.heap[i].id) {
      PopKeepsSound(q, i, q.Pop(i));
      FillUpReachesWindow(q.Pop(i), env.window);
    } else {
      var touched := q.Touch(i, env.now);
      TouchKeepsSound(q, i, env.now, touched);
      ClearedIsValid(touched);
      FillUpReachesWindow(Cleared(touched), env.window);
    }
  }

  // ----- When the heap holds exactly the live records below the cursors

  lemma {:induction false} PushKeepsValid(q: Queues, kind: Kind, q': Queues)
    requires q.Valid() && q.Rest(kind) != {} && q' == q.Push(kind)
    ensures q'.Valid()
  {
    var id := PacketId(kind, First(q.Rest(kind)));
    PushPasses(q, kind, q', id);
    assert q.Owns(id);
    forall i | 0 <= i < |q'.heap|
      ensures q'.Entry(i)
    {
      assert i < |q.heap| ==> q.Entry(i);
    }
    forall i, j | 0 <= i < j < |q'.heap|
      ensures q'.Different(i, j)
    {
      assert q.Entry(i);
      assert j < |q.heap| ==> q.Different(i, j);
    }
    forall other | q'.Live(other) && q'.Passed(other)
      ensures q'.InHeap(other)
    {
      PushEnters(q, kind, q', id, other);
    }
  }

  lemma {:induction false} PushEnters(q: Queues, kind: Kind, q': Queues, id: PacketId, other: PacketId)
    requires q.Valid() && q.Rest(kind) != {} && q' == q.Push(kind)
    requires id == PacketId(kind, First(q.Rest(kind)))
    requires q.Live(other) && (q.Passed(other) || (other.kind == kind && other.part.AtMost(id.part)))
    ensures q'.InHeap(other)
  {
    assert q.Owns(id);
    if q.Passed(other) {
      assert q.InHeap(other);
      var i :| 0 <= i < |q.heap| && q.heap[i].id == other;
      assert q'.heap[i].id == other;
    } else {
      assert other.part in q.Rest(kind);
      assert other == id && q'.heap[|q.heap|].id == id;
    }
  }

  lemma {:induction false} FillKeepsValid(q: Queues, n: nat)
    requires q.Valid()
    ensures q.Fill(n).Valid()
    decreases n
  {
    if n > 0 && !q.NothingLeft() {
      PushKeepsValid(q, q.Pick(), q.Push(q.Pick()));
      FillKeepsValid(q.Push(q.Pick()), n - 1);
    }
  }

  lemma {:induction false} FillUpKeepsValid(q: Queues, window: nat)
    requires q.Valid()
    ensures q.FillUp(window).Valid()
  {
    if |q.heap| < window {
      FillKeepsValid(q, window - |q.heap|);
    }
  }

  /** Rebuilding restores the invariant, however the heap and the cursors were. */
  lemma {:induction false} RebuildMakesValid(q: Queues, window: nat)
    requires q.Owned()
    ensures var r := q.Rebuild(window);
            && r.Valid() && r.full == q.full && |r.heap| <= window
            && (|r.heap| == window || forall id :: r.Live(id) ==> r.Entered(id))
  {
    ClearedIsValid(q);
    FillUpKeepsValid(Cleared(q), window);
    FillUpReachesWindow(Cleared(q), window);
  }

  /** No entry of the heap has the type of `id` and is at or above it. */
  ghost predicate AboveHeap(q: Queues, id: PacketId) {
    forall i :: 0 <= i < |q.heap| ==> BelowId(q, i, id)
  }

  ghost predicate BelowId(q: Queues, i: nat, id: PacketId)
    requires i < |q.heap|
  {
    q.heap[i].id.kind == id.kind ==> q.heap[i].id.part.Less(id.part)
  }

  /** Lowering the cursor for a new record keeps the invariant exactly when no entry of its type
      in the heap lies at or above it. */
  lemma {:induction false} InsertKeepsValidExactly(q: Queues, rec: SendRecord, q': Queues)
    requires q.Valid() && rec.id.id.part.Full() + 1 < 0x1_0000_0000_0000 && q' == q.Insert(rec)
    ensures q'.Valid() <==> AboveHeap(q, rec.id.id)
  {
    var id := rec.id.id;
    if q'.Valid() {
      forall i | 0 <= i < |q.heap|
        ensures BelowId(q, i, id)
      {
        assert q'.Entry(i);
        OrderIsNumeric(q.heap[i].id.part, id.part);
        OrderIsNumeric(q'.cursor.Get(id.kind), id.part);
        OrderIsNumeric(q.heap[i].id.part, q'.cursor.Get(id.kind));
      }
    }
    if AboveHeap(q, id) {
      InsertPassed(q, rec, q');
      InsertKeepsValid(q, rec, q');
    }
  }

  lemma {:induction false} InsertPassed(q: Queues, rec: SendRecord, q': Queues)
    requires q' == q.Insert(rec)
    ensures forall other: PacketId :: q'.Passed(other) <==>
            q.Passed(other) && (other.kind == rec.id.id.kind ==> other.part.Less(rec.id.id.part))
    ensures forall other: PacketId :: q'.Live(other) <==> q.Live(other) || other == rec.id.id
    ensures forall other: PacketId :: q'.Live(other) ==>
            q'.Record(other) == if other == rec.id.id then rec else q.Record(other)
  {
    var id := rec.id.id;
    forall other: PacketId
      ensures q'.Passed(other) <==> q.Passed(other) && (other.kind == id.kind ==> other.part.Less(id.part))
    {
      OrderIsNumeric(other.part, id.part);
      OrderIsNumeric(other.part, q.cursor.Get(id.kind));
      OrderIsNumeric(id.part, q.cursor.Get(id.kind));
    }
  }

  lemma {:induction false} InsertKeepsValid(q: Queues, rec: SendRecord, q': Queues)
    requires q.Valid() && rec.id.id.part.Full() + 1 < 0x1_0000_0000_0000 && AboveHeap(q, rec.id.id) && q'.heap == q.heap
    requires forall other: PacketId :: q'.Passed(other) <==>
             q.Passed(other) && (other.kind == rec.id.id.kind ==> other.part.Less(rec.id.id.part))
    requires forall other: PacketId :: q'.Live(other) <==> q.Live(other) || other == rec.id.id
    requires forall other: PacketId :: q'.Live(other) ==>
             q'.Record(other) == if other == rec.id.id then rec else q.Record(other)
    ensures q'.Valid()
  {
    forall other
      ensures q'.Owns(other)
    {
      assert q.Owns(other);
    }
    forall i | 0 <= i < |q'.heap|
      ensures q'.Entry(i)
    {
      assert q.Entry(i) && BelowId(q, i, rec.id.id);
    }
    forall i, j | 0 <= i < j < |q'.heap|
      ensures q'.Different(i, j)
    {
      assert q.Different(i, j);
    }
    forall other | q'.Live(other) && q'.Passed(other)
      ensures q'.InHeap(other)
    {
      assert q.InHeap(other);
      var i :| 0 <= i < |q.heap| && q.heap[i].id == other;
      assert q'.heap[i].id == other;
    }
  }

  lemma {:induction false} RemoveKeepsValid(q: Queues, kind: Kind, parts: set<PartialPacketId>, q': Queues)
    requires q.Valid() && q' == q.Remove(kind, parts)
    ensures q'.Valid()
  {
    forall id: PacketId
      ensures q'.Passed(id) == q.Passed(id) && (q'.Live(id) ==> q.Live(id) && q'.Record(id) == q.Record(id))
    {
    }
    SameHeapKeepsValid(q, q');
  }

  lemma {:induction false} SameHeapKeepsValid(q: Queues, q': Queues)
    requires q.Valid() && q'.heap == q.heap
    requires forall id: PacketId ::
               q'.Passed(id) == q.Passed(id) && (q'.Live(id) ==> q.Live(id) && q'.Record(id) == q.Record(id))
    ensures q'.Valid()
  {
    forall id
      ensures q'.Owns(id)
    {
      assert q.Owns(id);
    }
    forall i | 0 <= i < |q'.heap|
      ensures q'.Entry(i)
    {
      assert q.Entry(i);
    }
    forall i, j | 0 <= i < j < |q'.heap|
      ensures q'.Different(i, j)
    {
      assert q.Different(i, j);
    }
    forall id | q'.Live(id) && q'.Passed(id)
      ensures q'.InHeap(id)
    {
      assert q.InHeap(id);
      var i :| 0 <= i < |q.heap| && q.heap[i].id == id;
      assert q'.heap[i].id == id;
    }
  }

  lemma {:induction false} PopKeepsValid(q: Queues, i: nat, q': Queues)
    requires q.Valid() && i < |q.heap| && !q.Live(q.heap[i].id) && q' == q.Pop(i)
    ensures q'.Valid()
  {
    forall id
      ensures q'.Owns(id) && q'.Live(id) == q.Live(id) && q'.Passed(id) == q.Passed(id)
    {
      assert q.Owns(id);
    }
    forall j | 0 <= j < |q'.heap|
      ensures q'.Entry(j)
    {
      assert q.Entry(if j < i then j else j + 1);
    }
    forall j, k | 0 <= j < k < |q'.heap|
      ensures q'.Different(j, k)
    {
      assert q.Different(if j < i then j else j + 1, if k < i then k else k + 1);
    }
    forall id | q'.Live(id) && q'.Passed(id)
      ensures q'.InHeap(id)
    {
      assert q.InHeap(id);
      var j :| 0 <= j < |q.heap| && q.heap[j].id == id;
      assert q'.heap[if j < i then j else j - 1].id == id;
    }
  }

  lemma {:induction false} TouchKeepsValid(q: Queues, i: nat, now: nat, q': Queues)
    requires q.Valid() && i < |q.heap| && q.Live(q.heap[i].id) && q' == q.Touch(i, now)
    ensures q'.Valid()
  {
    var id := q.heap[i].id;
    forall other: PacketId
      ensures q'.Passed(other) == q.Passed(other) && q'.Live(other) == q.Live(other)
      ensures q.Live(other) && other != id ==> q'.Record(other) == q.Record(other)
      ensures q'.Owns(other)
    {
      assert q.Owns(other);
    }
    forall j | 0 <= j < |q'.heap|
      ensures q'.Entry(j)
    {
      assert q.Entry(j);
      assert j < i ==> q.Different(j, i);
      assert j > i ==> q.Different(i, j);
    }
    forall j, k | 0 <= j < k < |q'.heap|
      ensures q'.Different(j, k)
    {
      assert q.Different(j, k);
    }
    forall other | q'.Live(other) && q'.Passed(other)
      ensures q'.InHeap(other)
    {
      assert q.InHeap(other);
      var j :| 0 <= j < |q.heap| && q.heap[j].id == other;
      assert q'.heap[j].id == other;
    }
  }

  lemma {:induction false} PollKeepsValid(q: Queues, i: nat, env: Env)
    requires q.Valid() && i < |q.heap|
    ensures q.Poll(i, env).queues.Valid()
  {
    if !q.Live(q.heap[i].id) {
      PopKeepsValid(q, i, q.Pop(i));
      FillUpKeepsValid(q.Pop(i), env.window);
    } else {
      TouchKeepsValid(q, i, env.now, q.Touch(i, env.now));
      RebuildMakesValid(q.Touch(i, env.now), env.window);
    }
  }

  // ----- The resender

  class Resender {
    var heap: seq<SendRecordId>
    var full: PerKind<Records>
    var cursor: PerKind<PartialPacketId>

    ghost function Q(): Queues
      reads this
    {
      Queues(heap, full, cursor)
    }

    constructor ()
      ensures Q() == Queues([], PerKind(map[], map[], map[]),
              PerKind(PartialPacketId(0, 0), PartialPacketId(0, 0), PartialPacketId(0, 0)))
    {
      var zero := PartialPacketId(0, 0);
      heap, full, cursor := [], PerKind(map[], map[], map[]), PerKind(zero, zero, zero);
    }

    /** The first record of a type that was not put into the heap. */
    method Peek(kind: Kind) returns (r: Option<SendRecord>)
      ensures r == if Q().Rest(kind) == {} then None else Some(Q().Next(kind))
    {
      var rest := set k | k in full.Get(kind) && !k.Less(cursor.Get(kind));
      assert rest == Q().Rest(kind);
      if rest == {} {
        return None;
      }
      FirstExists(rest);
      var part :| IsFirst(rest, part);
      FirstIsUnique(rest, part, First(rest));
      r := Some(full.Get(kind)[part]);
    }

    /** The type whose record goes into the heap next. */
    method PickNext() returns (pick: Option<Kind>, next: Option<SendRecord>)
      ensures pick.None? <==> Q().NothingLeft()
      ensures pick.Some? ==> pick.value == Q().Pick() && next == Some(Q().Next(Q().Pick()))
    {
      var kinds := [Init, Command, CommandLow];
      pick, next := None, None;
      for i := 0 to 3
        invariant pick.None? ==> next == None && forall kind :: Index(kind) < i ==> Q().Rest(kind) == {}
        invariant pick.Some? ==>
                    && Index(pick.value) < i && Q().Rest(pick.value) != {}
                    && next == Some(Q().Next(pick.value))
        invariant pick.Some? ==> forall kind :: Index(kind) < i && Q().Rest(kind) != {} ==>
                  Q().PreferredTo(pick.value, kind)
      {
        var rec := Peek(kinds[i]);
        assert Index(kinds[i]) == i && forall kind :: Index(kind) < i + 1 ==> Index(kind) < i || kind == kinds[i];
        if rec.Some? && (next.None? || next.value.sent < rec.value.sent) {
          forall kind | Index(kind) < i + 1 && Q().Rest(kind) != {}
            ensures Q().PreferredTo(kinds[i], kind)
          {
            assert Index(kind) < i ==> Q().PreferredTo(pick.value, kind);
          }
          pick, next := Some(kinds[i]), rec;
        }
      }
      if pick.Some? {
        assert Q().IsPick(pick.value);
        PickIsUnique(Q(), pick.value, Q().Pick());
      }
    }

    method FillUpSendQueue(window: nat)
      requires Q().Owned()
      modifies this
      ensures Q() == old(Q()).FillUp(window)
    {
      var i := |heap|;
      while i < window
        invariant i <= window || i == old(|heap|)
        invariant if i < window then Q().Fill(window - i) == old(Q()).FillUp(window) else Q() == old(Q()).FillUp(window)
        invariant Q().Owned()
      {
        var pick, next := PickNext();
        if pick == None {
          return;
        }
        ghost var before := Q();
        ghost var part := First(before.Rest(pick.value));
        assert before.Live(PacketId(pick.value, part)) && before.Owns(PacketId(pick.value, part));
        cursor := cursor.Set(pick.value, next.value.id.id.part.Add(1));
        heap := heap + [next.value.id];
        i := i + 1;
        assert Q() == before.Push(pick.value);
        forall id
          ensures Q().Owns(id)
        {
          assert before.Owns(id);
        }
      }
    }

    method RebuildSendQueue(window: nat)
      requires Q().Owned()
      modifies this
      ensures Q() == old(Q()).Rebuild(window)
    {
      var zero := PartialPacketId(0, 0);
      ghost var before := Q();
      heap, cursor := [], PerKind(zero, zero, zero);
      assert forall id :: before.Owns(id) ==> Q().Owns(id);
      FillUpSendQueue(window);
    }

    method SendPacket(kind: Kind, packet: OutUdpPacket, now: nat, window: nat)
      requires Q().Owned() && packet.Key().Full() + 1 < 0x1_0000_0000_0000
      modifies this
      ensures Q() == old(Q()).Send(kind, packet, now, window)
      ensures full == old(full).Set(kind, old(full).Get(kind)[packet.Key() :=
                        SendRecord(now, SendRecordId(now, 0, PacketId(kind, packet.Key())), packet)])
    {
      var rec := NewRecord(kind, packet, now);
      ghost var before := Q();
      if rec.id.id.part.Less(cursor.Get(kind)) {
        cursor := cursor.Set(kind, rec.id.id.part);
      }
      full := full.Set(kind, full.Get(kind)[rec.id.id.part := rec]);
      assert Q() == before.Insert(rec);
      InsertPassed(before, rec, Q());
      assert forall id :: before.Owns(id) ==> Q().Owns(id);
      ghost var between := Q();
      FillKeepsRecords(between, if |heap| < window then window - |heap| else 0);
      FillUpSendQueue(window);
      assert Q() == between.FillUp(window) && Q().full == between.full;
    }

    /** `out` is the next id to be given out. Returns what is announced. */
    method AckPacket(kind: Kind, id: u16, out: PartialPacketId) returns (announced: Option<PartialPacketId>)
      requires Q().Owned()
      modifies this
      ensures var next := if kind == Init then PartialPacketId(0, WrapAdd(id, 1)) else out;
              var ack := Ack(old(full).Get(kind).Keys, next, id);
              Q() == old(Q()).Remove(kind, ack.removed) && announced == ack.announced
    {
      announced := None;
      var queue := full.Get(kind);
      if queue.Keys == {} {
        assert Q() == Q().Remove(kind, {});
        return;
      }
      FirstExists(queue.Keys);
      var first :| IsFirst(queue.Keys, first);
      FirstIsUnique(queue.Keys, first, First(queue.Keys));
      if first.packet == id {
        var next := if kind == Init then PartialPacketId(0, WrapAdd(id, 1)) else out;
        var others := queue.Keys - {first};
        if others != {} {
          FirstExists(others);
          var second :| IsFirst(others, second);
          FirstIsUnique(others, second, First(others));
          assert Q().Live(PacketId(kind, second)) && Q().Owns(PacketId(kind, second));
          next := queue[second].id.id.part;
        } else {
          assert queue.Keys == {first};
        }
        announced := Some(next.Sub(1));
      }
      var target := AckTarget(first, id);
      full := full.Set(kind, queue - {target});
      assert queue - {target} == queue - ({target} * queue.Keys);
    }

    /** One round of the poll loop: look at the most urgent entry and act on it. */
    method PollRound(env: Env) returns (verdict: Verdict, sent: Option<OutUdpPacket>)
      requires Q().Owned()
      modifies this
      ensures old(Q()).PollsTo(env, Polled(Q(), verdict, sent))
      ensures RoundMeans(old(Q()), env, Polled(Q(), verdict, sent))
    {
      verdict, sent := Idle, None;
      ghost var before := Q();
      if heap != [] {
        TopExists(heap);
        var i: nat :| i < |heap| && Top(heap, i);
        assert before.IsTop(i);
        var entry := heap[i];
        var queue := full.Get(entry.id.kind);
        if entry.id.part !in queue {
          heap := heap[..i] + heap[i + 1..];
          SameRecordsOwned(before, Q());
          FillUpSendQueue(env.window);
          verdict := Again;
        } else if entry.tries != 0 && entry.last > env.threshold {
          verdict := if env.timerFired then Again else NotDue;
        } else if env.now - queue[entry.id.part].sent > env.timeout {
          verdict := TimedOut;
        } else {
          match env.socket
          case Pending => verdict := Blocked;
          case Broken => verdict := SocketError;
          case Ready =>
            var rec, touched := queue[entry.id.part], SendRecordId(env.now, entry.tries + 1, entry.id);
            heap := heap[i := touched];
            full := full.Set(entry.id.kind, queue[entry.id.part := rec.(id := touched)]);
            assert Q() == before.Touch(i, env.now);
            TouchKeepsOwned(before, i, env.now, Q());
            if touched.tries != 1 {
              RebuildSendQueue(env.window);
            }
            verdict, sent := Again, Some(rec.packet);
        }
        assert Polled(Q(), verdict, sent) == before.Poll(i, env);
      }
      PollMeansExactly(before, env, Polled(Q(), verdict, sent));
    }

    /** Poll until there is nothing to do at the moment; the trace are the states in between. */
    method PollResend(envs: seq<Env>) returns (verdict: Verdict, sent: seq<OutUdpPacket>, ghost trace: seq<Polled>)
      requires Q().Owned()
      modifies this
      ensures Q().Owned() && (old(Q()).Sound() ==> Q().Sound()) && |trace| <= |envs|
      ensures forall k :: 0 <= k < |trace| ==> IsRound(old(Q()), envs, trace, k)
      ensures Q() == Before(old(Q()), trace, |trace|)
      ensures verdict == if trace == [] then Again else trace[|trace| - 1].verdict
      ensures verdict == Again ==> |trace| == |envs|
      ensures sent == Sent(trace)
    {
      verdict, sent, trace := Again, [], [];
      for n := 0 to |envs|
        invariant Q().Owned() && (old(Q()).Sound() ==> Q().Sound()) && |trace| == n && verdict == Again
        invariant Q() == Before(old(Q()), trace, n)
        invariant n > 0 ==> trace[n - 1].verdict == Again
        invariant forall k :: 0 <= k < n ==> IsRound(old(Q()), envs, trace, k)
        invariant sent == Sent(trace)
      {
        ghost var before := Q();
        var packet;
        verdict, packet := PollRound(envs[n]);
        PollsKeepsSound(before, envs[n], Polled(Q(), verdict, packet));
        TraceGrows(old(Q()), envs, trace, Polled(Q(), verdict, packet));
        trace := trace + [Polled(Q(), verdict, packet)];
        if packet.Some? {
          sent := sent + [packet.value];
        }
        if verdict != Again {
          return;
        }
      }
    }
  }

  // ----- What a round does, by the entry it looks at and its record

  /** Unsent entries go first, then the earliest time, then the lowest id. */
  ghost predicate GoesFirst(a: SendRecordId, b: SendRecordId) {
    && (b.tries == 0 ==> a.tries == 0)
    && ((a.tries == 0 <==> b.tries == 0) ==>
          a.last < b.last || (a.last == b.last && a.id.part.Full() <= b.id.part.Full()))
  }

  ghost predicate Foremost(heap: seq<SendRecordId>, i: nat) {
    i < |heap| && forall j :: 0 <= j < |heap| ==> GoesFirst(heap[i], heap[j])
  }

  /** The record is the same in both, or in neither. */
  ghost predicate Alike(q: Queues, q': Queues, id: PacketId) {
    (q'.Live(id) <==> q.Live(id)) && (q.Live(id) ==> q'.Record(id) == q.Record(id))
  }

  /** Entry and record say that the packet was sent now, once more; all other records stay. A first transmission
      leaves the rest of the heap, a later one leaves a rebuilt heap. */
  ghost predicate SentNow(q: Queues, i: nat, env: Env, q': Queues)
    requires i < |q.heap|
  {
    var entry := q.heap[i];
    var again := SendRecordId(env.now, entry.tries + 1, entry.id);
    && q.Live(entry.id) && q'.Live(entry.id)
    && q'.Record(entry.id) == SendRecord(q.Record(entry.id).sent, again, q.Record(entry.id).packet)
    && (forall other: PacketId :: other != entry.id ==> Alike(q, q', other))
    && if entry.tries == 0 then q'.heap == q.heap[i := again] && q'.cursor == q.cursor
       else q' == q'.Rebuild(env.window)
  }

  /** The round looked at entry `i`. */
  ghost predicate RoundIs(q: Queues, i: nat, env: Env, r: Polled)
    requires i < |q.heap|
  {
    var entry := q.heap[i];
    var live := q.Live(entry.id);
    var due := live && (entry.tries == 0 || entry.last <= env.threshold);
    var overdue := due && env.now - q.Record(entry.id).sent > env.timeout;
    && (r.verdict == TimedOut <==> overdue)
    && (r.verdict == Blocked <==> due && !overdue && env.socket == Pending)
    && (r.verdict == SocketError <==> due && !overdue && env.socket == Broken)
    && (r.verdict == NotDue <==> live && !due && !env.timerFired)
    && r.verdict != Idle
    && (r.sent.Some? <==> due && !overdue && env.socket == Ready)
    && (r.sent.Some? ==> r.sent.value == q.Record(entry.id).packet && SentNow(q, i, env, r.queues))
    && (live && r.sent.None? ==> r.queues == q)
    && (!live ==> r.queues == Queues(q.heap[..i] + q.heap[i + 1..], q.full, q.cursor).FillUp(env.window))
  }

  ghost predicate RoundMeans(q: Queues, env: Env, r: Polled) {
    if q.heap == [] then r == Polled(q, Idle, None) else exists i: nat :: Foremost(q.heap, i) && RoundIs(q, i, env, r)
  }

  lemma {:induction false} TopIsForemost(heap: seq<SendRecordId>, i: nat)
    ensures Top(heap, i) <==> Foremost(heap, i)
  {
    if i < |heap| {
      forall j | 0 <= j < |heap|
        ensures Beats(heap, i, j) <==> GoesFirst(heap[i], heap[j])
      {
        OrderIsNumeric(heap[i].id.part, heap[j].id.part);
        OrderIsNumeric(heap[j].id.part, heap[i].id.part);
        FullInjective(heap[i].id.part, heap[j].id.part);
      }
    }
  }

  lemma {:induction false} FillKeepsRecords(q: Queues, n: nat)
    ensures q.Fill(n).full == q.full
    decreases n
  {
    if n > 0 && !q.NothingLeft() {
      FillKeepsRecords(q.Push(q.Pick()), n - 1);
    }
  }

  /** A rebuild depends on the records only. */
  lemma {:induction false} RebuildIsRebuilt(q: Queues, window: nat, q': Queues)
    requires q'.full == q.full
    ensures q.Rebuild(window).full == q.full && q'.Rebuild(window) == q.Rebuild(window)
  {
    FillKeepsRecords(Queues([], q.full, PerKind(PartialPacketId(0, 0), PartialPacketId(0, 0), PartialPacketId(0, 0))),
                     window);
  }

  lemma {:induction false} AlikeOfKind(q: Queues, q': Queues, kind: Kind)
    requires forall id: PacketId :: id.kind == kind ==> Alike(q, q', id)
    ensures q'.full.Get(kind) == q.full.Get(kind)
  {
    forall part
      ensures part in q'.full.Get(kind) <==> part in q.full.Get(kind)
      ensures part in q.full.Get(kind) ==> q'.full.Get(kind)[part] == q.full.Get(kind)[part]
    {
      assert Alike(q, q', PacketId(kind, part));
    }
  }

  lemma {:induction false} AlikeIsSame(q: Queues, q': Queues)
    requires forall id: PacketId :: Alike(q, q', id)
    ensures q'.full == q.full
  {
    AlikeOfKind(q, q', Init);
    AlikeOfKind(q, q', Command);
    AlikeOfKind(q, q', CommandLow);
  }

  lemma {:induction false} TouchedRecords(q: Queues, i: nat, now: nat)
    requires i < |q.heap| && q.Live(q.heap[i].id)
    ensures var touched, entry := q.Touch(i, now), q.heap[i];
            && touched.Live(entry.id)
            && touched.Record(entry.id) ==
               SendRecord(q.Record(entry.id).sent, SendRecordId(now, entry.tries + 1, entry.id),
                          q.Record(entry.id).packet)
            && forall other: PacketId :: other != entry.id ==> Alike(q, touched, other)
  {
  }

  lemma {:induction false} TouchIsSent(q: Queues, i: nat, env: Env, q': Queues)
    requires i < |q.heap| && q.Live(q.heap[i].id)
    ensures var touched := q.Touch(i, env.now);
            q' == (if q.heap[i].tries == 0 then touched else touched.Rebuild(env.window)) <==> SentNow(q, i, env, q')
  {
    var touched, entry := q.Touch(i, env.now), q.heap[i];
    RebuildIsRebuilt(touched, env.window, touched);
    RebuildIsRebuilt(touched, env.window, touched.Rebuild(env.window));
    TouchedRecords(q, i, env.now);
    if SentNow(q, i, env, q') {
      forall id: PacketId
        ensures Alike(touched, q', id)
      {
        assert id != entry.id ==> Alike(q, q', id) && Alike(q, touched, id);
      }
      AlikeIsSame(touched, q');
      RebuildIsRebuilt(touched, env.window, q');
    }
    if q' == (if entry.tries == 0 then touched else touched.Rebuild(env.window)) {
      forall id: PacketId | id != entry.id
        ensures Alike(q, q', id)
      {
        assert Alike(q, touched, id);
      }
    }
  }

  lemma {:induction false} PollIsRound(q: Queues, i: nat, env: Env, r: Polled)
    requires i < |q.heap|
    ensures r == q.Poll(i, env) <==> RoundIs(q, i, env, r)
  {
    if q.Live(q.heap[i].id) {
      TouchIsSent(q, i, env, r.queues);
    }
  }

  /** What polling does, exactly: it looks at a foremost entry, gives up if its packet is overdue for an
      acknowledgement, and else sends it if it is due. */
  lemma {:induction false} PollMeansExactly(q: Queues, env: Env, r: Polled)
    ensures q.PollsTo(env, r) <==> RoundMeans(q, env, r)
  {
    forall i: nat | i < |q.heap|
      ensures q.IsTop(i) && r == q.Poll(i, env) <==> Foremost(q.heap, i) && RoundIs(q, i, env, r)
    {
      TopIsForemost(q.heap, i);
      PollIsRound(q, i, env, r);
    }
  }

  /** The queues before round `k` of the poll loop. */
  ghost function Before(start: Queues, trace: seq<Polled>, k: nat): Queues
    requires k <= |trace|
  {
    if k == 0 then start else trace[k - 1].queues
  }

  /** Round `k` does what a round does, and all rounds before it asked for another one. */
  ghost predicate IsRound(start: Queues, envs: seq<Env>, trace: seq<Polled>, k: nat)
    requires k < |trace| <= |envs|
  {
    RoundMeans(Before(start, trace, k), envs[k], trace[k]) && (k > 0 ==> trace[k - 1].verdict == Again)
  }

  /** The packets sent in a run of the poll loop. */
  ghost function Sent(trace: seq<Polled>): seq<OutUdpPacket>
    decreases |trace|
  {
    if trace == [] then []
    else
      var n := |trace| - 1;
      Sent(trace[..n]) + if trace[n].sent.Some? then [trace[n].sent.value] else []
  }

  lemma {:induction false} TraceGrows(start: Queues, envs: seq<Env>, trace: seq<Polled>, p: Polled)
    requires |trace| < |envs| && RoundMeans(Before(start, trace, |trace|), envs[|trace|], p)
    requires trace != [] ==> trace[|trace| - 1].verdict == Again
    requires forall k :: 0 <= k < |trace| ==> IsRound(start, envs, trace, k)
    ensures forall k :: 0 <= k <= |trace| ==> IsRound(start, envs, trace + [p], k)
    ensures Sent(trace + [p]) == Sent(trace) + if p.sent.Some? then [p.sent.value] else []
  {
    assert (trace + [p])[..|trace|] == trace;
    forall k | 0 <= k <= |trace|
      ensures IsRound(start, envs, trace + [p], k)
    {
      assert k < |trace| ==> IsRound(start, envs, trace, k);
    }
  }

  lemma {:induction false} TopExists(heap: seq<SendRecordId>)
    requires heap != []
    ensures exists i: nat :: i < |heap| && Top(heap, i)
    decreases |heap|
  {
    var n := |heap| - 1;
    if n == 0 {
      assert Beats(heap, 0, 0);
      assert Top(heap, 0);
    } else {
      var rest := heap[..n];
      TopExists(rest);
      var i: nat :| i < n && Top(rest, i);
      var top := if heap[i].AtLeast(heap[n]) then i else n;
      forall j | 0 <= j < |heap|
        ensures Beats(heap, top, j)
      {
        assert j < n ==> Beats(rest, i, j);
        UrgencyIsTotal(heap[i], heap[n], heap[j]);
        UrgencyIsTotal(heap[n], heap[i], heap[j]);
      }
      assert Top(heap, top);
    }
  }

  /** The order of the heap is a total preorder. */
  lemma {:induction false} UrgencyIsTotal(a: SendRecordId, b: SendRecordId, c: SendRecordId)
    ensures a.AtLeast(b) || b.AtLeast(a)
    ensures a.AtLeast(b) && b.AtLeast(c) ==> a.AtLeast(c)
  {
    OrderIsNumeric(a.id.part, b.id.part);
    OrderIsNumeric(b.id.part, a.id.part);
    OrderIsNumeric(b.id.part, c.id.part);
    OrderIsNumeric(a.id.part, c.id.part);
  }

  lemma {:induction false} SameRecordsOwned(q: Queues, q': Queues)
    requires q.Owned() && q'.full == q.full
    ensures q'.Owned()
  {
    assert forall id :: q.Owns(id) ==> q'.Owns(id);
  }

  lemma {:induction false} TouchKeepsOwned(q: Queues, i: nat, now: nat, q': Queues)
    requires q.Owned() && i < |q.heap| && q.Live(q.heap[i].id) && q' == q.Touch(i, now)
    ensures q'.Owned()
  {
    forall id
      ensures q'.Owns(id)
    {
      assert q.Owns(id);
    }
  }

  lemma {:induction false} PollKeepsOwned(q: Queues, i: nat, env: Env)
    requires q.Owned() && i < |q.heap|
    ensures q.Poll(i, env).queues.Owned()
  {
    if !q.Live(q.heap[i].id) {
      var popped := q.Pop(i);
      SameRecordsOwned(q, popped);
      FillAdds(popped, if |popped.heap| < env.window then env.window - |popped.heap| else 0);
    } else {
      TouchKeepsOwned(q, i, env.now, q.Touch(i, env.now));
      RebuildMakesValid(q.Touch(i, env.now), env.window);
    }
  }

  lemma {:induction false} PollsKeepsSound(q: Queues, env: Env, r: Polled)
    requires q.Owned() && q.PollsTo(env, r)
    ensures r.queues.Owned() && (q.Sound() ==> r.queues.Sound())
  {
    if q.heap != [] {
      var i: nat :| q.IsTop(i) && r == q.Poll(i, env);
      PollKeepsOwned(q, i, env);
      if q.Sound() {
        PollKeepsSound(q, i, env);
      }
    }
  }
}

/** The order in which the records of all types enter the heap. */
module FillOrder {
  import opened PacketIds
  import opened Wrappers
  import opened Numbering
  import opened Resend
  import opened ResendRuns

  ghost predicate Waits(q: Queues, id: PacketId) {
    id.part in q.Rest(id.kind)
  }

  /** The one that was submitted later, or at the same time for a lower type. */
  ghost predicate Newer(q: Queues, a: PacketId, b: PacketId)
    requires q.Live(a) && q.Live(b)
  {
    var s, t := q.Record(a).sent, q.Record(b).sent;
    s > t || (s == t && Index(a.kind) <= Index(b.kind))
  }

  ghost predicate NewerUpTo(q: Queues, a: PacketId, b: PacketId)
    requires Waits(q, b)
  {
    forall part :: part in q.Rest(a.kind) && part.AtMost(a.part) ==> Newer(q, PacketId(a.kind, part), b)
  }

  /** A record of another type goes first when it and all before it in its type are newer than some
      record that `b` has to wait for. */
  ghost predicate HoldsUp(q: Queues, a: PacketId, b: PacketId, pivot: PartialPacketId) {
    pivot in q.Rest(b.kind) && pivot.AtMost(b.part) && NewerUpTo(q, a, PacketId(b.kind, pivot))
  }

  /** Record `a` enters the heap before `b`. */
  ghost predicate Precedes(q: Queues, a: PacketId, b: PacketId) {
    if a.kind == b.kind then a.part.Less(b.part) else exists pivot :: HoldsUp(q, a, b, pivot)
  }

  ghost function IdsOf(kind: Kind, parts: set<PartialPacketId>): set<PacketId> {
    set part | part in parts :: PacketId(kind, part)
  }

  /** The waiting records that enter the heap before `id`. */
  ghost function Earlier(q: Queues, id: PacketId): set<PacketId> {
    var waiting := IdsOf(Init, q.Rest(Init)) + IdsOf(Command, q.Rest(Command)) + IdsOf(CommandLow, q.Rest(CommandLow));
    set a | a in waiting && Precedes(q, a, id)
  }

  lemma {:induction false} InEarlier(q: Queues, id: PacketId, a: PacketId)
    ensures a in Earlier(q, id) <==> Waits(q, a) && Precedes(q, a, id)
  {
    match a.kind
    case Init => assert a == PacketId(Init, a.part);
    case Command => assert a == PacketId(Command, a.part);
    case CommandLow => assert a == PacketId(CommandLow, a.part);
  }

  // ----- One push

  lemma {:induction false} PushTakesFirst(q: Queues, kind: Kind, q': Queues, pushed: PacketId)
    requires q.Owned() && q.IsPick(kind) && q' == q.Push(kind) && pushed == PacketId(kind, First(q.Rest(kind)))
    ensures q'.Owned() && q'.full == q.full && Waits(q, pushed)
    ensures forall part :: part in q.Rest(kind) ==> pushed.part.AtMost(part)
    ensures forall id: PacketId :: Waits(q', id) <==> Waits(q, id) && id != pushed
  {
    PushPasses(q, kind, q', pushed);
    forall id: PacketId
      ensures Waits(q', id) <==> Waits(q, id) && id != pushed
    {
      assert Waits(q, id) <==> q.Live(id) && !q.Passed(id);
      assert Waits(q', id) <==> q'.Live(id) && !q'.Passed(id);
      OrderIsNumeric(id.part, pushed.part);
      OrderIsNumeric(pushed.part, id.part);
      FullInjective(id.part, pushed.part);
    }
  }

  /** The pick is newer than the first record of any other type, and not the other way around. */
  lemma {:induction false} PickIsNewest(q: Queues, kind: Kind, pushed: PacketId, other: PacketId)
    requires q.IsPick(kind) && pushed == PacketId(kind, First(q.Rest(kind))) && other.kind != kind
    requires Waits(q, other) && other.part == First(q.Rest(other.kind))
    ensures Newer(q, pushed, other) && !Newer(q, other, pushed)
  {
    assert q.PreferredTo(kind, other.kind);
    assert Index(kind) != Index(other.kind);
  }

  lemma {:induction false} PushedIsEarlier(q: Queues, kind: Kind, pushed: PacketId, id: PacketId)
    requires q.IsPick(kind) && pushed == PacketId(kind, First(q.Rest(kind))) && Waits(q, id) && id != pushed
    ensures Precedes(q, pushed, id)
  {
    if id.kind == kind {
      OrderIsNumeric(pushed.part, id.part);
      FullInjective(pushed.part, id.part);
      assert pushed.part.AtMost(id.part);
    } else {
      var head := PacketId(id.kind, First(q.Rest(id.kind)));
      PickIsNewest(q, kind, pushed, head);
      forall part | part in q.Rest(kind) && part.AtMost(pushed.part)
        ensures Newer(q, PacketId(kind, part), head)
      {
        OrderIsNumeric(part, pushed.part);
        OrderIsNumeric(pushed.part, part);
        FullInjective(part, pushed.part);
        assert pushed.part.AtMost(part);
      }
      assert HoldsUp(q, pushed, id, head.part);
    }
  }

  lemma {:induction false} FirstIsNewerToo(q: Queues, a: PacketId, b: PacketId, pivot: PartialPacketId, head: PacketId)
    requires Waits(q, a) && HoldsUp(q, a, b, pivot) && head == PacketId(a.kind, First(q.Rest(a.kind)))
    ensures Newer(q, head, PacketId(b.kind, pivot))
  {
    assert head.part.AtMost(a.part);
  }

  /** What holds up a record of the picked type is not the pick. */
  lemma {:induction false} PickHoldsUpNone(
      q: Queues, kind: Kind, pushed: PacketId, a: PacketId, b: PacketId, pivot: PartialPacketId)
    requires q.IsPick(kind) && pushed == PacketId(kind, First(q.Rest(kind)))
    requires Waits(q, a) && a.kind != kind == b.kind && HoldsUp(q, a, b, pivot)
    ensures pivot != pushed.part
  {
    var head := PacketId(a.kind, First(q.Rest(a.kind)));
    PickIsNewest(q, kind, pushed, head);
    FirstIsNewerToo(q, a, b, pivot, head);
  }

  lemma {:induction false} NewerIsTotal(q: Queues, a: PacketId, b: PacketId, c: PacketId)
    requires q.Live(a) && q.Live(b) && q.Live(c)
    ensures Newer(q, a, b) || Newer(q, b, a)
    ensures Newer(q, a, b) && Newer(q, b, c) ==> Newer(q, a, c)
  {
  }

  /** What a push leaves waiting keeps its order. */
  lemma {:induction false} OrderStays(
      q: Queues, kind: Kind, q': Queues, pushed: PacketId, a: PacketId, id: PacketId)
    requires q.Owned() && q.IsPick(kind) && q' == q.Push(kind) && pushed == PacketId(kind, First(q.Rest(kind)))
    requires Waits(q, a) && a != pushed && Waits(q, id) && id != pushed && a.kind != id.kind
    ensures Precedes(q', a, id) <==> Precedes(q, a, id)
  {
    PushTakesFirst(q, kind, q', pushed);
    if Precedes(q, a, id) {
      var pivot :| HoldsUp(q, a, id, pivot);
      if kind == id.kind {
        PickHoldsUpNone(q, kind, pushed, a, id, pivot);
      }
      HoldsUpAfter(q, q', pushed, a, id, pivot);
    }
    if Precedes(q', a, id) {
      var pivot :| HoldsUp(q', a, id, pivot);
      HeldUpBefore(q, kind, q', pushed, a, id, pivot);
    }
  }

  lemma {:induction false} HoldsUpAfter(
      q: Queues, q': Queues, pushed: PacketId, a: PacketId, id: PacketId, pivot: PartialPacketId)
    requires q'.full == q.full && HoldsUp(q, a, id, pivot) && PacketId(id.kind, pivot) != pushed
    requires forall other: PacketId :: Waits(q', other) <==> Waits(q, other) && other != pushed
    ensures HoldsUp(q', a, id, pivot)
  {
    assert Waits(q', PacketId(id.kind, pivot));
    forall part | part in q'.Rest(a.kind) && part.AtMost(a.part)
      ensures Newer(q', PacketId(a.kind, part), PacketId(id.kind, pivot))
    {
      assert Waits(q', PacketId(a.kind, part));
    }
  }

  lemma {:induction false} HeldUpBefore(
      q: Queues, kind: Kind, q': Queues, pushed: PacketId, a: PacketId, id: PacketId, pivot: PartialPacketId)
    requires q.IsPick(kind) && pushed == PacketId(kind, First(q.Rest(kind))) && q'.full == q.full
    requires forall other: PacketId :: Waits(q', other) <==> Waits(q, other) && other != pushed
    requires Waits(q, a) && a != pushed && Waits(q, id) && a.kind != id.kind && HoldsUp(q', a, id, pivot)
    ensures Precedes(q, a, id)
  {
    var held := PacketId(id.kind, pivot);
    assert Waits(q', held) && Waits(q, held);
    if kind == a.kind && !Newer(q, pushed, held) {
      var head := PacketId(id.kind, First(q.Rest(id.kind)));
      PickIsNewest(q, kind, pushed, head);
      forall part | part in q.Rest(a.kind) && part.AtMost(a.part)
        ensures Newer(q, PacketId(a.kind, part), head)
      {
        assert Waits(q', PacketId(a.kind, part)) || PacketId(a.kind, part) == pushed;
        NewerThanHead(q, q', pushed, PacketId(a.kind, part), held, head);
      }
      assert head.part.AtMost(id.part);
      assert HoldsUp(q, a, id, head.part);
    } else {
      forall part | part in q.Rest(a.kind) && part.AtMost(a.part)
        ensures Newer(q, PacketId(a.kind, part), held)
      {
        assert Waits(q', PacketId(a.kind, part)) || PacketId(a.kind, part) == pushed;
      }
      assert HoldsUp(q, a, id, pivot);
    }
  }

  lemma {:induction false} NewerThanHead(
      q: Queues, q': Queues, pushed: PacketId, part: PacketId, held: PacketId, head: PacketId)
    requires q'.full == q.full && q.Live(pushed) && q.Live(part) && q.Live(held) && q.Live(head)
    requires part == pushed || Newer(q', part, held)
    requires !Newer(q, pushed, held) && Newer(q, pushed, head)
    ensures Newer(q, part, head)
  {
    NewerIsTotal(q, pushed, held, head);
    NewerIsTotal(q, held, pushed, head);
    NewerIsTotal(q, part, held, pushed);
    NewerIsTotal(q, part, pushed, head);
  }

  lemma {:induction false} PushShrinksEarlier(q: Queues, kind: Kind, q': Queues, pushed: PacketId, id: PacketId)
    requires q.Owned() && q.IsPick(kind) && q' == q.Push(kind) && pushed == PacketId(kind, First(q.Rest(kind)))
    requires Waits(q, id)
    ensures id == pushed ==> Earlier(q, id) == {}
    ensures id != pushed ==> pushed in Earlier(q, id) && Earlier(q', id) == Earlier(q, id) - {pushed}
  {
    PushTakesFirst(q, kind, q', pushed);
    if id == pushed {
      forall a
        ensures a !in Earlier(q, id)
      {
        InEarlier(q, id, a);
        if Waits(q, a) {
          PickIsFirst(q, kind, pushed, a);
        }
      }
    } else {
      PushedIsEarlier(q, kind, pushed, id);
      InEarlier(q, id, pushed);
      forall a
        ensures a in Earlier(q', id) <==> a in Earlier(q, id) - {pushed}
      {
        InEarlier(q, id, a);
        InEarlier(q', id, a);
        if Waits(q, a) && a != pushed && a.kind != id.kind {
          OrderStays(q, kind, q', pushed, a, id);
        }
      }
    }
  }

  lemma {:induction false} NotHeldUp(q: Queues, kind: Kind, pushed: PacketId, a: PacketId, pivot: PartialPacketId)
    requires q.IsPick(kind) && pushed == PacketId(kind, First(q.Rest(kind))) && Waits(q, a) && a.kind != kind
    ensures !HoldsUp(q, a, pushed, pivot)
  {
    if pivot in q.Rest(kind) && pivot.AtMost(pushed.part) {
      assert pushed.part.AtMost(pivot);
      OrderIsNumeric(pivot, pushed.part);
      OrderIsNumeric(pushed.part, pivot);
      FullInjective(pivot, pushed.part);
      var head := PacketId(a.kind, First(q.Rest(a.kind)));
      PickIsNewest(q, kind, pushed, head);
      assert head.part.AtMost(a.part);
    }
  }

  /** Nothing enters before the pick. */
  lemma {:induction false} PickIsFirst(q: Queues, kind: Kind, pushed: PacketId, a: PacketId)
    requires q.IsPick(kind) && pushed == PacketId(kind, First(q.Rest(kind))) && Waits(q, a)
    ensures !Precedes(q, a, pushed)
  {
    if a.kind == kind {
      assert pushed.part.AtMost(a.part);
      OrderIsNumeric(pushed.part, a.part);
      OrderIsNumeric(a.part, pushed.part);
    } else {
      forall pivot
        ensures !HoldsUp(q, a, pushed, pivot)
      {
        NotHeldUp(q, kind, pushed, a, pivot);
      }
    }
  }

  // ----- A whole fill

  ghost predicate Fills(q: Queues, n: nat, r: Queues) {
    r == q.Fill(n)
  }

  lemma {:induction false} FillKeepsTaken(q: Queues, n: nat, id: PacketId, r: Queues)
    requires q.Owned() && !Waits(q, id) && Fills(q, n, r)
    ensures !Waits(r, id)
    decreases n
  {
    if n > 0 && !q.NothingLeft() {
      var kind := q.Pick();
      PushTakesFirst(q, kind, q.Push(kind), PacketId(kind, First(q.Rest(kind))));
      FillKeepsTaken(q.Push(kind), n - 1, id, r);
    }
  }

  lemma {:induction false} FillUnfolds(
      q: Queues, n: nat, id: PacketId, r: Queues) returns (kind: Kind, q': Queues, pushed: PacketId)
    requires q.Owned() && Waits(q, id) && n > 0 && Fills(q, n, r)
    ensures q.IsPick(kind) && q' == q.Push(kind) && pushed == PacketId(kind, First(q.Rest(kind)))
    ensures Fills(q', n - 1, r)
  {
    assert q.Rest(id.kind) != {};
    kind := q.Pick();
    q', pushed := q.Push(kind), PacketId(kind, First(q.Rest(kind)));
  }

  lemma {:induction false} OneLess<T>(all: set<T>, x: T, rest: set<T>)
    requires x in all && rest == all - {x}
    ensures |all| == |rest| + 1
  {
  }

  lemma {:induction false} OnePush(q: Queues, kind: Kind, q': Queues, pushed: PacketId, id: PacketId)
    requires q.Owned() && q.IsPick(kind) && q' == q.Push(kind) && pushed == PacketId(kind, First(q.Rest(kind)))
    requires Waits(q, id)
    ensures q'.Owned()
    ensures |Earlier(q, id)| == 0 ==> !Waits(q', id)
    ensures |Earlier(q, id)| > 0 ==> Waits(q', id) && |Earlier(q', id)| == |Earlier(q, id)| - 1
  {
    PushTakesFirst(q, kind, q', pushed);
    PushShrinksEarlier(q, kind, q', pushed, id);
    if id != pushed {
      OneLess(Earlier(q, id), pushed, Earlier(q', id));
    }
  }

  lemma {:induction false} OneStep(q: Queues, n: nat, id: PacketId, ahead: nat, r: Queues) returns (q': Queues)
    requires q.Owned() && Waits(q, id) && ahead == |Earlier(q, id)| && n > 0 && Fills(q, n, r)
    ensures Fills(q', n - 1, r) && q'.Owned()
    ensures ahead == 0 ==> !Waits(q', id)
    ensures ahead > 0 ==> Waits(q', id) && |Earlier(q', id)| == ahead - 1
  {
    var kind, pushed;
    kind, q', pushed := FillUnfolds(q, n, id, r);
    OnePush(q, kind, q', pushed, id);
  }

  /** A fill of `n` records takes a waiting record if and only if fewer than `n` enter before it. */
  lemma {:induction false} FillTakesExactly(q: Queues, n: nat, id: PacketId, ahead: nat, r: Queues)
    requires q.Owned() && Waits(q, id) && ahead == |Earlier(q, id)| && Fills(q, n, r)
    ensures !Waits(r, id) <==> ahead < n
    decreases n
  {
    if n > 0 {
      var q' := OneStep(q, n, id, ahead, r);
      if ahead == 0 {
        FillKeepsTaken(q', n - 1, id, r);
      } else {
        FillTakesExactly(q', n - 1, id, ahead - 1, r);
      }
    }
  }

  /** A live record of any type is in a rebuilt heap if and only if fewer records than the window holds
      enter before it. That is a condition on the records alone. */
  lemma {:induction false} RebuildTakesExactly(q: Queues, window: nat, id: PacketId)
    requires q.Owned() && q.Live(id)
    ensures q.Rebuild(window).InHeap(id) <==> |Earlier(Cleared(q), id)| < window
  {
    var r := q.Rebuild(window);
    ClearedIsValid(q);
    RebuildMakesValid(q, window);
    assert Waits(Cleared(q), id);
    FillTakesExactly(Cleared(q), window, id, |Earlier(Cleared(q), id)|, Cleared(q).Fill(window));
    if r.InHeap(id) {
      var i :| 0 <= i < |r.heap| && r.heap[i].id == id;
      assert r.Entry(i);
    }
    assert Waits(r, id) <==> !r.Passed(id);
  }

  /** In particular the record with the lowest number of its type. Of its own type, only the successors of
      the last id of a generation enter before it. */
  lemma {:induction false} OldestIsTakenExactly(q: Queues, window: nat, id: PacketId)
    requires q.Owned() && q.Live(id)
    requires forall other: PacketId :: q.Live(other) && other.kind == id.kind ==>
               NumberOf(id.part) <= NumberOf(other.part)
    ensures q.Rebuild(window).InHeap(id) <==> |Earlier(Cleared(q), id)| < window
    ensures forall a :: a in Earlier(Cleared(q), id) && a.kind == id.kind ==>
              id.part.packet == 0xffff && a.part.packet != 0xffff && a.part.generation == id.part.generation
  {
    RebuildTakesExactly(q, window, id);
    forall a | a in Earlier(Cleared(q), id) && a.kind == id.kind
      ensures id.part.packet == 0xffff && a.part.packet != 0xffff && a.part.generation == id.part.generation
    {
      InEarlier(Cleared(q), id, a);
      assert q.Live(a);
      NumberInjective(id.part, a.part);
      OrderIsNumeric(a.part, id.part);
      OrderIsNumeric(id.part, a.part);
      LaterButLower(id.part, a.part);
    }
  }
}

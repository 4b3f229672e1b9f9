/** What the reorder queue guarantees about the order of delivery. */
module Reorder {
  import opened PacketIds
  import opened Wrappers
  import opened Fragments
  import opened Receiver

  ghost predicate IsLater(from: u16, q: seq<Packet>, i: nat)
    requires i < |q|
  {
    1 <= Ahead(from, q[i].id) < MAX_QUEUE_LEN
  }

  ghost predicate Differ(q: seq<Packet>, i: nat, j: nat)
    requires i < |q| && j < |q|
  {
    q[i].id != q[j].id
  }

  /** All queued ids are distinct and strictly between `from` and `from + 200`,
      so `from` itself is not queued: nothing deliverable waits. */
  ghost predicate Waiting(from: u16, q: seq<Packet>) {
    && (forall i :: 0 <= i < |q| ==> IsLater(from, q, i))
    && (forall i, j :: 0 <= i < j < |q| ==> Differ(q, i, j))
  }

  predicate Queued(q: seq<Packet>, id: u16) {
    exists i :: 0 <= i < |q| && q[i].id == id
  }

  lemma {:induction false} AheadOfSucc(from: u16, id: u16)
    ensures Ahead(from, id) == 1 <==> id == Succ(from)
    ensures Ahead(from, id) >= 1 ==> Ahead(Succ(from), id) == Ahead(from, id) - 1
  {
  }

  lemma {:induction false} WaitingAfterSucc(from: u16, q: seq<Packet>)
    requires Waiting(from, q)
    ensures var i := Find(q, Succ(from));
            Waiting(Succ(from), if i == |q| then q else Without(q, i))
  {
    var i := Find(q, Succ(from));
    var q' := if i == |q| then q else Without(q, i);
    forall j | 0 <= j < |q'|
      ensures IsLater(Succ(from), q', j)
    {
      var k := if j < i then j else j + 1;
      assert IsLater(from, q, k);
      assert k < i || Differ(q, i, k);
      AheadOfSucc(from, q[k].id);
    }
    forall j, k | 0 <= j < k < |q'|
      ensures Differ(q', j, k)
    {
      assert Differ(q, if j < i then j else j + 1, if k < i then k else k + 1);
    }
  }

  lemma {:induction false} MultisetWithout(q: seq<Packet>, i: nat)
    requires i < |q|
    ensures multiset(q) == multiset{q[i]} + multiset(Without(q, i))
  {
    assert q == q[..i] + [q[i]] + q[i + 1..];
  }

  datatype Drained = Drained(run: seq<Packet>, rest: seq<Packet>)

  /** The queued packets that become deliverable once `from` is, and what stays queued. */
  function Drain(q: seq<Packet>, from: u16): (d: Drained)
    ensures |d.run| + |d.rest| == |q|
    decreases |q|
  {
    var i := Find(q, Succ(from));
    if i == |q| then Drained([], q)
    else
      var d := Drain(Without(q, i), Succ(from));
      Drained([q[i]] + d.run, d.rest)
  }

  lemma {:induction false} DrainTakes(q: seq<Packet>, from: u16, i: nat, d: Drained, d': Drained)
    requires i == Find(q, Succ(from)) < |q| && d == Drain(q, from) && d' == Drain(Without(q, i), Succ(from))
    ensures d == Drained([q[i]] + d'.run, d'.rest)
  {
  }

  /** All queued ids are less than `limit` ahead. */
  ghost predicate Within(from: u16, q: seq<Packet>, limit: int) {
    forall i :: 0 <= i < |q| ==> IsWithin(from, q, i, limit)
  }

  ghost predicate IsWithin(from: u16, q: seq<Packet>, i: nat, limit: int)
    requires i < |q|
  {
    Ahead(from, q[i].id) < limit
  }

  lemma {:induction false} WithinAfterSucc(from: u16, q: seq<Packet>, i: nat, limit: int)
    requires Waiting(from, q) && Within(from, q, limit) && i < |q|
    ensures Within(Succ(from), Without(q, i), limit - 1)
  {
    var q', less := Without(q, i), limit - 1;
    forall j | 0 <= j < |q'|
      ensures IsWithin(Succ(from), q', j, less)
    {
      var k := if j < i then j else j + 1;
      assert IsLater(from, q, k) && IsWithin(from, q, k, limit);
      AheadOfSucc(from, q[k].id);
    }
  }

  /** The ids of the run follow one by one. */
  ghost predicate Contiguous(from: u16, run: seq<Packet>) {
    forall i :: 0 <= i < |run| ==> IsNth(from, run, i)
  }

  ghost predicate IsNth(from: u16, run: seq<Packet>, i: nat)
    requires i < |run|
  {
    Ahead(from, run[i].id) == i + 1
  }

  lemma {:induction false} OneMoreIsContiguous(from: u16, p: Packet, run: seq<Packet>)
    requires Contiguous(Succ(from), run) && |run| < 0xfffe && p.id == Succ(from)
    ensures Contiguous(from, [p] + run)
  {
    var all := [p] + run;
    forall i | 0 <= i < |all|
      ensures IsNth(from, all, i)
    {
      if i == 0 {
        AheadOfSucc(from, p.id);
      } else {
        assert IsNth(Succ(from), run, i - 1) && all[i] == run[i - 1];
        AheadOneMore(from, all[i].id, i);
      }
    }
  }

  /** The run that becomes deliverable is contiguous: the next ids, one by one. */
  lemma {:induction false} RunIsContiguous(from: u16, q: seq<Packet>, limit: int)
    requires Waiting(from, q) && Within(from, q, limit) && limit <= MAX_QUEUE_LEN
    ensures var run := Drain(q, from).run;
            (run != [] ==> |run| < limit) && Contiguous(from, run)
    decreases |q|
  {
    var i := Find(q, Succ(from));
    if i < |q| {
      WaitingAfterSucc(from, q);
      WithinAfterSucc(from, q, i, limit);
      RunIsContiguous(Succ(from), Without(q, i), limit - 1);
      DrainTakes(q, from, i, Drain(q, from), Drain(Without(q, i), Succ(from)));
      assert IsWithin(from, q, i, limit);
      AheadOfSucc(from, q[i].id);
      OneMoreIsContiguous(from, q[i], Drain(Without(q, i), Succ(from)).run);
    }
  }

  /** In particular it is shorter than the queue may be. */
  lemma {:induction false} RunIsShort(from: u16, q: seq<Packet>)
    requires Waiting(from, q)
    ensures |Drain(q, from).run| < MAX_QUEUE_LEN
  {
    forall i | 0 <= i < |q|
      ensures IsWithin(from, q, i, MAX_QUEUE_LEN)
    {
      assert IsLater(from, q, i);
    }
    RunIsContiguous(from, q, MAX_QUEUE_LEN);
  }

  /** Nothing is lost or duplicated: what is not taken stays queued. */
  lemma {:induction false} DrainKeepsAll(from: u16, q: seq<Packet>)
    ensures multiset(q) == multiset(Drain(q, from).run) + multiset(Drain(q, from).rest)
    decreases |q|
  {
    var i := Find(q, Succ(from));
    if i < |q| {
      DrainKeepsAll(Succ(from), Without(q, i));
      MultisetWithout(q, i);
    }
  }

  /** What stays is strictly ahead of the new next expected id. */
  lemma {:induction false} RestIsWaiting(from: u16, q: seq<Packet>, next: u16)
    requires Waiting(from, q)
    requires |Drain(q, from).run| < 0xffff && next == WrapAdd(from, 1 + |Drain(q, from).run|)
    ensures Waiting(next, Drain(q, from).rest)
    decreases |q|
  {
    var i := Find(q, Succ(from));
    WaitingAfterSucc(from, q);
    if i < |q| {
      RestIsWaiting(Succ(from), Without(q, i), next);
    }
  }

  lemma {:induction false} AheadOneMore(from: u16, id: u16, j: nat)
    requires 1 <= Ahead(Succ(from), id) == j < 0xffff
    ensures Ahead(from, id) == j + 1
  {
  }

  lemma {:induction false} FeedFirst(lz: QuickLz, buffer: Option<Packet>, p: Packet, rest: seq<Packet>)
    ensures var fed := Feed(lz, buffer, p);
            FeedSeq(lz, buffer, [p] + rest) ==
            if fed.out.Failure? then FedAll(fed.buffer, [], 1, Some(fed.out.error))
            else Before(ToSeq(fed.out.value), 1, FeedSeq(lz, fed.buffer, rest))
  {
    assert ([p] + rest)[1..] == rest;
  }

  /** Handling led to what draining and then reassembling leads to. */
  ghost predicate Agrees(
      next: PartialPacketId, rest: seq<Packet>, fed: FedAll, h: (Channel, Result<seq<Packet>, Error>)) {
    && h.0.buffer == fed.buffer && h.0.next == Forward(next, fed.used)
    && if fed.error.None? then h.1 == Success(fed.outs) && h.0.queue == rest else h.1 == Failure(fed.error.value)
  }

  lemma {:induction false} AgreesEarlier(
      next: PartialPacketId, rest: seq<Packet>, fed: FedAll, h: (Channel, Result<seq<Packet>, Error>),
          outs: seq<Packet>)
    requires Agrees(next.Add(1), rest, fed, h)
    ensures Agrees(next, rest, Before(outs, 1, fed), Earlier(outs, h))
  {
  }

  lemma {:induction false} HandleUnfolds(lz: QuickLz, c: Channel, p: Packet, i: nat, fed: Fed)
    requires p.id == c.next.packet && i == Find(c.queue, Succ(p.id)) && fed == Feed(lz, c.buffer, p)
    ensures fed.out.Failure? ==>
              Handle(lz, c, p) == (Channel(c.next.Add(1), c.queue, fed.buffer), Failure(fed.out.error))
    ensures fed.out.Success? && i == |c.queue| ==>
              Handle(lz, c, p) == (Channel(c.next.Add(1), c.queue, fed.buffer), Success(ToSeq(fed.out.value)))
    ensures fed.out.Success? && i < |c.queue| ==>
              Handle(lz, c, p) ==
              Earlier(ToSeq(fed.out.value),
                      Handle(lz, Channel(c.next.Add(1), Without(c.queue, i), fed.buffer), c.queue[i]))
  {
  }

  /** Handling the expected packet is draining the reorder queue and then reassembling the
      run; if reassembly fails the error is reported and the run stops there. */
  lemma {:induction false} HandleIsDrainThenFeed(lz: QuickLz, c: Channel, p: Packet)
    requires p.id == c.next.packet
    ensures var d := Drain(c.queue, p.id);
            Agrees(c.next, d.rest, FeedSeq(lz, c.buffer, [p] + d.run), Handle(lz, c, p))
    decreases |c.queue|
  {
    var d, fed, i := Drain(c.queue, p.id), Feed(lz, c.buffer, p), Find(c.queue, Succ(p.id));
    FeedFirst(lz, c.buffer, p, d.run);
    HandleUnfolds(lz, c, p, i, fed);
    assert Forward(c.next, 1) == c.next.Add(1) by { assert Forward(c.next.Add(1), 0) == c.next.Add(1); }
    if fed.out.Success? {
      if i < |c.queue| {
        var c', next := Channel(c.next.Add(1), Without(c.queue, i), fed.buffer), c.queue[i];
        HandleIsDrainThenFeed(lz, c', next);
        var d' := Drain(c'.queue, next.id);
        DrainTakes(c.queue, p.id, i, d, d');
        AgreesEarlier(c.next, d.rest, FeedSeq(lz, c'.buffer, d.run), Handle(lz, c', next), ToSeq(fed.out.value));
      } else {
        assert FeedSeq(lz, fed.buffer, d.run) == FedAll(fed.buffer, [], 0, None);
        assert ToSeq(fed.out.value) + [] == ToSeq(fed.out.value);
      }
    }
  }

  /** After a packet has been handled the queue is in order again if and only if the packet
      was not a second copy of one already waiting: the queue never removes duplicates. */
  lemma {:induction false} OrderKeptUnlessDuplicate(lz: QuickLz, c: Channel, p: Packet)
    requires Waiting(c.next.packet, c.queue) && c.next.Full() + 0x1_0000 < 0x1_0000_0000_0000
    requires Handle(lz, c, p).1.Success?
    ensures var c' := Handle(lz, c, p).0;
            Waiting(c'.next.packet, c'.queue) <==> (p.id == c.next.packet || !Queued(c.queue, p.id))
  {
    if p.id == c.next.packet {
      HandleIsDrainThenFeed(lz, c, p);
      RunIsShort(p.id, c.queue);
      RestIsWaiting(p.id, c.queue, WrapAdd(p.id, 1 + |Drain(c.queue, p.id).run|));
      ForwardAdds(c.next, 1 + |Drain(c.queue, p.id).run|);
    } else {
      PushKeepsWaiting(c.next.packet, c.queue, p);
    }
  }

  lemma {:induction false} PushKeepsWaiting(from: u16, q: seq<Packet>, p: Packet)
    requires Waiting(from, q) && 1 <= Ahead(from, p.id) < MAX_QUEUE_LEN
    ensures Waiting(from, q + [p]) <==> !Queued(q, p.id)
  {
    var q' := q + [p];
    if Queued(q, p.id) {
      var i :| 0 <= i < |q| && q[i].id == p.id;
      assert !Differ(q', i, |q|);
    } else {
      forall i | 0 <= i < |q'|
        ensures IsLater(from, q', i)
      {
        assert i < |q| ==> IsLater(from, q, i);
      }
      forall i, j | 0 <= i < j < |q'|
        ensures Differ(q', i, j)
      {
        assert j < |q| ==> Differ(q, i, j);
      }
    }
  }

  /** A packet that arrives twice ahead of its turn is delivered once and stays queued once;
      whenever its predecessor's 16-bit id comes up again, the old copy is delivered again. */
  lemma {:induction false} DuplicateIsDeliveredAgain(
      lz: QuickLz, next: PartialPacketId, later: PartialPacketId, p: Packet, early: Packet, p': Packet)
    requires p.id == next.packet && early.id == Succ(p.id) && Plain(p) && Plain(early)
    requires p'.id == p.id == later.packet && Plain(p')
    ensures var c1 := Handle(lz, Channel(next, [], None), early).0;
            var c2 := Handle(lz, c1, early).0;
            Handle(lz, c2, p) == (Channel(next.Add(1).Add(1), [early], None), Success([p, early]))
    ensures Handle(lz, Channel(later, [early], None), p').1 == Success([p', early])
  {
    OneQueued(lz, Channel(next, [early, early], None), p, early);
    OneQueued(lz, Channel(later, [early], None), p', early);
  }

  lemma {:induction false} OneQueued(lz: QuickLz, c: Channel, p: Packet, early: Packet)
    requires p.id == c.next.packet && early.id == Succ(p.id) && Plain(p) && Plain(early)
    requires c.buffer == None && (c.queue == [early] || c.queue == [early, early])
    ensures Handle(lz, c, p) == (Channel(c.next.Add(1).Add(1), c.queue[1..], None), Success([p, early]))
  {
    var c' := Channel(c.next.Add(1), c.queue[1..], None);
    assert Without(c.queue, 0) == c.queue[1..];
    assert Find(c'.queue, Succ(early.id)) == |c'.queue|;
    assert Handle(lz, c', early) == (Channel(c'.next.Add(1), c'.queue, None), Success([early]));
    assert [p] + [early] == [p, early];
  }
}

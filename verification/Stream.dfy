/** A channel that receives a numbered stream of packets, each any number of times and in any order. */
module Stream {
  import opened PacketIds
  import opened Wrappers
  import opened Fragments
  import opened Receiver
  import opened Reorder

  /** The 16-bit id of packet `k`, the first being number `first`. */
  ghost function IdAt(first: nat, k: nat): u16 {
    Nth(first + k).packet
  }

  ghost predicate Numbered(stream: seq<Packet>, first: nat) {
    forall k :: 0 <= k < |stream| ==> stream[k].id == IdAt(first, k)
  }

  ghost predicate IsCopy(stream: seq<Packet>, done: nat, p: Packet, k: nat) {
    k < |stream| && k < done + MAX_QUEUE_LEN && p == stream[k]
  }

  ghost predicate HasSource(stream: seq<Packet>, done: nat, p: Packet) {
    exists k: nat :: IsCopy(stream, done, p, k)
  }

  /** Whatever waits is a copy of a packet of the stream, none of them far ahead. */
  ghost predicate FromStream(stream: seq<Packet>, done: nat, q: seq<Packet>) {
    forall i :: 0 <= i < |q| ==> HasSource(stream, done, q[i])
  }

  /** The channel has consumed exactly the first `done` packets, and the next one does not wait. */
  ghost predicate Follows(stream: seq<Packet>, first: nat, done: nat, c: Channel) {
    && Numbered(stream, first) && first + |stream| + 0x2_0000 < 0x1_0000_0000_0000
    && done <= |stream| && c.next.Full() == first + done
    && !Queued(c.queue, c.next.packet)
    && FromStream(stream, done, c.queue)
  }

  /** Packet `k` has reached the channel: it is consumed or waits in the queue. */
  ghost predicate Received(stream: seq<Packet>, done: nat, c: Channel, k: nat)
    requires k < |stream|
  {
    k < done || (k < done + MAX_QUEUE_LEN && stream[k] in c.queue)
  }

  // ----- Ids along the stream

  /** How far ahead the id of a later packet of the stream is. */
  lemma {:induction false} AheadInStream(next: PartialPacketId, f: nat)
    requires next.Full() <= f < next.Full() + 0x1_0000 && f < 0x1_0000_0000_0000
    ensures Ahead(next.packet, Nth(f).packet) == f - next.Full()
  {
  }

  /** Within a cycle all ids differ. */
  lemma {:induction false} IdsDiffer(first: nat, a: nat, b: nat)
    requires a < b < a + 0x1_0000 && first + b < 0x1_0000_0000_0000
    ensures IdAt(first, a) != IdAt(first, b)
  {
    AheadInStream(Nth(first + a), first + b);
  }

  // ----- What one packet releases

  lemma {:induction false} FindOther(q: seq<Packet>, i: nat, id: u16)
    requires i < |q| && q[i].id != id
    ensures Queued(Without(q, i), id) <==> Queued(q, id)
    ensures Queued(q, id) ==> Find(Without(q, i), id) < |q| - 1 && Find(q, id) < |q| &&
                              Without(q, i)[Find(Without(q, i), id)] == q[Find(q, id)]
  {
    var q' := Without(q, i);
    if Queued(q, id) {
      var a, b := Find(q, id), Find(q', id);
      assert a < |q|;
      assert q'[if a < i then a else a - 1] == q[a];
      assert b < |q'|;
      assert q'[b] == q[if b < i then b else b + 1];
    }
  }

  /** The id `n` further on, at most once around the cycle. */
  function Later(from: u16, n: nat): u16
    requires n <= 0x1_0000
  {
    if from + n >= 0x1_0000 then from + n - 0x1_0000 else from + n
  }

  lemma {:induction false} LaterIdAt(first: nat, done: nat, n: nat)
    requires n <= 0x1_0000 && first + done + n < 0x1_0000_0000_0000
    ensures Later(IdAt(first, done), n) == IdAt(first, done + n)
  {
    assert Nth(first + done).Full() == first + done && Nth(first + (done + n)).Full() == first + done + n;
  }

  /** How far an id lies ahead, an id itself lying a whole cycle ahead. */
  function Distance(from: u16, id: u16): (n: nat)
    ensures 0 < n <= 0x1_0000 && Later(from, n) == id
  {
    if id > from then id - from else id - from + 0x1_0000
  }

  /** Entry `j` of the run is the first waiting packet with the id it stands for. */
  ghost predicate Takes(q: seq<Packet>, from: u16, run: seq<Packet>, j: nat)
    requires j < |run| <= 0xffff
  {
    var id := Later(from, j + 1);
    Find(q, id) < |q| && run[j] == q[Find(q, id)]
  }

  lemma {:induction false} TakesLater(q: seq<Packet>, i: nat, from: u16, run: seq<Packet>, run': seq<Packet>, j: nat)
    requires i < |q| && q[i].id == Succ(from) && run == [q[i]] + run' && 0 < j < |run| <= 0xffff
    requires Takes(Without(q, i), Succ(from), run', j - 1)
    ensures Takes(q, from, run, j)
  {
    FindOther(q, i, Later(from, j + 1));
  }

  /** The run is the first waiting packet with one id after the other, up to the first id that
      none has. */
  ghost predicate TakesAll(q: seq<Packet>, from: u16, run: seq<Packet>) {
    && |run| <= 0xffff && (forall j :: 0 <= j < |run| ==> Takes(q, from, run, j))
    && !Queued(q, Later(from, 1 + |run|))
  }

  lemma {:induction false} TakesOneMore(q: seq<Packet>, i: nat, from: u16, run: seq<Packet>, run': seq<Packet>)
    requires i < |q| && i == Find(q, Succ(from)) && run == [q[i]] + run' && |run'| < 0xffff
    requires TakesAll(Without(q, i), Succ(from), run')
    ensures TakesAll(q, from, run)
  {
    forall j | 0 <= j < |run|
      ensures Takes(q, from, run, j)
    {
      if j > 0 {
        TakesLater(q, i, from, run, run', j);
      }
    }
    FindOther(q, i, Later(from, 1 + |run|));
  }

  lemma {:induction false} RunTakesFirst(q: seq<Packet>, from: u16, absent: u16)
    requires !Queued(q, absent)
    ensures TakesAll(q, from, Drain(q, from).run) && |Drain(q, from).run| < Distance(from, absent)
    decreases |q|
  {
    var i := Find(q, Succ(from));
    if i < |q| {
      var q' := Without(q, i);
      FindOther(q, i, absent);
      RunTakesFirst(q', Succ(from), absent);
      TakesOneMore(q, i, from, Drain(q, from).run, Drain(q', Succ(from)).run);
    }
  }

  /** Every id after `done` up to that of packet `e` waits in the queue. */
  ghost predicate Consecutive(q: seq<Packet>, first: nat, done: nat, e: nat) {
    forall d :: done < d <= e ==> Queued(q, IdAt(first, d))
  }

  /** The first waiting packet with the id of packet `e` is packet `e`. */
  ghost predicate IsRight(stream: seq<Packet>, q: seq<Packet>, first: nat, e: nat) {
    e < |stream| && Find(q, IdAt(first, e)) < |q| && q[Find(q, IdAt(first, e))] == stream[e]
  }

  /** As far as the ids in the queue go on without a gap, the first packet with each of them is
      the packet of the stream and not a copy of one from an earlier cycle. */
  ghost predicate InOrder(stream: seq<Packet>, q: seq<Packet>, first: nat, done: nat) {
    forall e :: done < e < done + 0x1_0000 && Consecutive(q, first, done, e) ==> IsRight(stream, q, first, e)
  }

  /** Entry `j` of the run, seen from the stream. */
  lemma {:induction false} RunAt(q: seq<Packet>, first: nat, done: nat, run: seq<Packet>, j: nat)
    requires TakesAll(q, IdAt(first, done), run) && j < |run| && first + done + 0x1_0000 < 0x1_0000_0000_0000
    ensures var id := IdAt(first, done + 1 + j); Queued(q, id) && Find(q, id) < |q| && run[j] == q[Find(q, id)]
  {
    assert Takes(q, IdAt(first, done), run, j);
    LaterIdAt(first, done, j + 1);
  }

  /** The run goes on exactly as far as the waiting ids. */
  lemma {:induction false} RunReaches(q: seq<Packet>, first: nat, done: nat, run: seq<Packet>, e: nat)
    requires TakesAll(q, IdAt(first, done), run) && done < e && first + done + 0x1_0000 < 0x1_0000_0000_0000
    ensures Consecutive(q, first, done, e) <==> e <= done + |run|
  {
    forall d | done < d <= done + |run|
      ensures Queued(q, IdAt(first, d))
    {
      RunAt(q, first, done, run, d - done - 1);
    }
    LaterIdAt(first, done, 1 + |run|);
    assert !Queued(q, IdAt(first, done + 1 + |run|));
  }

  /** The run is the next stretch of the stream. */
  ghost predicate IsStretch(stream: seq<Packet>, done: nat, run: seq<Packet>) {
    done + 1 + |run| <= |stream| && run == stream[done + 1..done + 1 + |run|]
  }

  lemma {:induction false} InOrderIsStretch(
    stream: seq<Packet>, q: seq<Packet>, first: nat, done: nat, run: seq<Packet>)
    requires done < |stream| && first + |stream| + 0x2_0000 < 0x1_0000_0000_0000
    requires TakesAll(q, IdAt(first, done), run) && InOrder(stream, q, first, done)
    ensures IsStretch(stream, done, run)
  {
    forall j | 0 <= j < |run|
      ensures done + 1 + j < |stream| && run[j] == stream[done + 1 + j]
    {
      RunReaches(q, first, done, run, done + 1 + j);
      RunAt(q, first, done, run, j);
      assert IsRight(stream, q, first, done + 1 + j);
    }
    assert run != [] ==> run[|run| - 1] == run[|run| - 1] && done + 1 + (|run| - 1) < |stream|;
  }

  lemma {:induction false} StretchIsInOrder(
    stream: seq<Packet>, q: seq<Packet>, first: nat, done: nat, run: seq<Packet>)
    requires done < |stream| && first + |stream| + 0x2_0000 < 0x1_0000_0000_0000
    requires TakesAll(q, IdAt(first, done), run) && IsStretch(stream, done, run)
    ensures InOrder(stream, q, first, done)
  {
    forall e | done < e < done + 0x1_0000 && Consecutive(q, first, done, e)
      ensures IsRight(stream, q, first, e)
    {
      RunReaches(q, first, done, run, e);
      RunAt(q, first, done, run, e - done - 1);
    }
  }

  /** A packet releases the next stretch of the stream exactly when the copies are in order. */
  lemma {:induction false} RunRightExactly(
    stream: seq<Packet>, q: seq<Packet>, first: nat, done: nat, run: seq<Packet>)
    requires done < |stream| && first + |stream| + 0x2_0000 < 0x1_0000_0000_0000
    requires !Queued(q, IdAt(first, done)) && run == Drain(q, IdAt(first, done)).run
    ensures IsStretch(stream, done, run) <==> InOrder(stream, q, first, done)
  {
    RunTakesFirst(q, IdAt(first, done), IdAt(first, done));
    if InOrder(stream, q, first, done) {
      InOrderIsStretch(stream, q, first, done, run);
    } else if IsStretch(stream, done, run) {
      StretchIsInOrder(stream, q, first, done, run);
    }
  }

  // ----- When copies are in order

  ghost predicate IsFreshCopy(stream: seq<Packet>, done: nat, p: Packet, k: nat) {
    IsCopy(stream, done, p, k) && done + MAX_QUEUE_LEN < k + 0x1_0000
  }

  ghost predicate HasFreshSource(stream: seq<Packet>, done: nat, p: Packet) {
    exists k: nat :: IsFreshCopy(stream, done, p, k)
  }

  /** No waiting packet is a copy from a cycle ago. */
  ghost predicate Fresh(stream: seq<Packet>, done: nat, q: seq<Packet>) {
    forall i :: 0 <= i < |q| ==> HasFreshSource(stream, done, q[i])
  }

  lemma {:induction false} FreshIsRight(stream: seq<Packet>, q: seq<Packet>, first: nat, done: nat, e: nat)
    requires Numbered(stream, first) && first + |stream| + 0x2_0000 < 0x1_0000_0000_0000 && done <= |stream|
    requires Fresh(stream, done, q) && done < e <= done + MAX_QUEUE_LEN && Queued(q, IdAt(first, e))
    ensures e < done + MAX_QUEUE_LEN && IsRight(stream, q, first, e)
  {
    var i := Find(q, IdAt(first, e));
    assert i < |q|;
    assert HasFreshSource(stream, done, q[i]);
    var k: nat :| IsFreshCopy(stream, done, q[i], k);
    if k < e { IdsDiffer(first, k, e); }
    if e < k { IdsDiffer(first, e, k); }
  }

  /** Any number of copies less than a cycle old leave the next stretch as it is. */
  lemma {:induction false} FreshIsInOrder(stream: seq<Packet>, q: seq<Packet>, first: nat, done: nat)
    requires Numbered(stream, first) && first + |stream| + 0x2_0000 < 0x1_0000_0000_0000 && done <= |stream|
    requires Fresh(stream, done, q)
    ensures InOrder(stream, q, first, done)
  {
    forall e | done < e < done + 0x1_0000 && Consecutive(q, first, done, e)
      ensures IsRight(stream, q, first, e)
    {
      if e > done + MAX_QUEUE_LEN {
        assert Queued(q, IdAt(first, done + MAX_QUEUE_LEN));
        FreshIsRight(stream, q, first, done, done + MAX_QUEUE_LEN);
      } else {
        FreshIsRight(stream, q, first, done, e);
      }
    }
  }

  /** So copies do no harm in the first cycle, however many there are. */
  lemma {:induction false} FirstCycleIsInOrder(stream: seq<Packet>, first: nat, done: nat, c: Channel)
    requires Follows(stream, first, done, c) && done + MAX_QUEUE_LEN < 0x1_0000
    ensures InOrder(stream, c.queue, first, done)
  {
    forall i | 0 <= i < |c.queue|
      ensures HasFreshSource(stream, done, c.queue[i])
    {
      assert HasSource(stream, done, c.queue[i]);
      var k: nat :| IsCopy(stream, done, c.queue[i], k);
      assert IsFreshCopy(stream, done, c.queue[i], k);
    }
    FreshIsInOrder(stream, c.queue, first, done);
  }

  // ----- Handling packets of the stream

  /** Where the channel stands after the next packet of the stream has been handled. */
  function DoneAfter(done: nat, c: Channel): nat {
    done + 1 + |Drain(c.queue, c.next.packet).run|
  }

  lemma {:induction false} RestIsFromStream(
    stream: seq<Packet>, done: nat, q: seq<Packet>, done': nat, rest: seq<Packet>)
    requires FromStream(stream, done, q) && done <= done' && multiset(rest) <= multiset(q)
    ensures FromStream(stream, done', rest)
  {
    forall i | 0 <= i < |rest|
      ensures HasSource(stream, done', rest[i])
    {
      var j := RestIn(q, rest, i);
      assert HasSource(stream, done, q[j]);
      var k: nat :| IsCopy(stream, done, q[j], k);
      assert IsCopy(stream, done', rest[i], k);
    }
  }

  lemma {:induction false} RestIn(q: seq<Packet>, rest: seq<Packet>, i: nat) returns (j: nat)
    requires i < |rest| && multiset(rest) <= multiset(q)
    ensures j < |q| && q[j] == rest[i]
  {
    assert rest[i] in multiset(rest);
    assert rest[i] in multiset(q);
    j :| 0 <= j < |q| && q[j] == rest[i];
  }

  lemma {:induction false} RestIsNotQueued(q: seq<Packet>, rest: seq<Packet>, id: u16)
    requires multiset(rest) <= multiset(q) && !Queued(q, id)
    ensures !Queued(rest, id)
  {
    if Queued(rest, id) {
      var i :| 0 <= i < |rest| && rest[i].id == id;
      var j := RestIn(q, rest, i);
    }
  }

  /** The run stops before the first id that does not wait. */
  lemma {:induction false} RestLacksNext(q: seq<Packet>, first: nat, done: nat, d: Drained)
    requires !Queued(q, IdAt(first, done)) && d == Drain(q, IdAt(first, done))
    requires first + done + 0x1_0000 < 0x1_0000_0000_0000
    ensures |d.run| < 0x1_0000 && !Queued(d.rest, IdAt(first, done + 1 + |d.run|))
    ensures multiset(q) == multiset(d.run) + multiset(d.rest) && multiset(d.rest) <= multiset(q)
  {
    RunTakesFirst(q, IdAt(first, done), IdAt(first, done));
    DrainKeepsAll(IdAt(first, done), q);
    LaterIdAt(first, done, 1 + |d.run|);
    RestIsNotQueued(q, d.rest, IdAt(first, done + 1 + |d.run|));
  }

  lemma {:induction false} NextStretch(stream: seq<Packet>, first: nat, done: nat, c: Channel, run: seq<Packet>)
    requires Follows(stream, first, done, c) && done < |stream| && InOrder(stream, c.queue, first, done)
    requires run == Drain(c.queue, c.next.packet).run
    ensures stream[done].id == c.next.packet == IdAt(first, done) && IsStretch(stream, done, run)
  {
    NextIsNth(c.next, first + done);
    RunRightExactly(stream, c.queue, first, done, run);
  }

  lemma {:induction false} RestFollows(
    stream: seq<Packet>, first: nat, done: nat, done': nat, next: PartialPacketId, q: seq<Packet>, rest: seq<Packet>,
    c': Channel)
    requires Numbered(stream, first) && first + |stream| + 0x2_0000 < 0x1_0000_0000_0000 && done <= done' <= |stream|
    requires next.Full() == first + done && c'.next == Forward(next, done' - done) && c'.queue == rest
    requires FromStream(stream, done, q) && multiset(rest) <= multiset(q) && !Queued(rest, IdAt(first, done'))
    ensures Follows(stream, first, done', c')
  {
    ForwardAdds(next, done' - done);
    NextIsNth(c'.next, first + done');
    RestIsFromStream(stream, done, q, done', rest);
  }

  /** The next packet of the stream releases a stretch of it, which is taken from the queue. */
  lemma {:induction false} DrainNext(
    stream: seq<Packet>, first: nat, done: nat, c: Channel, d: Drained, done': nat, c': Channel)
    requires Follows(stream, first, done, c) && done < |stream| && InOrder(stream, c.queue, first, done)
    requires d == Drain(c.queue, c.next.packet) && done' == done + 1 + |d.run|
    requires c'.next == Forward(c.next, done' - done) && c'.queue == d.rest
    ensures stream[done].id == c.next.packet && done' <= |stream|
    ensures d.run == stream[done + 1..done'] && multiset(c.queue) == multiset(d.run) + multiset(d.rest)
    ensures Follows(stream, first, done', c')
  {
    var rest := d.rest;
    NextStretch(stream, first, done, c, d.run);
    assert !Queued(rest, IdAt(first, done')) && multiset(rest) <= multiset(c.queue) && done' <= |stream| by {
      RestLacksNext(c.queue, first, done, d);
    }
    DrainKeepsAll(c.next.packet, c.queue);
    RestFollows(stream, first, done, done', c.next, c.queue, rest, c');
  }

  lemma {:induction false} NextIsNth(next: PartialPacketId, f: nat)
    requires next.Full() == f
    ensures next == Nth(f)
  {
    FullInjective(next, Nth(f));
  }

  /** Feeding a stretch succeeds when feeding all that follows does. */
  lemma {:induction false} StretchFeeds(
    lz: QuickLz, buffer: Option<Packet>, stream: seq<Packet>, done: nat, done': nat)
    requires done <= done' <= |stream| && FeedSeq(lz, buffer, stream[done..]).error.None?
    ensures FeedSeq(lz, buffer, stream[done..done']).error.None?
  {
    var all := stream[done..];
    assert all[..done' - done] == stream[done..done'];
    FeedSplit(lz, buffer, all, done' - done, FeedSeq(lz, buffer, stream[done..done']), FeedSeq(lz, buffer, all));
  }

  lemma {:induction false} HandleStretch(
    lz: QuickLz, c: Channel, p: Packet, d: Drained, stretch: seq<Packet>, c': Channel, r: Result<seq<Packet>, Error>)
    requires p.id == c.next.packet && d == Drain(c.queue, p.id) && stretch == [p] + d.run
    requires FeedSeq(lz, c.buffer, stretch).error.None? && (c', r) == Handle(lz, c, p)
    ensures r.Success? && c'.queue == d.rest && c'.next == Forward(c.next, |stretch|)
    ensures FeedSeq(lz, c.buffer, stretch) == FedAll(c'.buffer, r.value, |stretch|, None)
  {
    HandleIsDrainThenFeed(lz, c, p);
  }

  /** Handling the next packet of the stream consumes a stretch of it, takes exactly that from the
      queue and reassembles exactly that. */
  lemma {:induction false} HandleNext(
    lz: QuickLz, stream: seq<Packet>, first: nat, done: nat, c: Channel, c': Channel, r: Result<seq<Packet>, Error>)
    requires Follows(stream, first, done, c) && done < |stream| && InOrder(stream, c.queue, first, done)
    requires FeedSeq(lz, c.buffer, stream[done..]).error.None? && (c', r) == Handle(lz, c, stream[done])
    ensures var done' := DoneAfter(done, c);
            && done < done' <= |stream| && Follows(stream, first, done', c') && r.Success?
            && FeedSeq(lz, c.buffer, stream[done..done']) == FedAll(c'.buffer, r.value, done' - done, None)
            && multiset(c.queue) == multiset(stream[done + 1..done']) + multiset(c'.queue)
  {
    var done' := DoneAfter(done, c);
    var d := Drain(c.queue, c.next.packet);
    NextStretch(stream, first, done, c, d.run);
    assert [stream[done]] + d.run == stream[done..done'];
    StretchFeeds(lz, c.buffer, stream, done, done');
    HandleStretch(lz, c, stream[done], d, stream[done..done'], c', r);
    DrainNext(stream, first, done, c, d, done', c');
  }

  lemma {:induction false} NotQueuedNotIn(q: seq<Packet>, p: Packet)
    requires !Queued(q, p.id)
    ensures p !in q
  {
    assert forall i :: 0 <= i < |q| ==> q[i].id != p.id;
  }

  lemma {:induction false} NextIsNotQueued(stream: seq<Packet>, first: nat, done: nat, c: Channel)
    requires Follows(stream, first, done, c)
    ensures done < |stream| ==> !Received(stream, done, c, done)
    ensures forall p :: p in c.queue ==> p in stream
  {
    NextIsNth(c.next, first + done);
    if done < |stream| {
      NotQueuedNotIn(c.queue, stream[done]);
    }
    forall p | p in c.queue
      ensures p in stream
    {
      var i :| 0 <= i < |c.queue| && c.queue[i] == p;
      assert HasSource(stream, done, c.queue[i]);
    }
  }

  /** A later packet is queued, whether or not it waits already, or refused if it is too far ahead. */
  lemma {:induction false} HandleLater(
    lz: QuickLz, stream: seq<Packet>, first: nat, done: nat, c: Channel, k: nat, c': Channel,
    r: Result<seq<Packet>, Error>)
    requires Follows(stream, first, done, c) && done < k < |stream| && k < done + 0x1_0000
    requires (c', r) == Handle(lz, c, stream[k])
    ensures if k < done + 200 then
              Follows(stream, first, done, c') && c' == c.(queue := c.queue + [stream[k]]) && r == Success([])
            else c' == c && r == Failure(CommandQueueFull)
  {
    AheadInStream(c.next, first + k);
    HandleAhead(lz, c, stream[k], c', r);
    if k < done + MAX_QUEUE_LEN {
      CopyJoins(stream, done, c.queue, k);
      JoinedLacksNext(c.queue, c.next.packet, stream[k]);
    }
  }

  lemma {:induction false} HandleAhead(lz: QuickLz, c: Channel, p: Packet, c': Channel, r: Result<seq<Packet>, Error>)
    requires p.id != c.next.packet && (c', r) == Handle(lz, c, p)
    ensures if Ahead(c.next.packet, p.id) < MAX_QUEUE_LEN then c' == c.(queue := c.queue + [p]) && r == Success([])
            else c' == c && r == Failure(CommandQueueFull)
  {
  }

  lemma {:induction false} CopyJoins(stream: seq<Packet>, done: nat, q: seq<Packet>, k: nat)
    requires FromStream(stream, done, q) && k < |stream| && k < done + MAX_QUEUE_LEN
    ensures FromStream(stream, done, q + [stream[k]])
  {
    var q' := q + [stream[k]];
    forall i | 0 <= i < |q'|
      ensures HasSource(stream, done, q'[i])
    {
      assert i < |q| ==> HasSource(stream, done, q[i]);
      assert i == |q| ==> IsCopy(stream, done, q'[i], k);
    }
  }

  lemma {:induction false} JoinedLacksNext(q: seq<Packet>, id: u16, p: Packet)
    requires !Queued(q, id) && p.id != id
    ensures !Queued(q + [p], id)
  {
  }

  lemma {:induction false} NotInStretch(stream: seq<Packet>, first: nat, done: nat, done': nat, k: nat)
    requires Numbered(stream, first) && first + |stream| < 0x1_0000_0000_0000
    requires done < done' <= k < |stream| && k < done + 0x1_0000
    ensures stream[k] !in stream[done + 1..done']
  {
    forall j | done + 1 <= j < done'
      ensures stream[j] != stream[k]
    {
      IdsDiffer(first, j, k);
    }
  }

  /** What has reached the channel stays there. */
  lemma {:induction false} ReceivedStays(
    stream: seq<Packet>, first: nat, done: nat, c: Channel, done': nat, c': Channel, k: nat)
    requires Numbered(stream, first) && first + |stream| < 0x1_0000_0000_0000 && done <= done' <= |stream|
    requires multiset(c.queue) <=
             multiset(if done < done' then stream[done + 1..done'] else []) + multiset(c'.queue)
    requires k < |stream| && Received(stream, done, c, k)
    ensures Received(stream, done', c', k)
  {
    if k >= done' {
      assert stream[k] in multiset(c.queue);
      if done < done' {
        NotInStretch(stream, first, done, done', k);
      }
    }
  }

  // ----- One arriving packet

  /** A number below the next one is outside the window, or taken for one of a later generation. */
  lemma {:induction false} OldIdInWindow(next: PartialPacketId, id: PartialPacketId)
    requires id.Full() < next.Full() < 0x1_0000_0000_0000 - 0x1_0000
    ensures InReceiveWindow(next, id.packet).accepted <==> Ahead(next.packet, id.packet) < 0x7fff
    ensures InReceiveWindow(next, id.packet).accepted ==>
              InReceiveWindow(next, id.packet).generation != id.generation
  {
    WindowAcceptsHalfCycle(next, id.packet);
    var ahead := Ahead(next.packet, id.packet);
    if ahead < 0x7fff {
      var g := next.generation + if id.packet >= next.packet then 0 else 1;
      WindowAt(next, g, id.packet, next.Full() + ahead);
    }
  }

  /** A packet consumed before is outside the window, and acknowledged again, or wraps into it and
      does not decrypt. */
  lemma {:induction false} OldPacketIsHarmless(lz: QuickLz, c: Channel, id: PartialPacketId, p: Packet)
    requires id.Full() < c.next.Full() < 0x1_0000_0000_0000 - 0x1_0000 && p.id == id.packet
    ensures Receive(lz, c, p, id.generation) == Reception(c, [], Ahead(c.next.packet, p.id) >= 0x7fff, None)
  {
    OldIdInWindow(c.next, id);
  }

  /** A packet in the receivable range decrypts and is handled. */
  lemma {:induction false} NewPacketIsHandled(lz: QuickLz, c: Channel, id: PartialPacketId, p: Packet)
    requires c.next.Full() <= id.Full() < c.next.Full() + 32767 && p.id == id.packet
    ensures var (c', h) := Handle(lz, c, p);
            Receive(lz, c, p, id.generation) ==
            if h.Success? then Reception(c', h.value, true, None) else Reception(c', [], false, Some(h.error))
  {
    WindowRecovers(c.next, id);
  }

  /** A packet half a cycle ahead or more is taken for an old one: it is acknowledged and lost. */
  lemma {:induction false} FarPacketIsLost(
    lz: QuickLz, stream: seq<Packet>, first: nat, done: nat, c: Channel, k: nat)
    requires Follows(stream, first, done, c) && done + 32767 <= k < |stream| && k < done + 0x1_0000
    ensures Receive(lz, c, stream[k], Nth(first + k).generation) == Reception(c, [], true, None)
    ensures !Received(stream, done, c, k)
  {
    AheadInStream(c.next, first + k);
    WindowAcceptsHalfCycle(c.next, stream[k].id);
  }

  /** From having consumed `done` packets to having consumed `done'`: the stretch between was
      reassembled into `outs`, and nothing that was queued is lost. */
  ghost predicate Progress(
    lz: QuickLz, stream: seq<Packet>, first: nat, done: nat, c: Channel, done': nat, c': Channel, outs: seq<Packet>)
  {
    && done <= done' <= |stream| && Follows(stream, first, done', c')
    && multiset(c.queue) <= multiset(if done < done' then stream[done + 1..done'] else []) + multiset(c'.queue)
    && FeedSeq(lz, c.buffer, stream[done..done']) == FedAll(c'.buffer, outs, done' - done, None)
  }

  lemma {:induction false} NoProgress(lz: QuickLz, stream: seq<Packet>, first: nat, done: nat, c: Channel, c': Channel)
    requires Follows(stream, first, done, c') && done <= |stream| && c'.buffer == c.buffer
    requires multiset(c.queue) <= multiset(c'.queue)
    ensures Progress(lz, stream, first, done, c, done, c', [])
  {
    assert stream[done..done] == [];
  }

  lemma {:induction false} NextProgress(
    lz: QuickLz, stream: seq<Packet>, first: nat, done: nat, c: Channel, c': Channel, h: Result<seq<Packet>, Error>,
    done': int)
    requires Follows(stream, first, done, c) && done < |stream| && InOrder(stream, c.queue, first, done)
    requires FeedSeq(lz, c.buffer, stream[done..]).error.None? && (c', h) == Handle(lz, c, stream[done])
    requires done' == c'.next.Full() - first
    ensures h.Success? && done' > done && Progress(lz, stream, first, done, c, done', c', h.value)
  {
    HandleNext(lz, stream, first, done, c, c', h);
    assert done' == DoneAfter(done, c);
  }

  lemma {:induction false} LaterProgress(
    lz: QuickLz, stream: seq<Packet>, first: nat, done: nat, c: Channel, k: nat, c': Channel,
    h: Result<seq<Packet>, Error>, done': int)
    requires Follows(stream, first, done, c) && done < k < |stream| && k < done + 32767
    requires (c', h) == Handle(lz, c, stream[k]) && done' == c'.next.Full() - first
    ensures done' == done && Progress(lz, stream, first, done, c, done, c', [])
    ensures h == if k < done + MAX_QUEUE_LEN then Success([]) else Failure(CommandQueueFull)
    ensures Received(stream, done, c', k) <==> k < done + MAX_QUEUE_LEN
  {
    HandleLater(lz, stream, first, done, c, k, c', h);
    NoProgress(lz, stream, first, done, c, c');
    LaterIsReceived(stream, done, c, k, c');
  }

  /** Whatever packet of the stream arrives: the channel makes progress along the stream. A packet
      that is in time, that is, less than 200 ahead of the next one, is then received. */
  lemma {:induction false} ReceiveProgress(
    lz: QuickLz, stream: seq<Packet>, first: nat, done: nat, c: Channel, k: nat, r: Reception, done': int)
    requires Follows(stream, first, done, c) && k < |stream| && k < done + 32767
    requires k == done ==> InOrder(stream, c.queue, first, done)
    requires FeedSeq(lz, c.buffer, stream[done..]).error.None?
    requires r == Receive(lz, c, stream[k], Nth(first + k).generation) && done' == r.channel.next.Full() - first
    ensures done' >= done && Progress(lz, stream, first, done, c, done', r.channel, r.delivered)
    ensures Received(stream, done', r.channel, k) <==> k < done + MAX_QUEUE_LEN
    ensures r.acked ==> Received(stream, done', r.channel, k)
    ensures r.error.Some? ==> r.error.value == CommandQueueFull
  {
    if k < done {
      OldPacketIsHarmless(lz, c, Nth(first + k), stream[k]);
      NoProgress(lz, stream, first, done, c, c);
    } else {
      NewPacketIsHandled(lz, c, Nth(first + k), stream[k]);
      var (c', h) := Handle(lz, c, stream[k]);
      if k == done {
        NextProgress(lz, stream, first, done, c, c', h, done');
      } else {
        LaterProgress(lz, stream, first, done, c, k, c', h, done');
      }
    }
  }

  lemma {:induction false} LaterIsReceived(stream: seq<Packet>, done: nat, c: Channel, k: nat, c': Channel)
    requires done < k < |stream|
    requires k < done + MAX_QUEUE_LEN ==> c'.queue == c.queue + [stream[k]]
    ensures Received(stream, done, c', k) <==> k < done + MAX_QUEUE_LEN
  {
    if k < done + MAX_QUEUE_LEN {
      assert c'.queue[|c.queue|] == stream[k];
    }
  }

  /** Within a cycle, an acknowledgement means that the packet is received exactly when it was less
      than half a cycle ahead. */
  lemma {:induction false} AckMeansReceivedExactly(
    lz: QuickLz, stream: seq<Packet>, first: nat, done: nat, c: Channel, k: nat, r: Reception, done': int)
    requires Follows(stream, first, done, c) && k < |stream| && k < done + 0x1_0000
    requires k == done ==> InOrder(stream, c.queue, first, done)
    requires FeedSeq(lz, c.buffer, stream[done..]).error.None?
    requires r == Receive(lz, c, stream[k], Nth(first + k).generation) && done' == r.channel.next.Full() - first
    ensures done' >= 0 && ((r.acked ==> Received(stream, done', r.channel, k)) <==> k < done + 32767)
  {
    if k < done + 32767 {
      ReceiveProgress(lz, stream, first, done, c, k, r, done');
    } else {
      FarPacketIsLost(lz, stream, first, done, c, k);
    }
  }
}

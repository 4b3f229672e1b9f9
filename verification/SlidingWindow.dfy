/** The minimum of the last values pushed, with a clock of 8 bits. */
module SlidingWindow {
  import opened Wrappers

  /** Wrapping subtraction of two clock readings. */
  function Elapsed(now: byte, since: byte): byte {
    if now >= since then now - since else now - since + 0x100
  }

  function Tick(now: byte): byte {
    if now == 0xff then 0 else now + 1
  }

  /** The values still in the window. */
  function Last(history: seq<int>, size: byte): seq<int> {
    if |history| <= size then history else history[|history| - size..]
  }

  ghost predicate IsMinimum(values: seq<int>, m: int) {
    m in values && forall k :: 0 <= k < |values| ==> m <= values[k]
  }

  type Queue = seq<(byte, int)>

  /** Entry `k` was pushed as value number `ids[k]`, and the clock has ticked `ticks` times. */
  ghost predicate Entry(history: seq<int>, size: byte, now: byte, ticks: nat, queue: Queue, ids: seq<nat>, k: nat)
    requires k < |queue| && |queue| == |ids|
  {
    && ids[k] < |history| && queue[k].1 == history[ids[k]]
    && Elapsed(now, queue[k].0) == ticks - ids[k] <= size
    && (k > 0 ==> ids[k - 1] < ids[k] && queue[k - 1].1 < queue[k].1)
  }

  /** The value before entry `k`. */
  ghost function Since(ids: seq<nat>, k: nat): int
    requires k <= |ids|
  {
    if k == 0 then -1 else ids[k - 1]
  }

  /** No value in the window since the entry before `k` is below entry `k`. */
  ghost predicate Lowest(history: seq<int>, size: byte, queue: Queue, ids: seq<nat>, k: nat)
    requires k < |queue| && |queue| == |ids|
  {
    forall j :: 0 <= j < |history| && |history| - size <= j && Since(ids, k) < j <= ids[k] ==> queue[k].1 <= history[j]
  }

  ghost predicate Queued(history: seq<int>, size: byte, now: byte, ticks: nat, queue: Queue, ids: seq<nat>) {
    && |queue| == |ids|
    && (forall k :: 0 <= k < |queue| ==> Entry(history, size, now, ticks, queue, ids, k))
    && (forall k :: 0 <= k < |queue| ==> Lowest(history, size, queue, ids, k))
  }

  /** The queue holds the last value, and before it those that are below all later ones. */
  ghost predicate Minima(history: seq<int>, size: byte, now: byte, ticks: nat, queue: Queue, ids: seq<nat>) {
    && Queued(history, size, now, ticks, queue, ids)
    && (if history == [] then queue == [] else queue != [] && ids[|ids| - 1] == |history| - 1)
  }

  /** No value in the window since the last entry is below `value`. */
  ghost predicate NoneBelow(history: seq<int>, size: byte, ids: seq<nat>, value: int) {
    forall j :: 0 <= j < |history| && |history| - size <= j && Since(ids, |ids|) < j ==> value <= history[j]
  }

  lemma {:induction false} PopBackKeeps(
      history: seq<int>, size: byte, now: byte, queue: Queue, ids: seq<nat>, value: int)
    requires Queued(history, size, now, |history|, queue, ids) && NoneBelow(history, size, ids, value)
    requires queue != [] && queue[|queue| - 1].1 >= value
    ensures Queued(history, size, now, |history|, queue[..|queue| - 1], ids[..|ids| - 1])
    ensures NoneBelow(history, size, ids[..|ids| - 1], value)
  {
    var n := |queue| - 1;
    var queue', ids' := queue[..n], ids[..n];
    assert Lowest(history, size, queue, ids, n);
    forall k | 0 <= k < n
      ensures Entry(history, size, now, |history|, queue', ids', k) && Lowest(history, size, queue', ids', k)
    {
      assert Entry(history, size, now, |history|, queue, ids, k) && Lowest(history, size, queue, ids, k);
    }
  }

  lemma {:induction false} PushBackKeeps(
      history: seq<int>, size: byte, now: byte, queue: Queue, ids: seq<nat>, value: int)
    requires Queued(history, size, now, |history|, queue, ids) && NoneBelow(history, size, ids, value)
    requires queue != [] ==> queue[|queue| - 1].1 < value
    ensures Minima(history + [value], size, now, |history|, queue + [(now, value)], ids + [|history|])
  {
    var history', queue', ids' := history + [value], queue + [(now, value)], ids + [|history|];
    forall k | 0 <= k < |queue'|
      ensures Entry(history', size, now, |history|, queue', ids', k) && Lowest(history', size, queue', ids', k)
    {
      if k < |queue| {
        assert Entry(history, size, now, |history|, queue, ids, k) && Lowest(history, size, queue, ids, k);
      } else if k > 0 {
        assert Entry(history, size, now, |history|, queue, ids, k - 1);
      }
    }
  }

  lemma {:induction false} PopFrontKeeps(
      history: seq<int>, size: byte, now: byte, ticks: nat, queue: Queue, ids: seq<nat>)
    requires Minima(history, size, now, ticks, queue, ids) && ticks + 1 == |history| && size > 0
    requires queue != [] && Elapsed(now, queue[0].0) >= size
    ensures |queue| > 1 && Minima(history, size, now, ticks, queue[1..], ids[1..])
  {
    var queue', ids' := queue[1..], ids[1..];
    assert Entry(history, size, now, ticks, queue, ids, 0);
    forall k | 0 <= k < |queue'|
      ensures Entry(history, size, now, ticks, queue', ids', k) && Lowest(history, size, queue', ids', k)
    {
      assert Entry(history, size, now, ticks, queue, ids, k + 1) && Lowest(history, size, queue, ids, k + 1);
    }
  }

  lemma {:induction false} TickKeeps(history: seq<int>, size: byte, now: byte, ticks: nat, queue: Queue, ids: seq<nat>)
    requires Minima(history, size, now, ticks, queue, ids) && (queue != [] ==> Elapsed(now, queue[0].0) < size)
    ensures Minima(history, size, Tick(now), ticks + 1, queue, ids)
  {
    var tick, ticks' := Tick(now), ticks + 1;
    forall k | 0 <= k < |queue|
      ensures Entry(history, size, tick, ticks', queue, ids, k)
    {
      Increasing(history, size, now, ticks, queue, ids, 0, k);
      assert Entry(history, size, now, ticks, queue, ids, k) && Entry(history, size, now, ticks, queue, ids, 0);
    }
  }

  lemma {:induction false} Increasing(
      history: seq<int>, size: byte, now: byte, ticks: nat, queue: Queue, ids: seq<nat>, i: nat, k: nat)
    requires Minima(history, size, now, ticks, queue, ids) && i <= k < |queue|
    ensures ids[i] <= ids[k] && queue[i].1 <= queue[k].1
    decreases k
  {
    if i < k {
      assert Entry(history, size, now, ticks, queue, ids, k);
      Increasing(history, size, now, ticks, queue, ids, i, k - 1);
    }
  }

  lemma {:induction false} Covering(
      history: seq<int>, size: byte, now: byte, ticks: nat, queue: Queue, ids: seq<nat>, j: nat, k: nat)
    requires Minima(history, size, now, ticks, queue, ids) && k < |queue|
    requires |history| - size <= j <= ids[k] && j < |history|
    ensures queue[0].1 <= history[j]
    decreases k
  {
    assert Entry(history, size, now, ticks, queue, ids, k) && Lowest(history, size, queue, ids, k);
    if k > 0 && j <= ids[k - 1] {
      Covering(history, size, now, ticks, queue, ids, j, k - 1);
    } else {
      Increasing(history, size, now, ticks, queue, ids, 0, k);
    }
  }

  /** The front of the queue is the minimum of the window. */
  lemma {:induction false} FrontIsMinimum(
      history: seq<int>, size: byte, now: byte, ticks: nat, queue: Queue, ids: seq<nat>)
    requires Minima(history, size, now, ticks, queue, ids) && history != [] && size > 0 && ticks == |history|
    ensures IsMinimum(Last(history, size), queue[0].1)
  {
    var window := Last(history, size);
    var offset := |history| - |window|;
    assert Entry(history, size, now, ticks, queue, ids, 0);
    assert window[ids[0] - offset] == queue[0].1;
    forall k | 0 <= k < |window|
      ensures queue[0].1 <= window[k]
    {
      Covering(history, size, now, ticks, queue, ids, offset + k, |queue| - 1);
    }
  }

  class SlidingWindowMinimum {
    const size: byte
    var queue: Queue
    var curTime: byte
    /** Every value pushed so far, which of them are queued, and how many were popped. */
    ghost var history: seq<int>
    ghost var ids: seq<nat>
    ghost var pops: nat

    ghost predicate Valid()
      reads this
    {
      size > 0 && Minima(history, size, curTime, |history|, queue, ids) && pops + |queue| == |history|
    }

    constructor (size: byte)
      requires size > 0
      ensures Valid() && this.size == size && history == []
    {
      this.size := size;
      queue, curTime := [], 0;
      history, ids, pops := [], [], 0;
    }

    /** Never pops more values, over all calls, than were pushed. */
    method Push(value: int)
      requires Valid()
      modifies this
      ensures Valid() && history == old(history) + [value] && pops <= |history|
    {
      while queue != [] && queue[|queue| - 1].1 >= value
        invariant Queued(history, size, curTime, |history|, queue, ids) && NoneBelow(history, size, ids, value)
        invariant pops + |queue| == |history| && history == old(history) && curTime == old(curTime)
        decreases |queue|
      {
        PopBackKeeps(history, size, curTime, queue, ids, value);
        queue, ids := queue[..|queue| - 1], ids[..|ids| - 1];
        pops := pops + 1;
      }
      PushBackKeeps(history, size, curTime, queue, ids, value);
      queue, ids, history := queue + [(curTime, value)], ids + [|history|], history + [value];
      while queue != [] && Elapsed(curTime, queue[0].0) >= size
        invariant history == old(history) + [value] && pops + |queue| == |history|
        invariant Minima(history, size, curTime, |history| - 1, queue, ids)
        decreases |queue|
      {
        PopFrontKeeps(history, size, curTime, |history| - 1, queue, ids);
        queue, ids := queue[1..], ids[1..];
        pops := pops + 1;
      }
      TickKeeps(history, size, curTime, |history| - 1, queue, ids);
      curTime := Tick(curTime);
    }

    /** The minimum of the last `size` values, or 0 before the first one. */
    method GetMin() returns (m: int)
      requires Valid()
      ensures if history == [] then m == 0 else IsMinimum(Last(history, size), m)
    {
      if queue == [] {
        return 0;
      }
      FrontIsMinimum(history, size, curTime, |history|, queue, ids);
      return queue[0].1;
    }
  }
}

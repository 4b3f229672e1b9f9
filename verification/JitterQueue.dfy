/** The queue that turns received voice packets into a steady stream of samples. */
module JitterQueue {
  import opened Wrappers
  import opened PacketIds
  import opened SlidingWindow

  const CHANNEL_NUM := 2
  const LAST_BUFFER_SIZE_COUNT: byte := 255
  const MAX_BUFFER_SIZE := 24000
  const MAX_BUFFER_PACKETS := 50
  const MAX_BUFFER_TIME := 24000
  const SPEED_CHANGE_STEPS := 100
  const USUAL_FRAME_SIZE := 960

  type Sample = real

  datatype QueuePacket = QueuePacket(id: u16, samples: nat, data: seq<byte>, whisper: bool)

  datatype Error = QueueFull | BadPacket | TooManySamples | TooLate(wanted: u16, got: u16) | Duplicate(id: u16)

  /** The audio codec: how many frames a packet holds, and what call number `n` of the decoder
      returns when it is given a packet or none, whether to correct errors, and how many frames
      fit. The decoder has a state, so equal arguments may give different samples. */
  datatype Codec = Codec(
      frames: seq<byte> -> Option<nat>,
      decode: (nat, Option<seq<byte>>, bool, nat) -> Option<seq<Sample>>) {
    /** The decoder returns whole frames and no more than fit. */
    ghost predicate Sound() {
      forall n, data, fec, len :: decode(n, data, fec, len).Some? ==>
        exists frames: nat :: frames <= len && |decode(n, data, fec, len).value| == frames * CHANNEL_NUM
    }

    /** Whatever the decoder returns holds at least one frame. */
    ghost predicate NeverEmpty() {
      forall n, data, fec, len :: decode(n, data, fec, len) != Some([])
    }
  }

  // ----- The order of the packets

  ghost predicate Placed(queue: seq<QueuePacket>, next: u16, k: nat)
    requires k < |queue|
  {
    Ahead(next, queue[k].id) <= MAX_BUFFER_PACKETS &&
        (k > 0 ==> Ahead(next, queue[k - 1].id) < Ahead(next, queue[k].id))
  }

  /** Going around the cycle of ids from the next one, the packets are in order and close. */
  ghost predicate Ordered(queue: seq<QueuePacket>, next: u16) {
    forall k :: 0 <= k < |queue| ==> Placed(queue, next, k)
  }

  function Sum(queue: seq<QueuePacket>): nat
    decreases |queue|
  {
    if queue == [] then 0 else Sum(queue[..|queue| - 1]) + queue[|queue| - 1].samples
  }

  lemma {:induction false} SumConcat(a: seq<QueuePacket>, b: seq<QueuePacket>)
    ensures Sum(a + b) == Sum(a) + Sum(b)
    decreases |b|
  {
    if b == [] {
      assert a + b == a;
    } else {
      var n := |b| - 1;
      assert (a + b)[..|a + b| - 1] == a + b[..n];
      SumConcat(a, b[..n]);
    }
  }

  lemma {:induction false} SumInsert(queue: seq<QueuePacket>, i: nat, packet: QueuePacket)
    requires i <= |queue|
    ensures Sum(queue[..i] + [packet] + queue[i..]) == Sum(queue) + packet.samples
  {
    SumConcat(queue[..i] + [packet], queue[i..]);
    assert (queue[..i] + [packet])[..i] == queue[..i];
    SumConcat(queue[..i], queue[i..]);
    assert queue[..i] + queue[i..] == queue;
  }

  lemma {:induction false} SumTail(queue: seq<QueuePacket>)
    requires queue != []
    ensures Sum(queue) == queue[0].samples + Sum(queue[1..])
  {
    assert queue == [queue[0]] + queue[1..];
    SumConcat([queue[0]], queue[1..]);
    assert [queue[0]][..0] == [];
  }

  lemma {:induction false} OrderedPair(queue: seq<QueuePacket>, next: u16, i: nat, k: nat)
    requires Ordered(queue, next) && i < k < |queue|
    ensures Ahead(next, queue[i].id) < Ahead(next, queue[k].id) <= MAX_BUFFER_PACKETS
    decreases k
  {
    assert Placed(queue, next, k);
    if i < k - 1 {
      OrderedPair(queue, next, i, k - 1);
    }
  }

  /** At most as many packets fit in front of a packet as ids lie before it. */
  lemma {:induction false} AtLeastIndex(queue: seq<QueuePacket>, next: u16, k: nat)
    requires Ordered(queue, next) && k < |queue|
    ensures k <= Ahead(next, queue[k].id)
    decreases k
  {
    assert Placed(queue, next, k);
    if k > 0 {
      AtLeastIndex(queue, next, k - 1);
    }
  }

  /** Close to the next id, comparing two ids with the window test of the source is comparing
      their distances. */
  lemma {:induction false} CloseIsNotBefore(next: u16, a: u16, b: u16)
    requires Ahead(next, a) <= MAX_BUFFER_PACKETS && Ahead(next, b) <= MAX_BUFFER_PACKETS
    ensures Ahead(a, b) <= MAX_BUFFER_PACKETS <==> Ahead(next, a) <= Ahead(next, b)
    ensures a == b <==> Ahead(next, a) == Ahead(next, b)
  {
  }

  lemma {:induction false} InsertKeepsOrder(queue: seq<QueuePacket>, next: u16, i: nat, packet: QueuePacket)
    requires Ordered(queue, next) && i <= |queue| && Ahead(next, packet.id) <= MAX_BUFFER_PACKETS
    requires i > 0 ==> Ahead(next, queue[i - 1].id) < Ahead(next, packet.id)
    requires i < |queue| ==> Ahead(next, packet.id) < Ahead(next, queue[i].id)
    ensures Ordered(queue[..i] + [packet] + queue[i..], next)
  {
    var queue' := queue[..i] + [packet] + queue[i..];
    forall k | 0 <= k < |queue'|
      ensures Placed(queue', next, k)
    {
      assert k < i ==> Placed(queue, next, k);
      assert k > i ==> Placed(queue, next, k - 1);
    }
  }

  lemma {:induction false} SuffixKeepsOrder(queue: seq<QueuePacket>, next: u16, i: nat)
    requires Ordered(queue, next) && i <= |queue|
    ensures Ordered(queue[i..], next)
  {
    var queue' := queue[i..];
    forall k | 0 <= k < |queue'|
      ensures Placed(queue', next, k)
    {
      assert Placed(queue, next, i + k);
    }
  }

  /** Moving the next id forward, at most to the first packet, keeps the order. */
  lemma {:induction false} AdvanceKeepsOrder(queue: seq<QueuePacket>, next: u16, n: nat)
    requires Ordered(queue, next) && n <= MAX_BUFFER_PACKETS && (queue != [] ==> n <= Ahead(next, queue[0].id))
    ensures Ordered(queue, WrapAdd(next, n))
  {
    var next' := WrapAdd(next, n);
    forall k | 0 <= k < |queue|
      ensures Placed(queue, next', k)
    {
      assert Placed(queue, next, k) && Placed(queue, next, 0);
      if k > 0 {
        OrderedPair(queue, next, 0, k);
        assert Placed(queue, next, k - 1);
        if k > 1 { OrderedPair(queue, next, 0, k - 1); }
      }
    }
  }

  // ----- Speeding up

  /** The first `blocks` blocks of 100 frames, each without its first frame. */
  function Shortened(samples: seq<Sample>, blocks: nat): (r: seq<Sample>)
    requires blocks * 200 <= |samples|
    ensures |r| == blocks * 198
    decreases blocks
  {
    if blocks == 0 then []
    else Shortened(samples, blocks - 1) + samples[(blocks - 1) * 200 + CHANNEL_NUM..blocks * 200]
  }

  /** What a speed-up leaves of a decoded packet. */
  function SpedUp(samples: seq<Sample>): seq<Sample> {
    var blocks := |samples| / 200;
    Shortened(samples, blocks) + samples[blocks * 200..]
  }

  lemma {:induction false} ShortenedKeeps(samples: seq<Sample>, blocks: nat, block: nat, k: nat)
    requires blocks * 200 <= |samples| && block < blocks && CHANNEL_NUM <= k < 200
    ensures Shortened(samples, blocks)[block * 198 + k - CHANNEL_NUM] == samples[block * 200 + k]
    decreases blocks
  {
    if block < blocks - 1 {
      ShortenedKeeps(samples, blocks - 1, block, k);
    }
  }

  /** A speed-up removes exactly frames 0, 100, 200, ... of the full blocks; all other samples
      stay, in order. */
  lemma {:induction false} SpedUpKeeps(samples: seq<Sample>, block: nat, k: nat)
    requires k < 200 && block * 200 + k < |samples|
    ensures |SpedUp(samples)| == |samples| - |samples| / 200 * 2
    ensures block < |samples| / 200 && k >= 2 ==>
            SpedUp(samples)[block * 198 + k - 2] == samples[block * 200 + k]
    ensures block == |samples| / 200 ==> SpedUp(samples)[block * 198 + k] == samples[block * 200 + k]
  {
    var blocks := |samples| / 200;
    if block < blocks && k >= CHANNEL_NUM {
      ShortenedKeeps(samples, blocks, block, k);
    }
  }

  // ----- What happens to the packets

  /** What the decoder is given: a packet or none, whether to restore the one before it, and how many
      frames fit. */
  datatype Input = Input(data: Option<seq<byte>>, fec: bool, frames: nat)

  /** What is done to the queue and to the samples after a decode. */
  datatype Action = Kept | Sped | Cut

  /** One call of the decoder, and how many buffer sizes were known when the queue adapted to them. */
  datatype Call = Call(input: Input, result: Option<seq<Sample>>, action: Action, sizes: nat)

  /** What becomes of a packet: the decoder gets it when it is its turn, or it is thrown away to shorten the
      queue, or dropped because the replacement for an earlier one could not be decoded, or ends the stream. */
  datatype Fate =
    | Given(packet: QueuePacket, at: nat)
    | Thrown(packet: QueuePacket, call: nat)
    | Dropped(packet: QueuePacket, call: nat)
    | Ended(packet: QueuePacket)

  /** The samples of a call as the caller gets them. */
  function Played(call: Call): seq<Sample> {
    if call.result.None? then []
    else if call.action == Sped then SpedUp(call.result.value)
    else call.result.value
  }

  function Flatten(log: seq<Call>): seq<Sample>
    decreases |log|
  {
    if log == [] then [] else Flatten(log[..|log| - 1]) + Played(log[|log| - 1])
  }

  /** The data the decoder got in turn, not to restore another packet. */
  function InTurn(log: seq<Call>): seq<seq<byte>>
    decreases |log|
  {
    if log == [] then []
    else
      var input := log[|log| - 1].input;
      InTurn(log[..|log| - 1]) + if input.data.Some? && !input.fec then [input.data.value] else []
  }

  function DataGiven(fates: seq<Fate>): seq<seq<byte>>
    decreases |fates|
  {
    if fates == [] then []
    else
      var fate := fates[|fates| - 1];
      DataGiven(fates[..|fates| - 1]) + if fate.Given? then [fate.packet.data] else []
  }

  function Packets(fates: seq<Fate>): seq<QueuePacket> {
    seq(|fates|, i requires 0 <= i < |fates| => fates[i].packet)
  }

  function AllThrown(queue: seq<QueuePacket>, call: nat): seq<Fate> {
    seq(|queue|, i requires 0 <= i < |queue| => Thrown(queue[i], call))
  }

  lemma {:induction false} OneCallMore(log: seq<Call>, call: Call)
    ensures Flatten(log + [call]) == Flatten(log) + Played(call)
    ensures InTurn(log + [call]) ==
            InTurn(log) + if call.input.data.Some? && !call.input.fec then [call.input.data.value] else []
  {
    assert (log + [call])[..|log|] == log;
  }

  lemma {:induction false} OneFateMore(fates: seq<Fate>, fate: Fate)
    ensures DataGiven(fates + [fate]) == DataGiven(fates) + if fate.Given? then [fate.packet.data] else []
    ensures Packets(fates + [fate]) == Packets(fates) + [fate.packet]
  {
    assert (fates + [fate])[..|fates|] == fates;
  }

  lemma {:induction false} OneThrownMore(fates: seq<Fate>, queue: seq<QueuePacket>, call: nat, less: seq<Fate>)
    requires queue != [] && less == fates + AllThrown(queue[..|queue| - 1], call)
    ensures fates + AllThrown(queue, call) == less + [Thrown(queue[|queue| - 1], call)]
  {
  }

  lemma {:induction false} ThrownGivesNone(fates: seq<Fate>, queue: seq<QueuePacket>, call: nat)
    ensures DataGiven(fates + AllThrown(queue, call)) == DataGiven(fates)
    ensures Packets(fates + AllThrown(queue, call)) == Packets(fates) + queue
    decreases |queue|
  {
    if queue == [] {
      assert fates + AllThrown(queue, call) == fates;
    } else {
      var n := |queue| - 1;
      var less := fates + AllThrown(queue[..n], call);
      ThrownGivesNone(fates, queue[..n], call);
      OneThrownMore(fates, queue, call, less);
      OneFateMore(less, Thrown(queue[n], call));
      Assoc(Packets(fates), queue[..n], [queue[n]]);
      assert queue == queue[..n] + [queue[n]];
    }
  }

  /** The last call since call `from` returned no frame. */
  ghost predicate RanDry(log: seq<Call>, from: nat) {
    |log| > from && log[|log| - 1].result == Some([])
  }

  ghost predicate IsMaximum(values: seq<int>, m: int) {
    m in values && forall k :: 0 <= k < |values| ==> values[k] <= m
  }

  /** The queue is cut when all the last 255 sizes are over 25 packets, and else sped up when the smallest of
      them is over the spread. */
  ghost predicate AdaptsTo(sizes: seq<int>, low: int, high: int, action: Action) {
    && IsMinimum(Last(sizes, 255), low) && IsMaximum(Last(sizes, 255), high)
    && action == if low > 25 then Cut else if low > high - low then Sped else Kept
  }

  ghost predicate Adapts(sizes: seq<int>, action: Action) {
    exists low, high :: AdaptsTo(sizes, low, high, action)
  }

  lemma {:induction false} IsAdapted(sizes: seq<int>, n: nat, low: int, high: int, action: Action)
    requires n == |sizes| && AdaptsTo(sizes, low, high, action)
    ensures Adapts(sizes[..n], action)
  {
    assert sizes[..n] == sizes;
  }

  /** Call `k` is what the decoder did, and the queue adapted to the sizes known then. */
  ghost predicate CallIs(codec: Codec, k: nat, sizes: seq<int>, call: Call) {
    && call.result == codec.decode(k, call.input.data, call.input.fec, call.input.frames)
    && if call.result.Some? && call.result.value != [] then
         call.sizes <= |sizes| && Adapts(sizes[..call.sizes], call.action)
       else call.action == Kept
  }

  ghost predicate IsCall(codec: Codec, log: seq<Call>, sizes: seq<int>, k: nat)
    requires k < |log|
  {
    CallIs(codec, k, sizes, log[k])
  }

  /** The id whose turn it is: they come one after the other, and 0 follows the last. */
  function IdAt(turn: nat): u16
    decreases turn
  {
    if turn == 0 then 0 else if IdAt(turn - 1) == 0xffff then 0 else IdAt(turn - 1) + 1
  }

  lemma {:induction false} IdFurtherOn(turn: nat, n: u16)
    ensures IdAt(turn + n) == WrapAdd(IdAt(turn), n)
    decreases n
  {
    if n > 0 {
      IdFurtherOn(turn, n - 1);
    }
  }

  /** Packets are given in their turn, and the others are lost for a reason. */
  ghost predicate IsFate(log: seq<Call>, fates: seq<Fate>, turn: nat, i: nat)
    requires i < |fates|
  {
    match fates[i]
    case Given(packet, at) => at < turn && packet.id == IdAt(at)
    case Thrown(_, call) => call < |log| && log[call].action == Cut
    case Dropped(_, call) => call < |log| && log[call].result == None
    case Ended(packet) => |packet.data| <= 1
  }

  ghost predicate InOrder(fates: seq<Fate>, i: nat, j: nat)
    requires i < |fates| && j < |fates|
  {
    fates[i].Given? && fates[j].Given? ==> fates[i].at < fates[j].at
  }

  /** What the decoder got in turn are the packets given to it, each once, in the order of their turns. */
  ghost predicate Recorded(codec: Codec, log: seq<Call>, sizes: seq<int>, fates: seq<Fate>, turn: nat) {
    && (forall k :: 0 <= k < |log| ==> IsCall(codec, log, sizes, k))
    && (forall i :: 0 <= i < |fates| ==> IsFate(log, fates, turn, i))
    && (forall i, j :: 0 <= i < j < |fates| ==> InOrder(fates, i, j))
    && InTurn(log) == DataGiven(fates)
  }

  lemma {:induction false} CallStays(
      codec: Codec, log: seq<Call>, sizes: seq<int>, log': seq<Call>, sizes': seq<int>, k: nat)
    requires k < |log| && log <= log' && sizes <= sizes' && IsCall(codec, log, sizes, k)
    ensures IsCall(codec, log', sizes', k)
  {
    assert log[k].sizes <= |sizes| ==> sizes'[..log[k].sizes] == sizes[..log[k].sizes];
  }

  lemma {:induction false} FateStays(
      log: seq<Call>, fates: seq<Fate>, turn: nat, log': seq<Call>, fates': seq<Fate>, turn': nat, i: nat)
    requires i < |fates| && log <= log' && fates <= fates' && turn <= turn' && IsFate(log, fates, turn, i)
    ensures IsFate(log', fates', turn', i)
  {
  }

  /** The fates after those known give the decoder at most one packet, whose turn it is. */
  ghost predicate OneGiven(fates: seq<Fate>, turn: nat, fates': seq<Fate>) {
    forall i :: |fates| <= i < |fates'| && fates'[i].Given? ==>
      fates'[i].at >= turn && forall j :: i < j < |fates'| ==> !fates'[j].Given?
  }

  lemma {:induction false} OrderStays(
      log: seq<Call>, fates: seq<Fate>, turn: nat, fates': seq<Fate>, i: nat, j: nat)
    requires fates <= fates' && OneGiven(fates, turn, fates') && i < j < |fates'|
    requires i < |fates| ==> IsFate(log, fates, turn, i)
    requires j < |fates| ==> InOrder(fates, i, j)
    ensures InOrder(fates', i, j)
  {
    assert i < |fates| ==> fates'[i] == fates[i];
    assert j < |fates| ==> fates'[j] == fates[j];
  }

  /** One more call, more sizes, and more fates that give the decoder what the call gave it. */
  lemma {:induction false} RecordGrows(
      codec: Codec, log: seq<Call>, sizes: seq<int>, fates: seq<Fate>, turn: nat,
      call: Call, sizes': seq<int>, fates': seq<Fate>, turn': nat)
    requires Recorded(codec, log, sizes, fates, turn) && sizes <= sizes' && fates <= fates' && turn <= turn'
    requires IsCall(codec, log + [call], sizes', |log|) && OneGiven(fates, turn, fates')
    requires forall i :: |fates| <= i < |fates'| ==> IsFate(log + [call], fates', turn', i)
    requires DataGiven(fates') ==
             DataGiven(fates) + if call.input.data.Some? && !call.input.fec then [call.input.data.value] else []
    ensures Recorded(codec, log + [call], sizes', fates', turn')
  {
    var log' := log + [call];
    OneCallMore(log, call);
    forall k | 0 <= k < |log'|
      ensures IsCall(codec, log', sizes', k)
    {
      if k < |log| {
        CallStays(codec, log, sizes, log', sizes', k);
      }
    }
    forall i | 0 <= i < |fates'|
      ensures IsFate(log', fates', turn', i)
    {
      if i < |fates| {
        FateStays(log, fates, turn, log', fates', turn', i);
      }
    }
    forall i, j | 0 <= i < j < |fates'|
      ensures InOrder(fates', i, j)
    {
      OrderStays(log, fates, turn, fates', i, j);
    }
  }

  /** The end of the stream is taken out of the queue. */
  lemma {:induction false} RecordEnds(
      codec: Codec, log: seq<Call>, sizes: seq<int>, fates: seq<Fate>, turn: nat, queue: seq<QueuePacket>)
    requires Recorded(codec, log, sizes, fates, turn) && queue != [] && |queue[0].data| <= 1
    ensures Recorded(codec, log, sizes, fates + [Ended(queue[0])], turn)
    ensures Packets(fates + [Ended(queue[0])]) + queue[1..] == Packets(fates) + queue
  {
    var fates' := fates + [Ended(queue[0])];
    OneFateMore(fates, Ended(queue[0]));
    assert queue == [queue[0]] + queue[1..];
    forall i | 0 <= i < |fates'|
      ensures IsFate(log, fates', turn, i)
    {
      assert i < |fates| ==> IsFate(log, fates, turn, i);
    }
    forall i, j | 0 <= i < j < |fates'|
      ensures InOrder(fates', i, j)
    {
      assert j < |fates| ==> InOrder(fates, i, j);
    }
  }

  /** What becomes of the first packet at a call. */
  function FirstFate(queue: seq<QueuePacket>, next: u16, turn: nat, call: Call, n: nat): seq<Fate> {
    if queue == [] then []
    else if queue[0].id == next then [Given(queue[0], turn)]
    else if call.result == None then [Dropped(queue[0], n)]
    else []
  }

  /** The queue is cut to its longest end of fewer than 960 samples and `min` more, which is waited for then. */
  ghost predicate IsCut(queue: seq<QueuePacket>, next: u16, min: int, queue': seq<QueuePacket>, next': u16) {
    && |queue'| <= |queue| && queue' == queue[|queue| - |queue'|..]
    && (queue' != [] ==> Sum(queue') < min + 960)
    && (|queue'| < |queue| ==> Sum(queue[|queue| - |queue'| - 1..]) >= min + 960)
    && next' == if queue' == [] then next else queue'[0].id
  }

  /** A call takes the first packet of the queue if it is next, or if it fails; then the queue may be cut. */
  ghost predicate Follows(
      queue: seq<QueuePacket>, next: u16, call: Call, queue': seq<QueuePacket>, next': u16,
      queue'': seq<QueuePacket>, next'': u16)
  {
    && queue' == (if queue != [] && (queue[0].id == next || call.result == None) then queue[1..] else queue)
    && (queue != [] && queue[0].id == next ==> call.input.data == Some(queue[0].data) && !call.input.fec)
    && (call.input.data.Some? && !call.input.fec ==> queue != [] && queue[0].id == next)
    && next' == (if queue == [] then next else WrapAdd(next, 1))
    && if call.action == Cut then |queue''| <= |queue'| && queue'' == queue'[|queue'| - |queue''|..]
       else queue'' == queue' && next'' == next'
  }

  lemma {:induction false} CallFollows(
      queue: seq<QueuePacket>, next: u16, last: nat, call: Call, queue': seq<QueuePacket>, next': u16, low: int,
      queue'': seq<QueuePacket>, next'': u16)
    requires queue == [] ==> call.input == Input(None, false, last) && queue' == [] && next' == next
    requires queue != [] ==>
               var packet, ahead := queue[0], Ahead(next, queue[0].id);
               && next' == (if next == 0xffff then 0 else next + 1)
               && (ahead == 0 ==> call.input == Input(Some(packet.data), false, packet.samples))
               && (ahead == 1 ==> call.input == Input(Some(packet.data), true, packet.samples))
               && (ahead > 1 ==> call.input == Input(None, false, last))
               && queue' == if ahead == 0 || call.result == None then queue[1..] else queue
    requires if call.action == Cut then IsCut(queue', next', low, queue'', next'')
             else queue'' == queue' && next'' == next'
    ensures Follows(queue, next, call, queue', next', queue'', next'')
  {
  }

  /** The turn after the next id moved on, if it did, and then to any other id. */
  lemma {:induction false} TurnFollows(turn: nat, next: u16, moves: bool, next': u16, next'': u16) returns (turn'': nat)
    requires next == IdAt(turn) && next' == if moves then WrapAdd(next, 1) else next
    ensures turn'' >= (if moves then turn + 1 else turn) && next'' == IdAt(turn'')
  {
    IdFurtherOn(turn, 1);
    var turn' := if moves then turn + 1 else turn;
    IdFurtherOn(turn', Ahead(next', next''));
    turn'' := turn' + Ahead(next', next'');
  }

  /** The call of the decoder and what follows it: what was decoded in turn is still what was given. */
  lemma {:induction false} RecordCall(
      codec: Codec, log: seq<Call>, sizes: seq<int>, fates: seq<Fate>, turn: nat,
      queue: seq<QueuePacket>, next: u16, call: Call, sizes': seq<int>, queue': seq<QueuePacket>, next': u16,
      queue'': seq<QueuePacket>, next'': u16) returns (fates'': seq<Fate>, turn'': nat)
    requires Recorded(codec, log, sizes, fates, turn) && sizes <= sizes' && next == IdAt(turn)
    requires IsCall(codec, log + [call], sizes', |log|) && Follows(queue, next, call, queue', next', queue'', next'')
    ensures fates <= fates'' && next'' == IdAt(turn'')
    ensures Recorded(codec, log + [call], sizes', fates'', turn'')
    ensures Packets(fates'') + queue'' == Packets(fates) + queue
  {
    var first := FirstFate(queue, next, turn, call, |log|);
    turn'' := TurnFollows(turn, next, queue != [], next', next'');
    var cut := queue'[..|queue'| - |queue''|];
    fates'' := fates + first + AllThrown(cut, |log|);
    PacketsLeave(fates, queue, queue', first, cut, queue'', |log|);
    NewFates(log + [call], fates, turn, first, cut, fates'', turn'');
    RecordGrows(codec, log, sizes, fates, turn, call, sizes', fates'', turn'');
  }

  lemma {:induction false} PacketsLeave(
      fates: seq<Fate>, queue: seq<QueuePacket>, queue': seq<QueuePacket>, first: seq<Fate>, cut: seq<QueuePacket>,
      queue'': seq<QueuePacket>, call: nat)
    requires if first == [] then queue' == queue
             else queue != [] && queue' == queue[1..] && |first| == 1 && first[0].packet == queue[0]
    requires |queue''| <= |queue'| && cut == queue'[..|queue'| - |queue''|] && queue'' == queue'[|cut|..]
    ensures Packets(fates + first + AllThrown(cut, call)) + queue'' == Packets(fates) + queue
    ensures DataGiven(fates + first + AllThrown(cut, call)) ==
            DataGiven(fates) + if first != [] && first[0].Given? then [queue[0].data] else []
  {
    assert queue' == cut + queue'';
    FirstLeaves(fates, queue, queue', first);
    ThrownGivesNone(fates + first, cut, call);
    Assoc(Packets(fates + first), cut, queue'');
  }

  lemma {:induction false} NewFates(
      log: seq<Call>, fates: seq<Fate>, turn: nat, first: seq<Fate>, cut: seq<QueuePacket>, fates': seq<Fate>,
      turn': nat)
    requires log != [] && fates' == fates + first + AllThrown(cut, |log| - 1) && |first| <= 1
    requires cut != [] ==> log[|log| - 1].action == Cut
    requires first != [] ==> IsFate(log, first, turn', 0) && (first[0].Given? ==> first[0].at >= turn)
    ensures OneGiven(fates, turn, fates')
    ensures forall i :: |fates| <= i < |fates'| ==> IsFate(log, fates', turn', i)
  {
    forall i | |fates| + |first| <= i < |fates'|
      ensures fates'[i].Thrown? && IsFate(log, fates', turn', i)
    {
      assert fates'[i] == Thrown(cut[i - |fates| - |first|], |log| - 1);
    }
  }

  lemma {:induction false} FirstLeaves(
      fates: seq<Fate>, queue: seq<QueuePacket>, queue': seq<QueuePacket>, first: seq<Fate>)
    requires if first == [] then queue' == queue
             else queue != [] && queue' == queue[1..] && |first| == 1 && first[0].packet == queue[0]
    ensures Packets(fates + first) + queue' == Packets(fates) + queue
    ensures DataGiven(fates + first) ==
            DataGiven(fates) + if first != [] && first[0].Given? then [queue[0].data] else []
  {
    if first == [] {
      assert fates + first == fates;
    } else {
      OneFateMore(fates, first[0]);
      assert first == [first[0]] && queue == [queue[0]] + queue[1..];
    }
  }

  // ----- Adding a packet

  /** Why a packet is refused, if it is; the checks are made in this order. */
  function Refusal(codec: Codec, queue: seq<QueuePacket>, next: u16, id: u16, data: seq<byte>): Option<Error> {
    if |queue| >= MAX_BUFFER_PACKETS then Some(QueueFull)
    else if |data| > 1 && codec.frames(data).None? then Some(BadPacket)
    else if |data| > 1 && codec.frames(data).value > MAX_BUFFER_SIZE then Some(TooManySamples)
    else if Ahead(next, id) > MAX_BUFFER_PACKETS then Some(TooLate(next, id))
    else if exists k :: 0 <= k < |queue| && queue[k].id == id then Some(Duplicate(id))
    else None
  }

  /** A packet is taken exactly when there is room, it can be decoded to at most 24000 frames or ends the stream, it
      is at most 50 ids ahead, and there is none with its id. The checks are made in this order. */
  lemma {:induction false} RefusedExactly(codec: Codec, queue: seq<QueuePacket>, next: u16, id: u16, data: seq<byte>)
    ensures var r, ahead := Refusal(codec, queue, next, id, data), if id >= next then id - next else id - next + 65536;
            var bad := |data| > 1 && codec.frames(data).None?;
            var long := |data| > 1 && !bad && codec.frames(data).value > 24000;
            var known := exists k :: 0 <= k < |queue| && queue[k].id == id;
            && (r == None <==> |queue| < 50 && !bad && !long && ahead <= 50 && !known)
            && (r == Some(QueueFull) <==> |queue| >= 50)
            && (r == Some(BadPacket) <==> |queue| < 50 && bad)
            && (r == Some(TooManySamples) <==> |queue| < 50 && long)
            && (r == Some(TooLate(next, id)) <==> |queue| < 50 && !bad && !long && ahead > 50)
            && (r == Some(Duplicate(id)) <==> |queue| < 50 && !bad && !long && ahead <= 50 && known)
  {
  }

  /** A packet of at most one byte ends the stream and has no samples. */
  function NewPacket(codec: Codec, id: u16, data: seq<byte>, whisper: bool): QueuePacket
    requires |data| > 1 ==> codec.frames(data).Some?
  {
    QueuePacket(id, if |data| <= 1 then 0 else codec.frames(data).value, data, whisper)
  }

  function Reduce(a: nat, b: nat): nat {
    if a > b then a - b else 0
  }

  /** How many samples still have to arrive before playing starts. */
  function BufferingAfter(buffering: nat, queue: seq<QueuePacket>, packet: QueuePacket, lastPacketSamples: nat): nat {
    var lastId := if queue == [] then packet.id else WrapAdd(queue[|queue| - 1].id, 1);
    if lastId <= packet.id then Reduce(Reduce(buffering, packet.samples), (packet.id - lastId) * lastPacketSamples)
    else buffering
  }

  /** A packet at the end counts with its samples and with the last length for every id that is missing before it. */
  lemma {:induction false} BuffersLess(buffering: nat, queue: seq<QueuePacket>, packet: QueuePacket, last: nat)
    ensures var next := if queue == [] then packet.id else (queue[|queue| - 1].id + 1) % 65536;
            BufferingAfter(buffering, queue, packet, last) ==
            if next <= packet.id then Max(0, buffering - packet.samples - (packet.id - next) * last) else buffering
  {
    var next := if queue == [] then packet.id else (queue[|queue| - 1].id + 1) % 65536;
    if next <= packet.id {
      assert (packet.id - next) * last >= 0;
    }
  }

  ghost predicate InsertedInto(queue: seq<QueuePacket>, packet: QueuePacket, i: nat, queue': seq<QueuePacket>) {
    i <= |queue| && queue' == queue[..i] + [packet] + queue[i..]
  }

  lemma {:induction false} FirstIsTaken(codec: Codec, id: u16, data: seq<byte>)
    requires codec.frames(data).Some? && codec.frames(data).value <= MAX_BUFFER_SIZE
    ensures Refusal(codec, [], id, id, data) == None
  {
  }

  lemma {:induction false} FirstBuffersNothing(packet: QueuePacket, last: nat)
    ensures BufferingAfter(0, [], packet, last) == 0
  {
  }

  lemma {:induction false} FirstIsAlone(packet: QueuePacket, queue: seq<QueuePacket>)
    requires exists i :: InsertedInto([], packet, i, queue)
    ensures queue == [packet]
  {
  }

  /** The scan from the back stops where a packet with the same id would be. */
  lemma {:induction false} SlotSeparates(queue: seq<QueuePacket>, next: u16, id: u16, i: nat)
    requires Ordered(queue, next) && i <= |queue| && Ahead(next, id) <= MAX_BUFFER_PACKETS
    requires i < |queue| ==> Ahead(next, id) <= Ahead(next, queue[i].id)
    requires i > 0 ==> Ahead(id, queue[i - 1].id) > MAX_BUFFER_PACKETS
    ensures i > 0 ==> Ahead(next, queue[i - 1].id) < Ahead(next, id)
    ensures (exists k :: 0 <= k < |queue| && queue[k].id == id) <==> i < |queue| && queue[i].id == id
    ensures i < |queue| && queue[i].id != id ==> Ahead(next, id) < Ahead(next, queue[i].id)
  {
    if i > 0 {
      assert Placed(queue, next, i - 1);
      CloseIsNotBefore(next, id, queue[i - 1].id);
    }
    if i < |queue| {
      assert Placed(queue, next, i);
      CloseIsNotBefore(next, id, queue[i].id);
    }
    forall k | 0 <= k < |queue| && k != i
      ensures queue[k].id != id
    {
      if k < i - 1 { OrderedPair(queue, next, k, i - 1); }
      if k > i { OrderedPair(queue, next, i, k); }
    }
  }

  /** The place of an id: before the first packet that is not before it. */
  method FindSlot(queue: seq<QueuePacket>, next: u16, id: u16) returns (i: nat)
    requires Ordered(queue, next) && Ahead(next, id) <= MAX_BUFFER_PACKETS
    ensures i <= |queue| && (i > 0 ==> Ahead(next, queue[i - 1].id) < Ahead(next, id))
    ensures (exists k :: 0 <= k < |queue| && queue[k].id == id) <==> i < |queue| && queue[i].id == id
    ensures i < |queue| && queue[i].id != id ==> Ahead(next, id) < Ahead(next, queue[i].id)
  {
    i := |queue|;
    while i > 0 && Ahead(id, queue[i - 1].id) <= MAX_BUFFER_PACKETS
      invariant i <= |queue|
      invariant i < |queue| ==> Ahead(next, id) <= Ahead(next, queue[i].id)
    {
      assert Placed(queue, next, i - 1);
      CloseIsNotBefore(next, id, queue[i - 1].id);
      i := i - 1;
    }
    SlotSeparates(queue, next, id, i);
  }

  // ----- The size of the buffer

  /** The samples in the queue and those of the packets missing in between. */
  function Buffered(queue: seq<QueuePacket>, next: u16, samples: nat, lastPacketSamples: nat): int {
    samples + if queue == [] then 0 else (Ahead(next, queue[|queue| - 1].id) + 1 - |queue|) * lastPacketSamples
  }

  lemma {:induction false} BufferedIsNatural(queue: seq<QueuePacket>, next: u16, samples: nat, lastPacketSamples: nat)
    requires Ordered(queue, next)
    ensures queue != [] ==> Ahead(next, queue[|queue| - 1].id) + 1 >= |queue|
    ensures Buffered(queue, next, samples, lastPacketSamples) >= samples
  {
    if queue != [] {
      AtLeastIndex(queue, next, |queue| - 1);
    }
  }

  /** What the packet `n` ids ahead of the next one will yield: its samples, or the last length if it is missing. */
  ghost function SamplesAt(queue: seq<QueuePacket>, next: u16, n: nat, last: nat): nat {
    if exists k :: 0 <= k < |queue| && Ahead(next, queue[k].id) == n then
      var k :| 0 <= k < |queue| && Ahead(next, queue[k].id) == n;
      queue[k].samples
    else last
  }

  ghost function SamplesUpTo(queue: seq<QueuePacket>, next: u16, n: nat, last: nat): nat
    decreases n
  {
    if n == 0 then 0 else SamplesUpTo(queue, next, n - 1, last) + SamplesAt(queue, next, n - 1, last)
  }

  lemma {:induction false} SamplesAtIs(queue: seq<QueuePacket>, next: u16, last: nat, k: nat)
    requires Ordered(queue, next) && k < |queue|
    ensures SamplesAt(queue, next, Ahead(next, queue[k].id), last) == queue[k].samples
  {
    forall i | 0 <= i < |queue| && i != k
      ensures Ahead(next, queue[i].id) != Ahead(next, queue[k].id)
    {
      if i < k { OrderedPair(queue, next, i, k); } else { OrderedPair(queue, next, k, i); }
    }
  }

  lemma {:induction false} MissingBetween(queue: seq<QueuePacket>, next: u16, last: nat, k: nat, n: nat)
    requires Ordered(queue, next) && k < |queue| && n < Ahead(next, queue[k].id)
    requires k > 0 ==> Ahead(next, queue[k - 1].id) < n
    ensures SamplesAt(queue, next, n, last) == last
  {
    forall i | 0 <= i < |queue|
      ensures Ahead(next, queue[i].id) != n
    {
      if i > k { OrderedPair(queue, next, k, i); }
      if i < k - 1 { OrderedPair(queue, next, i, k - 1); }
    }
  }

  /** `n` times `last`, by addition. */
  ghost function Times(n: nat, last: nat): nat
    decreases n
  {
    if n == 0 then 0 else Times(n - 1, last) + last
  }

  lemma {:induction false} TimesIsProduct(n: nat, last: nat)
    ensures Times(n, last) == n * last
    decreases n
  {
    if n > 0 {
      TimesIsProduct(n - 1, last);
    }
  }

  lemma {:induction false} TimesAdds(a: nat, b: nat, c: nat, last: nat)
    requires c == a + b
    ensures Times(c, last) == Times(a, last) + Times(b, last)
    decreases b
  {
    if b > 0 {
      TimesAdds(a, b - 1, c - 1, last);
    }
  }

  /** Where packet `k` could be at the earliest. */
  ghost function Behind(queue: seq<QueuePacket>, next: u16, k: nat): nat
    requires k < |queue|
  {
    if k == 0 then 0 else Ahead(next, queue[k - 1].id) + 1
  }

  /** Between two packets of the queue, and before the first one, all are missing. */
  lemma {:induction false} SamplesBetween(
      queue: seq<QueuePacket>, next: u16, last: nat, k: nat, from: nat, n: nat, to: nat)
    requires Ordered(queue, next) && k < |queue| && from == Behind(queue, next, k)
    requires to == from + n <= Ahead(next, queue[k].id)
    ensures SamplesUpTo(queue, next, to, last) == SamplesUpTo(queue, next, from, last) + Times(n, last)
    decreases n
  {
    if n > 0 {
      SamplesBetween(queue, next, last, k, from, n - 1, to - 1);
      MissingBetween(queue, next, last, k, to - 1);
    }
  }

  lemma {:induction false} SumThrough(queue: seq<QueuePacket>, k: nat)
    requires k < |queue|
    ensures Sum(queue[..k + 1]) == Sum(queue[..k]) + queue[k].samples
    ensures Sum(queue[..0]) == 0
  {
    assert queue[..k + 1][..k] == queue[..k];
  }

  /** From behind the packet before it up to packet `k`. */
  lemma {:induction false} SamplesOfStretch(queue: seq<QueuePacket>, next: u16, last: nat, k: nat, from: nat, at: nat)
    requires Ordered(queue, next) && k < |queue| && at == Ahead(next, queue[k].id) && from == Behind(queue, next, k)
    ensures k <= from <= at
    ensures SamplesUpTo(queue, next, at + 1, last) ==
            SamplesUpTo(queue, next, from, last) + Times(at - from, last) + queue[k].samples
  {
    SamplesAtIs(queue, next, last, k);
    if k > 0 {
      OrderedPair(queue, next, k - 1, k);
      AtLeastIndex(queue, next, k - 1);
    }
    SamplesBetween(queue, next, last, k, from, at - from, at);
  }

  lemma {:induction false} SamplesThrough(
      queue: seq<QueuePacket>, next: u16, last: nat, k: nat, to: nat, missing: nat)
    requires Ordered(queue, next) && k < |queue| && to == Ahead(next, queue[k].id) + 1 && missing == to - 1 - k
    ensures SamplesUpTo(queue, next, to, last) == Sum(queue[..k + 1]) + Times(missing, last)
    decreases k
  {
    var from := Behind(queue, next, k);
    SamplesOfStretch(queue, next, last, k, from, to - 1);
    SumThrough(queue, k);
    TimesAdds(from - k, to - 1 - from, missing, last);
    if k == 0 {
      assert SamplesUpTo(queue, next, from, last) == 0;
    } else {
      SamplesThrough(queue, next, last, k - 1, from, from - k);
    }
  }

  /** The size of the buffer is what all packets up to the last one in the queue will yield, the missing ones too. */
  lemma {:induction false} BufferedIsWhatFollows(queue: seq<QueuePacket>, next: u16, last: nat)
    requires Ordered(queue, next)
    ensures Buffered(queue, next, Sum(queue), last) ==
            SamplesUpTo(queue, next, if queue == [] then 0 else Ahead(next, queue[|queue| - 1].id) + 1, last)
  {
    if queue != [] {
      var to := Ahead(next, queue[|queue| - 1].id) + 1;
      AtLeastIndex(queue, next, |queue| - 1);
      SamplesThrough(queue, next, last, |queue| - 1, to, to - |queue|);
      assert queue[..|queue|] == queue;
      TimesIsProduct(to - |queue|, last);
    }
  }

  /** What is put into the windows for a buffer of `size` samples: nothing if it does not fit. */
  function SizesAfter(sizes: seq<int>, size: nat): seq<int> {
    if size / USUAL_FRAME_SIZE < 0x100 then sizes + [size / USUAL_FRAME_SIZE] else sizes
  }

  /** The maximum is kept as the minimum of the reversed order. */
  ghost predicate Mirrored(sizes: seq<int>, reversed: seq<int>) {
    |sizes| == |reversed| && forall k :: 0 <= k < |sizes| ==> 0 <= sizes[k] < 0x100 && reversed[k] == -sizes[k]
  }

  lemma {:induction false} MinimumOfReversed(sizes: seq<int>, reversed: seq<int>, size: byte, m: int)
    requires Mirrored(sizes, reversed) && IsMinimum(Last(reversed, size), m)
    ensures IsMaximum(Last(sizes, size), -m)
  {
    var a, b := Last(sizes, size), Last(reversed, size);
    assert forall k :: 0 <= k < |a| ==> b[k] == -a[k];
    var k :| 0 <= k < |b| && b[k] == m;
    assert a[k] == -m;
  }

  lemma {:induction false} WindowInRange(sizes: seq<int>, reversed: seq<int>, size: byte, m: int)
    requires Mirrored(sizes, reversed) && m in Last(sizes, size)
    ensures 0 <= m < 0x100
  {
    var k :| 0 <= k < |Last(sizes, size)| && Last(sizes, size)[k] == m;
  }

  /** Packets that end the stream have no samples. */
  ghost predicate EndIsEmpty(queue: seq<QueuePacket>, k: nat)
    requires k < |queue|
  {
    |queue[k].data| <= 1 ==> queue[k].samples == 0
  }

  /** The packets are in order, few, and hold `samples` samples. */
  ghost predicate Consistent(queue: seq<QueuePacket>, next: u16, samples: nat) {
    && Ordered(queue, next) && |queue| <= MAX_BUFFER_PACKETS
    && (forall k :: 0 <= k < |queue| ==> EndIsEmpty(queue, k))
    && samples == Sum(queue)
  }

  lemma {:induction false} InsertKeepsConsistent(
      queue: seq<QueuePacket>, next: u16, samples: nat, i: nat, packet: QueuePacket, queue': seq<QueuePacket>)
    requires Consistent(queue, next, samples) && |queue| < MAX_BUFFER_PACKETS
    requires i <= |queue| && queue' == queue[..i] + [packet] + queue[i..]
    requires Ahead(next, packet.id) <= MAX_BUFFER_PACKETS && (|packet.data| <= 1 ==> packet.samples == 0)
    requires i > 0 ==> Ahead(next, queue[i - 1].id) < Ahead(next, packet.id)
    requires i < |queue| ==> Ahead(next, packet.id) < Ahead(next, queue[i].id)
    ensures Consistent(queue', next, samples + packet.samples)
  {
    InsertKeepsOrder(queue, next, i, packet);
    SumInsert(queue, i, packet);
    forall k | 0 <= k < |queue'|
      ensures EndIsEmpty(queue', k)
    {
      assert k < i ==> EndIsEmpty(queue, k);
      assert k > i ==> EndIsEmpty(queue, k - 1);
    }
  }

  /** The first packet taken out, with the next id moved past its place. */
  lemma {:induction false} PopKeepsConsistent(queue: seq<QueuePacket>, next: u16, samples: nat)
    requires Consistent(queue, next, samples) && queue != []
    ensures samples >= queue[0].samples && EndIsEmpty(queue, 0)
    ensures Consistent(queue[1..], next, samples - queue[0].samples)
    ensures Consistent(queue[1..], WrapAdd(next, 1), samples - queue[0].samples)
    ensures queue[0].id != next ==> Consistent(queue, WrapAdd(next, 1), samples)
  {
    var rest := queue[1..];
    SumTail(queue);
    SuffixKeepsOrder(queue, next, 1);
    forall k | 0 <= k < |rest|
      ensures EndIsEmpty(rest, k)
    {
      assert EndIsEmpty(queue, k + 1);
    }
    assert Placed(queue, next, 0) && (|queue| > 1 ==> Placed(queue, next, 1));
    AdvanceKeepsOrder(rest, next, 1);
    if queue[0].id != next {
      AdvanceKeepsOrder(queue, next, 1);
    }
  }

  /** The first packets thrown away, and waiting for the first that is left. */
  lemma {:induction false} DropKeepsConsistent(queue: seq<QueuePacket>, next: u16, samples: nat, n: nat)
    requires Consistent(queue, next, samples) && n <= |queue|
    ensures var rest := queue[n..];
            Consistent(rest, if rest == [] then next else rest[0].id, Sum(rest))
  {
    var rest := queue[n..];
    SuffixKeepsOrder(queue, next, n);
    forall k | 0 <= k < |rest|
      ensures EndIsEmpty(rest, k)
    {
      assert EndIsEmpty(queue, n + k);
    }
    if rest != [] {
      assert Placed(rest, next, 0);
      AdvanceKeepsOrder(rest, next, Ahead(next, rest[0].id));
    }
  }

  lemma {:induction false} TailSum(queue: seq<QueuePacket>, i: nat)
    requires i < |queue|
    ensures Sum(queue[i..]) == queue[i].samples + Sum(queue[i + 1..])
  {
    SumTail(queue[i..]);
    assert queue[i..][1..] == queue[i + 1..];
  }

  // ----- The queue

  datatype Outcome = Data(samples: seq<Sample>, ended: bool) | DecodeFailed | Panic

  datatype Decoding = Decoded | StreamEnd | Failed

  class AudioQueue {
    const codec: Codec
    const minWindow: SlidingWindowMinimum
    const maxWindow: SlidingWindowMinimum
    var calls: nat
    var nextId: u16
    var whispering: bool
    var packetBuffer: seq<QueuePacket>
    var packetBufferSamples: nat
    var decodedBuffer: seq<Sample>
    var decodedPos: nat
    var lastPacketSamples: nat
    var packetLossNum: nat
    var bufferingSamples: nat
    var bufferedForSamples: nat
    /** Every call of the decoder, what became of the packets that left the queue, and every sample returned to
        the caller. `turn` is the next id without wrapping. */
    ghost var log: seq<Call>
    ghost var fates: seq<Fate>
    ghost var returned: seq<Sample>
    ghost var turn: nat

    ghost predicate Ready()
      reads this, minWindow, maxWindow
    {
      && codec.Sound()
      && Consistent(packetBuffer, nextId, packetBufferSamples)
      && minWindow != maxWindow && minWindow.Valid() && maxWindow.Valid()
      && minWindow.size == maxWindow.size == LAST_BUFFER_SIZE_COUNT
      && minWindow.history != [] && Mirrored(minWindow.history, maxWindow.history)
    }

    ghost predicate Valid()
      reads this, minWindow, maxWindow
    {
      Ready() && calls == |log| && nextId == IdAt(turn) &&
      Recorded(codec, log, minWindow.history, fates, turn)
    }

    /** All packets ever accepted: those that left the queue, in that order, and those in it. */
    ghost function Accepted(): seq<QueuePacket>
      reads this
    {
      Packets(fates) + packetBuffer
    }

    /** What was decoded is what was returned and what is still to be returned, in order. */
    ghost predicate InStep()
      reads this
    {
      decodedPos <= |decodedBuffer| && Flatten(log) == returned + decodedBuffer[decodedPos..]
    }

    /** A queue that waits for packet `id` first. */
    constructor (codec: Codec, id: u16, frames: nat, whisper: bool)
      requires codec.Sound()
      ensures Valid() && InStep() && fresh(minWindow) && fresh(maxWindow)
      ensures this.codec == codec && nextId == id && packetBuffer == [] && decodedBuffer == [] && log == []
      ensures fates == [] && returned == []
      ensures lastPacketSamples == frames * 2 && bufferingSamples == 0 && whispering == whisper
      ensures minWindow.history == [0]
    {
      this.codec := codec;
      minWindow := new SlidingWindowMinimum(LAST_BUFFER_SIZE_COUNT);
      maxWindow := new SlidingWindowMinimum(LAST_BUFFER_SIZE_COUNT);
      calls, nextId, whispering := 0, id, whisper;
      packetBuffer, packetBufferSamples := [], 0;
      decodedBuffer, decodedPos := [], 0;
      lastPacketSamples, packetLossNum := frames * CHANNEL_NUM, 0;
      bufferingSamples, bufferedForSamples := 0, 0;
      log, fates, returned, turn := [], [], [], id;
      new;
      IdFurtherOn(0, id);
      AddBufferSize(0);
    }

    /** Start a queue with its first packet. */
    static method New(codec: Codec, id: u16, data: seq<byte>, whisper: bool) returns (r: Result<AudioQueue, Error>)
      requires codec.Sound()
      ensures r.Failure? <==> codec.frames(data).None? || codec.frames(data).value > 24000
      ensures r.Success? ==> fresh(r.value) && r.value.Valid() && r.value.InStep() && r.value.nextId == id &&
                             r.value.packetBuffer == [NewPacket(codec, id, data, whisper)] &&
                             r.value.Accepted() == r.value.packetBuffer
      ensures r.Success? ==> r.value.lastPacketSamples == codec.frames(data).value * 2 &&
                             r.value.whispering == whisper && r.value.bufferingSamples == 0
    {
      var frames := codec.frames(data);
      if frames.None? {
        return Failure(BadPacket);
      }
      if frames.value > MAX_BUFFER_SIZE {
        return Failure(TooManySamples);
      }
      FirstIsTaken(codec, id, data);
      var queue := new AudioQueue(codec, id, frames.value, whisper);
      FirstBuffersNothing(NewPacket(codec, id, data, whisper), queue.lastPacketSamples);
      var added := queue.AddPacket(id, data, whisper);
      FirstIsAlone(NewPacket(codec, id, data, whisper), queue.packetBuffer);
      r := Success(queue);
    }

    /** Size is in samples. */
    method AddBufferSize(size: nat)
      requires minWindow != maxWindow && minWindow.Valid() && maxWindow.Valid() &&
               Mirrored(minWindow.history, maxWindow.history)
      modifies minWindow, maxWindow
      ensures minWindow.Valid() && maxWindow.Valid() && Mirrored(minWindow.history, maxWindow.history)
      ensures minWindow.history == SizesAfter(old(minWindow.history), size)
      ensures minWindow.history == old(minWindow.history) + if size / 960 <= 255 then [size / 960] else []
    {
      if size / USUAL_FRAME_SIZE < 0x100 {
        minWindow.Push(size / USUAL_FRAME_SIZE);
        maxWindow.Push(-(size / USUAL_FRAME_SIZE));
      }
    }

    /** The spread of the last buffer sizes, which fits a byte. */
    method GetDeviation() returns (deviation: byte)
      requires Ready()
      ensures exists low, high :: IsMinimum(Last(minWindow.history, LAST_BUFFER_SIZE_COUNT), low) &&
                                  IsMaximum(Last(minWindow.history, LAST_BUFFER_SIZE_COUNT), high) &&
                                      deviation == high - low
    {
      var min := minWindow.GetMin();
      var max := maxWindow.GetMin();
      MinimumOfReversed(minWindow.history, maxWindow.history, LAST_BUFFER_SIZE_COUNT, max);
      WindowInRange(minWindow.history, maxWindow.history, LAST_BUFFER_SIZE_COUNT, min);
      WindowInRange(minWindow.history, maxWindow.history, LAST_BUFFER_SIZE_COUNT, -max);
      deviation := -max - min;
    }

    /** Puts the packet where it belongs in the order of ids, or refuses it. */
    method AddPacket(id: u16, data: seq<byte>, whisper: bool) returns (r: Result<(), Error>)
      requires Valid()
      modifies this`packetBuffer, this`packetBufferSamples, this`bufferingSamples
      ensures Valid()
      ensures match Refusal(codec, old(packetBuffer), nextId, id, data)
              case Some(error) =>
                r == Failure(error) && packetBuffer == old(packetBuffer) && bufferingSamples == old(bufferingSamples)
              case None =>
                && r == Success(())
                && NewPacket(codec, id, data, whisper) ==
                   QueuePacket(id, if |data| > 1 then codec.frames(data).value else 0, data, whisper)
                && (exists i :: InsertedInto(old(packetBuffer), NewPacket(codec, id, data, whisper), i, packetBuffer))
                && bufferingSamples == BufferingAfter(old(bufferingSamples), old(packetBuffer),
                   NewPacket(codec, id, data, whisper), lastPacketSamples)
    {
      if |packetBuffer| >= MAX_BUFFER_PACKETS {
        return Failure(QueueFull);
      }
      if |data| > 1 {
        var frames := codec.frames(data);
        if frames.None? {
          return Failure(BadPacket);
        }
        if frames.value > MAX_BUFFER_SIZE {
          return Failure(TooManySamples);
        }
      }
      var packet := NewPacket(codec, id, data, whisper);
      if Ahead(nextId, id) > MAX_BUFFER_PACKETS {
        return Failure(TooLate(nextId, id));
      }
      var i := FindSlot(packetBuffer, nextId, id);
      if i < |packetBuffer| && packetBuffer[i].id == id {
        return Failure(Duplicate(id));
      }
      var queue := packetBuffer[..i] + [packet] + packetBuffer[i..];
      assert InsertedInto(packetBuffer, packet, i, queue);
      InsertKeepsConsistent(packetBuffer, nextId, packetBufferSamples, i, packet, queue);
      bufferingSamples := BufferingAfter(bufferingSamples, packetBuffer, packet, lastPacketSamples);
      packetBufferSamples := packetBufferSamples + packet.samples;
      packetBuffer := queue;
      r := Success(());
    }

    /** The size of the buffer goes into the windows. */
    method UpdateSizes()
      requires Ready()
      modifies minWindow, maxWindow
      ensures Ready() && 0 <= Buffered(packetBuffer, nextId, packetBufferSamples, lastPacketSamples)
      ensures minWindow.history ==
              SizesAfter(old(minWindow.history),
                         Buffered(packetBuffer, nextId, packetBufferSamples, lastPacketSamples))
    {
      BufferedIsNatural(packetBuffer, nextId, packetBufferSamples, lastPacketSamples);
      AddBufferSize(Buffered(packetBuffer, nextId, packetBufferSamples, lastPacketSamples));
    }

    /** Decode one packet to the end of the buffer, or a replacement if there is none. */
    method DecodePacket(packet: Option<QueuePacket>, fec: bool) returns (ok: bool)
      requires Ready()
      modifies this`calls, this`whispering, this`decodedBuffer, this`lastPacketSamples, this`packetLossNum,
               minWindow, maxWindow
      ensures Ready() && calls == old(calls) + 1
      ensures var data := if packet.Some? then Some(packet.value.data) else None;
              var frames := if packet.Some? then packet.value.samples else old(lastPacketSamples);
              var decoded := codec.decode(old(calls), data, fec, frames);
              && ok == decoded.Some?
              && decodedBuffer == old(decodedBuffer) + (if ok then decoded.value else Repeat(0.0, frames * CHANNEL_NUM))
              && (ok ==> |decoded.value| == lastPacketSamples * CHANNEL_NUM)
      ensures !ok ==> lastPacketSamples == old(lastPacketSamples)
      ensures packetLossNum == if ok && packet.Some? && !fec then 0 else old(packetLossNum) + 1
      ensures whispering == if packet.Some? then packet.value.whisper else old(whispering)
      ensures 0 <= Buffered(packetBuffer, nextId, packetBufferSamples, lastPacketSamples)
      ensures minWindow.history ==
              if ok then SizesAfter(old(minWindow.history),
                  Buffered(packetBuffer, nextId, packetBufferSamples, lastPacketSamples))
              else old(minWindow.history)
    {
      BufferedIsNatural(packetBuffer, nextId, packetBufferSamples, lastPacketSamples);
      var data, frames := None, lastPacketSamples;
      if packet.Some? {
        data, frames := Some(packet.value.data), packet.value.samples;
        whispering := packet.value.whisper;
      }
      packetLossNum := packetLossNum + 1;
      var decoded := codec.decode(calls, data, fec, frames);
      calls := calls + 1;
      if decoded.None? {
        decodedBuffer := decodedBuffer + Repeat(0.0, frames * CHANNEL_NUM);
        return false;
      }
      ghost var count: nat :| count <= frames && |decoded.value| == count * CHANNEL_NUM;
      lastPacketSamples := |decoded.value| / CHANNEL_NUM;
      assert lastPacketSamples == count;
      decodedBuffer := decodedBuffer + decoded.value;
      if packet.Some? && !fec {
        packetLossNum := 0;
      }
      UpdateSizes();
      return true;
    }

    /** Take the next packet from the queue and decode it, or make up for a lost one. The packet right after a
        single lost one helps to restore it. A packet that is not next stays, unless the decoder fails. */
    method DecodeNext() returns (step: Decoding, ghost input: Input, ghost result: Option<seq<Sample>>)
      requires Ready()
      modifies this`calls, this`whispering, this`decodedBuffer, this`lastPacketSamples, this`packetLossNum, this`nextId,
               this`packetBuffer, this`packetBufferSamples, minWindow, maxWindow
      ensures Ready() && old(minWindow.history) <= minWindow.history
      ensures step == StreamEnd <==> old(packetBuffer) != [] && |old(packetBuffer)[0].data| <= 1
      ensures step == StreamEnd ==>
                && packetBuffer == old(packetBuffer)[1..] && decodedBuffer == old(decodedBuffer)
                && nextId == old(nextId) && calls == old(calls) && minWindow.history == old(minWindow.history)
      ensures step != Decoded ==> lastPacketSamples == old(lastPacketSamples)
      ensures step != StreamEnd ==>
                && result == codec.decode(old(calls), input.data, input.fec, input.frames)
                && step == (if result.Some? then Decoded else Failed) && calls == old(calls) + 1
                && (step == Decoded ==>
                      && decodedBuffer == old(decodedBuffer) + result.value
                      && |result.value| == lastPacketSamples * 2)
      ensures step != StreamEnd && old(packetBuffer) == [] ==>
                input == Input(None, false, old(lastPacketSamples)) && packetBuffer == [] && nextId == old(nextId)
      ensures step != StreamEnd && old(packetBuffer) != [] ==>
                var packet, ahead := old(packetBuffer)[0], Ahead(old(nextId), old(packetBuffer)[0].id);
                && nextId == (if old(nextId) == 0xffff then 0 else old(nextId) + 1)
                && (ahead == 0 ==> input == Input(Some(packet.data), false, packet.samples))
                && (ahead == 1 ==> input == Input(Some(packet.data), true, packet.samples))
                && (ahead > 1 ==> input == Input(None, false, old(lastPacketSamples)))
                && packetBuffer == if ahead == 0 || step == Failed then old(packetBuffer)[1..] else old(packetBuffer)
    {
      if packetBuffer == [] {
        input := Input(None, false, lastPacketSamples);
        result := codec.decode(calls, None, false, lastPacketSamples);
        var decoded := DecodePacket(None, false);
        step := if decoded then Decoded else Failed;
        return;
      }
      PopKeepsConsistent(packetBuffer, nextId, packetBufferSamples);
      ghost var queue := packetBuffer;
      var packet := packetBuffer[0];
      packetBuffer := packetBuffer[1..];
      input, result := Input(None, false, lastPacketSamples), None;
      if |packet.data| <= 1 {
        step := StreamEnd;
        return;
      }
      packetBufferSamples := packetBufferSamples - packet.samples;
      var cur := nextId;
      nextId := WrapAdd(nextId, 1);
      var lost := packet.id != cur;
      var fec := lost && packet.id == nextId;
      if !lost || fec {
        input := Input(Some(packet.data), fec, packet.samples);
      }
      result := codec.decode(calls, input.data, input.fec, input.frames);
      var ok := DecodePacket(if !lost || fec then Some(packet) else None, fec);
      if ok && lost {
        packetBufferSamples := packetBufferSamples + packet.samples;
        packetBuffer := [packet] + packetBuffer;
        assert packetBuffer == queue;
      }
      step := if ok then Decoded else Failed;
    }

    /** Throw away all but the last packets, which together hold less than a frame and `min` samples. */
    method Truncate(min: byte)
      requires Ready()
      modifies this`nextId, this`packetBuffer, this`packetBufferSamples
      ensures Ready()
      ensures IsCut(old(packetBuffer), old(nextId), min, packetBuffer, nextId)
    {
      var n := KeepFrom(packetBuffer, min);
      DropKeepsConsistent(packetBuffer, nextId, packetBufferSamples, n);
      packetBuffer := packetBuffer[n..];
      packetBufferSamples := Sum(packetBuffer);
      if packetBuffer != [] {
        nextId := packetBuffer[0].id;
      }
    }

    /** Remove every hundredth frame of the packet decoded last, in place. */
    method SpeedUp()
      requires lastPacketSamples * CHANNEL_NUM <= |decodedBuffer|
      modifies this`decodedBuffer
      ensures var start := |old(decodedBuffer)| - lastPacketSamples * CHANNEL_NUM;
              decodedBuffer == old(decodedBuffer)[..start] + SpedUp(old(decodedBuffer)[start..])
    {
      var start := |decodedBuffer| - lastPacketSamples * CHANNEL_NUM;
      ghost var head, tail := decodedBuffer[..start], decodedBuffer[start..];
      for i := 0 to lastPacketSamples / SPEED_CHANGE_STEPS
        invariant i * 200 <= |tail| && |tail| == lastPacketSamples * CHANNEL_NUM
        invariant decodedBuffer == Drained(head, tail, i)
      {
        var at := start + i * (SPEED_CHANGE_STEPS - 1) * CHANNEL_NUM;
        DrainNext(head, tail, i, at, decodedBuffer);
        decodedBuffer := decodedBuffer[..at] + decodedBuffer[at + CHANNEL_NUM..];
      }
      DrainedIsSpedUp(head, tail, lastPacketSamples / SPEED_CHANGE_STEPS);
    }

    /** Keep the buffer short: throw packets away when it is far too long, and speed up the packet
        just decoded when it is longer than its deviation. */
    method Adapt() returns (ghost action: Action, ghost low: int, ghost high: int)
      requires Ready() && lastPacketSamples * 2 <= |decodedBuffer|
      modifies this`nextId, this`packetBuffer, this`packetBufferSamples, this`decodedBuffer
      ensures Ready()
      ensures IsMinimum(Last(minWindow.history, 255), low) && IsMaximum(Last(minWindow.history, 255), high)
      ensures action == if low > 25 then Cut else if low > high - low then Sped else Kept
      ensures if low > 25 then IsCut(old(packetBuffer), old(nextId), low, packetBuffer, nextId)
              else packetBuffer == old(packetBuffer) && nextId == old(nextId)
      ensures var start := |old(decodedBuffer)| - lastPacketSamples * 2;
              decodedBuffer == if action == Sped then old(decodedBuffer)[..start] + SpedUp(old(decodedBuffer)[start..])
                  else old(decodedBuffer)
    {
      var min := minWindow.GetMin();
      var dev := GetDeviation();
      WindowInRange(minWindow.history, maxWindow.history, LAST_BUFFER_SIZE_COUNT, min);
      low := min;
      high := HighestIs(minWindow.history, min, dev);
      action := Kept;
      if min > MAX_BUFFER_SIZE / USUAL_FRAME_SIZE {
        Truncate(min);
        action := Cut;
      } else if min > dev {
        SpeedUp();
        action := Sped;
      }
    }

    /** Adapt to what was decoded, unless it was nothing. */
    method Settle(ghost input: Input, ghost before: seq<Sample>, ghost decoded: seq<Sample>)
      returns (ghost call: Call, ghost low: int)
      requires Ready() && decodedBuffer == before + decoded && |decoded| == lastPacketSamples * 2
      requires calls > 0 && codec.decode(calls - 1, input.data, input.fec, input.frames) == Some(decoded)
      modifies this`nextId, this`packetBuffer, this`packetBufferSamples, this`decodedBuffer
      ensures Ready() && call.input == input && call.result == Some(decoded) && call.sizes == |minWindow.history|
      ensures CallIs(codec, calls - 1, minWindow.history, call)
      ensures decodedBuffer == before + Played(call)
      ensures if call.action == Cut then IsCut(old(packetBuffer), old(nextId), low, packetBuffer, nextId)
              else packetBuffer == old(packetBuffer) && nextId == old(nextId)
    {
      ghost var between := decodedBuffer;
      call, low := Call(input, Some(decoded), Kept, |minWindow.history|), 0;
      if lastPacketSamples != 0 {
        ghost var action, high;
        action, low, high := Adapt();
        IsAdapted(minWindow.history, |minWindow.history|, low, high, action);
        call := call.(action := action);
      }
      PlayedBehind(before, decoded, between, call, decodedBuffer);
    }

    /** Decode one packet and adapt the length of the buffer. */
    method DecodeAndAdapt() returns (step: Decoding, ghost call: Call, ghost queue: seq<QueuePacket>, ghost next: u16)
      requires Ready()
      modifies this`calls, this`whispering, this`decodedBuffer, this`lastPacketSamples, this`packetLossNum, this`nextId,
               this`packetBuffer, this`packetBufferSamples, minWindow, maxWindow
      ensures Ready() && old(minWindow.history) <= minWindow.history
      ensures step == StreamEnd ==>
                && old(packetBuffer) != [] && |old(packetBuffer)[0].data| <= 1
                && packetBuffer == old(packetBuffer)[1..] && decodedBuffer == old(decodedBuffer)
                && nextId == old(nextId) && calls == old(calls) && minWindow.history == old(minWindow.history)
      ensures step != StreamEnd ==>
                && calls == old(calls) + 1 && (step == Failed <==> call.result == None)
                && CallIs(codec, old(calls), minWindow.history, call)
                && Follows(old(packetBuffer), old(nextId), call, queue, next, packetBuffer, nextId)
      ensures step == Decoded ==> (lastPacketSamples == 0 <==> call.result == Some([]))
      ensures step == Decoded ==> decodedBuffer == old(decodedBuffer) + Played(call)
      ensures step != Decoded ==> lastPacketSamples == old(lastPacketSamples)
    {
      ghost var before, last, low := decodedBuffer, lastPacketSamples, 0;
      ghost var input, result;
      step, input, result := DecodeNext();
      queue, next := packetBuffer, nextId;
      call := Call(input, result, Kept, |minWindow.history|);
      if step == StreamEnd {
        return;
      }
      if step == Decoded {
        call, low := Settle(input, before, result.value);
      }
      CallFollows(old(packetBuffer), old(nextId), last, call, queue, next, low, packetBuffer, nextId);
    }

    ghost method WriteDown(
        sizes: seq<int>, queue: seq<QueuePacket>, next: u16, call: Call, queue': seq<QueuePacket>, next': u16)
      requires Ready() && calls == |log| + 1 && next == IdAt(turn) && sizes <= minWindow.history
      requires Recorded(codec, log, sizes, fates, turn) && CallIs(codec, |log|, minWindow.history, call)
      requires Follows(queue, next, call, queue', next', packetBuffer, nextId)
      modifies this`log, this`fates, this`turn
      ensures Valid() && log == old(log) + [call] && old(fates) <= fates
      ensures Accepted() == Packets(old(fates)) + queue
    {
      fates, turn := RecordCall(codec, log, sizes, fates, turn, queue, next, call, minWindow.history, queue', next',
                                packetBuffer, nextId);
      log := log + [call];
    }

    /** Decode, and write down what became of the packets. */
    method Refill() returns (step: Decoding, ghost added: seq<Sample>)
      requires Valid()
      modifies this`calls, this`whispering, this`decodedBuffer, this`lastPacketSamples, this`packetLossNum, this`nextId,
               this`packetBuffer, this`packetBufferSamples, this`log, this`fates, this`turn, minWindow, maxWindow
      ensures Valid() && old(log) <= log && old(fates) <= fates && Accepted() == old(Accepted())
      ensures step == StreamEnd ==> log == old(log)
      ensures step != StreamEnd ==> |log| == |old(log)| + 1 && (step == Failed <==> log[|log| - 1].result == None)
      ensures step == Decoded ==>
                (lastPacketSamples == 0 <==> log[|log| - 1].result == Some([])) &&
                (lastPacketSamples == 0 <==> added == [])
      ensures step != Decoded ==> added == [] && lastPacketSamples == old(lastPacketSamples)
      ensures codec.NeverEmpty() && step == Decoded ==> lastPacketSamples > 0
      ensures Flatten(log) == Flatten(old(log)) + added
      ensures step != Failed ==> decodedBuffer == old(decodedBuffer) + added
    {
      ghost var queue, next, sizes := packetBuffer, nextId, minWindow.history;
      ghost var call, queue', next';
      step, call, queue', next' := DecodeAndAdapt();
      added := [];
      if step == StreamEnd {
        RecordEnds(codec, log, sizes, fates, turn, queue);
        fates := fates + [Ended(queue[0])];
        return;
      }
      added := Played(call);
      PlayedLength(call);
      OneCallMore(log, call);
      WriteDown(sizes, queue, next, call, queue', next');
    }

    /** Nothing is played until enough samples have arrived, or the wait was long enough. */
    method Wait(len: nat) returns (waiting: bool)
      modifies this`bufferingSamples, this`bufferedForSamples
      ensures waiting == old(Buffering()) == old(bufferingSamples > 0 && bufferedForSamples < 24000)
      ensures waiting ==>
                bufferingSamples == old(bufferingSamples) && bufferedForSamples == old(bufferedForSamples) + len
      ensures !waiting ==>
                && bufferingSamples == 0
                && bufferedForSamples == if old(bufferingSamples) > 0 then 0 else old(bufferedForSamples)
    {
      waiting := false;
      if bufferingSamples > 0 {
        if bufferedForSamples >= MAX_BUFFER_TIME {
          bufferingSamples, bufferedForSamples := 0, 0;
        } else {
          bufferedForSamples := bufferedForSamples + len;
          waiting := true;
        }
      }
    }

    /** Refill until there are `len` samples, or the decoder has none. */
    method FillTo(len: nat) returns (step: Decoding, ghost added: seq<Sample>)
      requires Valid()
      modifies this`calls, this`whispering, this`decodedBuffer, this`lastPacketSamples, this`packetLossNum, this`nextId,
               this`packetBuffer, this`packetBufferSamples, this`log, this`fates, this`turn, minWindow, maxWindow
      ensures Valid() && old(log) <= log && old(fates) <= fates && Accepted() == old(Accepted())
      ensures Flatten(log) == Flatten(old(log)) + added
      ensures step != Failed ==> decodedBuffer == old(decodedBuffer) + added
      ensures step != Decoded ==> !RanDry(log, |old(log)|)
      ensures step == Decoded ==> (|decodedBuffer| < len <==> RanDry(log, |old(log)|))
      ensures codec.NeverEmpty() && step == Decoded ==> |decodedBuffer| >= len
    {
      step, added := Decoded, [];
      while |decodedBuffer| < len
        invariant Valid() && old(log) <= log && old(fates) <= fates && Accepted() == old(Accepted())
        invariant Flatten(log) == Flatten(old(log)) + added
        invariant decodedBuffer == old(decodedBuffer) + added && step == Decoded
        invariant !RanDry(log, |old(log)|)
        decreases len - |decodedBuffer|
      {
        ghost var more;
        step, more := Refill();
        Assoc(Flatten(old(log)), added, more);
        Assoc(old(decodedBuffer), added, more);
        added := added + more;
        if step != Decoded || lastPacketSamples == 0 {
          return;
        }
      }
    }

    /** The next `len` samples, or none while the queue is still filling up. Played samples are
        neither lost, repeated nor reordered until the stream ends or a packet fails to decode.
        In a release build it ends in a panic if the buffer is shorter than the position read so far,
        which only a failed call leaves behind, or if the decoder returns no frame. */
    method GetNextData(len: nat) returns (outcome: Outcome)
      requires Valid()
      modifies this`calls, this`whispering, this`decodedBuffer, this`decodedPos, this`lastPacketSamples,
               this`packetLossNum, this`nextId,
               this`packetBuffer, this`packetBufferSamples, this`bufferingSamples, this`bufferedForSamples,
               this`log, this`fates, this`turn, this`returned, minWindow, maxWindow
      ensures Valid() && old(log) <= log && old(fates) <= fates && Accepted() == old(Accepted())
      ensures old(Buffering()) ==> outcome == Data([], false) && log == old(log) && returned == old(returned) &&
                                   decodedBuffer == old(decodedBuffer) && decodedPos == old(decodedPos)
      ensures outcome.Data? ==> returned == old(returned) + outcome.samples
      ensures outcome.Data? && !outcome.ended && !old(Buffering()) ==> |outcome.samples| == len
      ensures old(InStep()) && outcome.Data? ==> if outcome.ended then Flatten(log) == returned else InStep()
      ensures outcome.Panic? <==>
                !old(Buffering()) && (old(decodedPos > |decodedBuffer|) || RanDry(log, |old(log)|))
      ensures codec.NeverEmpty() ==> (outcome.Panic? <==> old(!Buffering() && decodedPos > |decodedBuffer|))
      ensures outcome == DecodeFailed ==> decodedPos == old(decodedPos) && returned == old(returned)
    {
      var waiting := Wait(len);
      if waiting {
        return Data([], false);
      }
      if decodedPos > |decodedBuffer| {
        return Panic;
      }
      outcome := Serve(len);
    }

    /** Drop what was returned before, refill, and return `len` samples or those up to the end of the stream. */
    method Serve(len: nat) returns (outcome: Outcome)
      requires Valid() && decodedPos <= |decodedBuffer|
      modifies this`calls, this`whispering, this`decodedBuffer, this`decodedPos, this`lastPacketSamples,
               this`packetLossNum, this`nextId, this`packetBuffer, this`packetBufferSamples,
               this`log, this`fates, this`turn, this`returned, minWindow, maxWindow
      ensures Valid() && old(log) <= log && old(fates) <= fates && Accepted() == old(Accepted())
      ensures outcome.Data? ==> returned == old(returned) + outcome.samples
      ensures outcome.Data? && !outcome.ended ==> |outcome.samples| == len
      ensures old(InStep()) && outcome.Data? ==> if outcome.ended then Flatten(log) == returned else InStep()
      ensures outcome.Panic? <==> RanDry(log, |old(log)|)
      ensures codec.NeverEmpty() ==> !outcome.Panic?
      ensures outcome == DecodeFailed ==> decodedPos == old(decodedPos) && returned == old(returned)
    {
      decodedBuffer := decodedBuffer[decodedPos..];
      ghost var start := decodedBuffer;
      var step;
      ghost var added;
      step, added := FillTo(len);
      if step == Failed {
        return DecodeFailed;
      }
      Assoc(returned, start, added);
      if step == StreamEnd {
        outcome, returned := Data(decodedBuffer, true), returned + decodedBuffer;
        return;
      }
      decodedPos := len;
      if |decodedBuffer| < len {
        return Panic;
      }
      assert decodedBuffer == decodedBuffer[..len] + decodedBuffer[len..];
      Assoc(returned, decodedBuffer[..len], decodedBuffer[len..]);
      outcome, returned := Data(decodedBuffer[..len], false), returned + decodedBuffer[..len];
    }

    ghost predicate Buffering()
      reads this
    {
      bufferingSamples > 0 && bufferedForSamples < MAX_BUFFER_TIME
    }
  }

  lemma {:induction false} PlayedBehind(
      before: seq<Sample>, decoded: seq<Sample>, between: seq<Sample>, call: Call, after: seq<Sample>)
    requires between == before + decoded && call.result == Some(decoded)
    requires var start := |between| - |decoded|;
             after == if call.action == Sped then between[..start] + SpedUp(between[start..]) else between
    ensures after == before + Played(call)
  {
    assert between[..|before|] == before && between[|before|..] == decoded;
  }

  lemma {:induction false} PlayedLength(call: Call)
    ensures Played(call) == [] <==> call.result == None || call.result == Some([])
  {
    if call.result.Some? {
      SpedUpLength(call.result.value);
    }
  }

  lemma {:induction false} SumOfSuffix(queue: seq<QueuePacket>, i: nat, j: nat)
    requires i <= j <= |queue|
    ensures Sum(queue[j..]) <= Sum(queue[i..])
    decreases j - i
  {
    if i < j {
      TailSum(queue, i);
      SumOfSuffix(queue, i + 1, j);
    }
  }

  /** No longer end of the queue has few enough samples than the one that is kept, and there is only one such cut. */
  lemma {:induction false} CutKeepsLongest(
      queue: seq<QueuePacket>, next: u16, min: nat, kept: seq<QueuePacket>, next': u16, n: nat)
    requires IsCut(queue, next, min, kept, next') && n <= |queue|
    ensures Sum(queue[n..]) < min + 960 <==> |queue| - n <= |kept|
  {
    var m := |queue| - |kept|;
    if n >= m {
      SumOfSuffix(queue, m, n);
    } else {
      SumOfSuffix(queue, n, m - 1);
    }
  }

  lemma {:induction false} SpedUpLength(samples: seq<Sample>)
    ensures |SpedUp(samples)| == |samples| - |samples| / 200 * CHANNEL_NUM
    ensures samples != [] ==> SpedUp(samples) != []
  {
  }

  /** The buffer after the first `i` blocks of the tail were shortened. */
  function Drained(head: seq<Sample>, tail: seq<Sample>, i: nat): (r: seq<Sample>)
    requires i * 200 <= |tail|
    ensures |r| == |head| + |tail| - i * 2
  {
    head + (Shortened(tail, i) + tail[i * 200..])
  }

  lemma {:induction false} DrainNext(head: seq<Sample>, tail: seq<Sample>, i: nat, at: nat, buffer: seq<Sample>)
    requires (i + 1) * 200 <= |tail| && at == |head| + i * 198 && buffer == Drained(head, tail, i)
    ensures at + 2 <= |buffer| && buffer[..at] + buffer[at + 2..] == Drained(head, tail, i + 1)
  {
    var shortened := Shortened(tail, i);
    assert buffer[..at] == head + shortened;
    assert buffer[at + 2..] == tail[i * 200 + 2..];
    assert tail[i * 200 + 2..] == tail[i * 200 + 2..(i + 1) * 200] + tail[(i + 1) * 200..];
    assert Shortened(tail, i + 1) == shortened + tail[i * 200 + 2..(i + 1) * 200];
  }

  lemma {:induction false} DrainedIsSpedUp(head: seq<Sample>, tail: seq<Sample>, blocks: nat)
    requires blocks * 200 <= |tail| < blocks * 200 + 200
    ensures Drained(head, tail, blocks) == head + SpedUp(tail)
  {
    assert |tail| / 200 == blocks;
  }

  /** The debug assertion made when the packet taken from the queue is not the next one. */
  predicate AssertionFails(queue: seq<QueuePacket>, next: u16) {
    queue != [] && |queue[0].data| > 1 && Ahead(next, queue[0].id) >= MAX_BUFFER_PACKETS
  }

  /** The assertion fails exactly when the only packet left is as far ahead as packets may be. Such
      a packet is accepted. */
  lemma {:induction false} AssertionFailsExactly(queue: seq<QueuePacket>, next: u16)
    requires Ordered(queue, next)
    ensures AssertionFails(queue, next) <==>
            |queue| == 1 && |queue[0].data| > 1 && queue[0].id == WrapAdd(next, MAX_BUFFER_PACKETS)
    ensures forall codec: Codec, data :: |data| > 1 && codec.frames(data).Some? ==>
              (Refusal(codec, [], next, WrapAdd(next, MAX_BUFFER_PACKETS), data) == None <==>
               codec.frames(data).value <= MAX_BUFFER_SIZE)
  {
    if queue != [] {
      assert Placed(queue, next, 0);
      assert |queue| > 1 ==> Placed(queue, next, 1);
    }
  }

  lemma {:induction false} HighestIs(sizes: seq<int>, min: int, dev: int) returns (high: int)
    requires IsMinimum(Last(sizes, 255), min)
    requires exists low, high :: IsMinimum(Last(sizes, 255), low) && IsMaximum(Last(sizes, 255), high) &&
               dev == high - low
    ensures IsMaximum(Last(sizes, 255), high) && dev == high - min
  {
    var low, top :| IsMinimum(Last(sizes, 255), low) && IsMaximum(Last(sizes, 255), top) && dev == top - low;
    assert low == min;
    high := top;
  }

  /** From where packets are kept: the longest end of the queue with few enough samples. */
  method KeepFrom(queue: seq<QueuePacket>, min: byte) returns (n: nat)
    ensures n <= |queue| && (n < |queue| ==> Sum(queue[n..]) < min + USUAL_FRAME_SIZE)
    ensures n > 0 ==> Sum(queue[n - 1..]) >= min + USUAL_FRAME_SIZE
  {
    n := |queue|;
    var keepSamples := 0;
    while n > 0
      invariant n <= |queue| && keepSamples == Sum(queue[n..])
      invariant n < |queue| ==> keepSamples < min + USUAL_FRAME_SIZE
    {
      TailSum(queue, n - 1);
      keepSamples := keepSamples + queue[n - 1].samples;
      if keepSamples >= min + USUAL_FRAME_SIZE {
        return;
      }
      n := n - 1;
    }
  }
}

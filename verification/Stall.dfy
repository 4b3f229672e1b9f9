/** How a channel comes to a standstill at the last id of a generation. */
module Stall {
  import opened PacketIds
  import opened Wrappers
  import opened Fragments
  import opened Numbering
  import opened Receiver
  import opened Stream
  import opened Resend
  import opened Scenarios
  import opened Session
  import P = Protocol
  import R = ResendRuns

  /** The records below a key that the receiver refuses, because it holds no packet from `bound` on. */
  ghost function Refused(records: Records, key: PartialPacketId, bound: int): set<PartialPacketId> {
    set k | k in records && k.Less(key) && NumberOf(k) >= bound
  }

  /** The packet the receiver waits for was never sent and is not in the heap, and as many records as the
      window holds lie below it that the receiver refuses before that packet. */
  ghost predicate Stalled(cfg: P.Config, channel: P.State, q: Queues, kind: Kind, window: nat) {
    var done := P.Done(cfg, channel);
    && 0 <= done < |channel.sent| && done !in channel.wire
    && var key := KeyOf(cfg.first + done);
       && !q.InHeap(PacketId(kind, key))
       && window <= |Refused(q.full.Get(kind), key, cfg.first + done + MAX_QUEUE_LEN)|
  }

  /** The windows of the event are at most `window`. */
  ghost predicate Narrow(e: Event, window: nat) {
    match e
    case Send(_, _, sends) => AllNarrow(sends, window)
    case SendInit(_, _, w) => w <= window
    case Round(_, env) => env.window <= window
    case _ => true
  }

  ghost predicate AllNarrow(sends: seq<(nat, nat)>, window: nat) {
    forall i :: 0 <= i < |sends| ==> IsNarrow(sends, i, window)
  }

  ghost predicate IsNarrow(sends: seq<(nat, nat)>, i: nat, window: nat)
    requires i < |sends|
  {
    sends[i].1 <= window
  }

  // ----- The queues

  /** The record stays outside the heap, and those the receiver refuses stay. */
  ghost predicate StaysOut(q: Queues, q': Queues, id: PacketId, bound: int) {
    && !q'.InHeap(id)
    && Refused(q.full.Get(id.kind), id.part, bound) <= Refused(q'.full.Get(id.kind), id.part, bound)
  }

  lemma {:induction false} RefusedAreBelow(q: Queues, id: PacketId, bound: int, window: nat)
    requires window <= |Refused(q.full.Get(id.kind), id.part, bound)|
    ensures window <= |R.LiveBelow(q, id.kind, id.part)|
  {
    P.SubsetSize(Refused(q.full.Get(id.kind), id.part, bound), R.LiveBelow(q, id.kind, id.part));
  }

  lemma {:induction false} MoveStaysOut(
      q: Queues, clock: nat, maxWindow: nat, op: R.Op, q': Queues, clock': nat, id: PacketId, bound: int, window: nat)
    requires q.Sound() && R.Moves(q, clock, maxWindow, op, q', clock') && !q.InHeap(id) && !op.Acked?
    requires op.Submit? ==> op.window <= window && R.Submitted(op) != id
    requires op.Round? ==> op.env.window <= window
    requires window <= |Refused(q.full.Get(id.kind), id.part, bound)|
    ensures StaysOut(q, q', id, bound)
  {
    RefusedAreBelow(q, id, bound, window);
    R.MoveKeepsOut(q, clock, maxWindow, op, q', clock', id);
    forall k | k in Refused(q.full.Get(id.kind), id.part, bound)
      ensures k in q'.full.Get(id.kind)
    {
      R.MoveKeepsLive(q, clock, maxWindow, op, q', clock', PacketId(id.kind, k));
      assert q'.Live(PacketId(id.kind, k));
    }
  }

  lemma {:induction false} SendsStayOut(
      q: Queues, clock: nat, maxWindow: nat, kind: Kind, packets: seq<OutUdpPacket>, sends: seq<(nat, nat)>,
      id: PacketId, bound: int, window: nat)
    requires q.Sound() && |packets| == |sends| && InTime(clock, maxWindow, sends) && AllNarrow(sends, window)
    requires forall i :: 0 <= i < |packets| ==>
               packets[i].Key().Full() + 1 < 0x1_0000_0000_0000 && PacketId(kind, packets[i].Key()) != id
    requires !q.InHeap(id) && window <= |Refused(q.full.Get(id.kind), id.part, bound)|
    ensures StaysOut(q, SendAll(q, kind, packets, sends), id, bound)
    decreases |packets|
  {
    if packets != [] {
      var packet, now, w := packets[0], sends[0].0, sends[0].1;
      var q' := q.Send(kind, packet, now, w);
      assert IsNarrow(sends, 0, window);
      MoveStaysOut(q, clock, maxWindow, R.Submit(kind, packet, now, w), q', now, id, bound, window);
      InsertKeepsSound(q, NewRecord(kind, packet, now), q.Insert(NewRecord(kind, packet, now)));
      FillUpReachesWindow(q.Insert(NewRecord(kind, packet, now)), w);
      P.SubsetSize(Refused(q.full.Get(id.kind), id.part, bound), Refused(q'.full.Get(id.kind), id.part, bound));
      forall i | 0 <= i < |sends[1..]|
        ensures IsNarrow(sends[1..], i, window)
      {
        assert IsNarrow(sends, i + 1, window);
      }
      SendsStayOut(q', now, maxWindow, kind, packets[1..], sends[1..], id, bound, window);
    }
  }

  // ----- The channel

  /** Until the next packet arrives the receiver consumes and delivers nothing. */
  lemma {:induction false} OtherArrivals(cfg: P.Config, channel: P.State, k: nat, r: Reception)
    requires Reachable(cfg, channel) && k in channel.wire && k < |channel.sent| && k != P.Done(cfg, channel)
    requires r == Receive(cfg.lz, channel.channel, channel.sent[k], Nth(cfg.first + k).generation)
    ensures r.channel.next == channel.channel.next && r.delivered == []
  {
    ReachableInv(cfg, channel);
    var done, c := P.Done(cfg, channel), channel.channel;
    if k < done {
      OldPacketIsHarmless(cfg.lz, c, Nth(cfg.first + k), channel.sent[k]);
    } else {
      var (c', h) := Handle(cfg.lz, c, channel.sent[k]);
      HandleLater(cfg.lz, channel.sent, cfg.first, done, c, k, c', h);
      NewPacketIsHandled(cfg.lz, c, Nth(cfg.first + k), channel.sent[k]);
    }
  }

  /** Nothing further is consumed or delivered. */
  ghost predicate Stands(channel: P.State, channel': P.State) {
    && channel'.channel.next == channel.channel.next && channel'.delivered == channel.delivered
    && channel.sent <= channel'.sent
  }

  /** Only packets that the receiver has are acknowledged. */
  lemma {:induction false} AckedIsNear(cfg: P.Config, channel: P.State, k: nat)
    requires Reachable(cfg, channel) && k in channel.acks
    ensures P.Done(cfg, channel) >= 0 && k < P.Done(cfg, channel) + MAX_QUEUE_LEN
  {
    ReachableInv(cfg, channel);
  }

  lemma {:induction false} AckKeepsRefused(
      cfg: P.Config, channel: P.State, records: Records, k: nat, removed: set<PartialPacketId>,
      key: PartialPacketId, bound: int)
    requires Reachable(cfg, channel) && P.Enabled(cfg, channel, P.Acknowledge(k))
    requires removed == Ack(channel.outstanding.Keys, channel.out, Nth(cfg.first + k).packet).removed
    requires bound == cfg.first + P.Done(cfg, channel) + MAX_QUEUE_LEN && records.Keys == channel.outstanding.Keys
    ensures Refused(records - removed, key, bound) == Refused(records, key, bound)
  {
    AckedIsNear(cfg, channel, k);
    P.AckRemovesOnlyOwnExactly(channel.outstanding.Keys, channel.out, cfg.first + k);
    RemovalIsNear(cfg, channel, k, removed, bound);
  }

  lemma {:induction false} RemovalIsNear(
      cfg: P.Config, channel: P.State, k: nat, removed: set<PartialPacketId>, bound: int)
    requires Reachable(cfg, channel) && k in channel.acks && removed <= {KeyOf(cfg.first + k)}
    requires cfg.first + k < bound
    ensures forall e :: e in removed ==> NumberOf(e) < bound
  {
    ReachableInv(cfg, channel);
    assert NumberOf(KeyOf(cfg.first + k)) == cfg.first + k;
  }

  // ----- The events

  /** The record of the packet that the receiver waits for. */
  ghost function Missing(cfg: P.Config, channel: P.State, kind: Kind): PacketId
    requires P.Done(cfg, channel) >= 0
  {
    PacketId(kind, KeyOf(cfg.first + P.Done(cfg, channel)))
  }

  ghost predicate StandsAt(cfg: P.Config, channel: P.State, channel': P.State) {
    Stands(channel, channel') && P.Done(cfg, channel) >= 0 && P.Done(cfg, channel) !in channel'.wire
  }

  lemma {:induction false} StallFrom(
      cfg: P.Config, channel: P.State, channel': P.State, q: Queues, q': Queues, kind: Kind, window: nat)
    requires Stalled(cfg, channel, q, kind, window) && StandsAt(cfg, channel, channel')
    requires StaysOut(q, q', Missing(cfg, channel, kind), cfg.first + P.Done(cfg, channel) + MAX_QUEUE_LEN)
    ensures Stalled(cfg, channel', q', kind, window)
  {
    var key, bound := Missing(cfg, channel, kind).part, cfg.first + P.Done(cfg, channel) + MAX_QUEUE_LEN;
    P.SubsetSize(Refused(q.full.Get(kind), key, bound), Refused(q'.full.Get(kind), key, bound));
  }

  lemma {:induction false} SentAreNew(
      out: PartialPacketId, pieces: seq<Packet>, packets: seq<OutUdpPacket>, kind: Kind, id: PacketId)
    requires out.Full() + |pieces| + 0x2_0000 < 0x1_0000_0000_0000 && packets == NumberPieces(out, pieces)
    requires kind == id.kind ==> NumberOf(id.part) < out.Full()
    ensures |packets| == |pieces|
    ensures forall i :: 0 <= i < |packets| ==>
              packets[i].Key().Full() + 1 < 0x1_0000_0000_0000 && PacketId(kind, packets[i].Key()) != id
  {
    SentKeys(out, pieces, packets, out.Full());
    forall i | 0 <= i < |packets|
      ensures packets[i].Key().Full() + 1 < 0x1_0000_0000_0000 && PacketId(kind, packets[i].Key()) != id
    {
      assert NumberOf(packets[i].Key()) == out.Full() + i;
    }
  }

  lemma {:induction false} SendStays(
      cfg: P.Config, channel: P.State, command: Packet, channel': P.State)
    requires P.Enabled(cfg, channel, P.Submit(command)) && channel' == P.Apply(cfg, channel, P.Submit(command))
    ensures Stands(channel, channel') && channel'.wire == channel.wire
  {
  }

  lemma {:induction false} NumberingBound(cfg: P.Config, channel: P.State, command: Packet)
    requires Reachable(cfg, channel) && P.Enabled(cfg, channel, P.Submit(command))
    ensures channel.out.Full() == cfg.first + |channel.sent|
    ensures channel.out.Full() + |Split(cfg.lz, command)| + 0x2_0000 < 0x1_0000_0000_0000
  {
    ReachableOut(cfg, channel);
  }

  lemma {:induction false} SendKeepsStall(
      cfgs: Both<P.Config>, s: Session, maxWindow: nat, e: Event, s': Session, kind: Kind, window: nat)
    requires SessionInv(cfgs, s, maxWindow) && e.Send? && kind != Init
    requires Possible(cfgs, s, maxWindow, e) && s' == Next(cfgs, s, maxWindow, e) && Narrow(e, window)
    requires Stalled(cfgs.Get(kind), s.channels.Get(kind), s.queues, kind, window)
    ensures StandsAt(cfgs.Get(kind), s.channels.Get(kind), s'.channels.Get(kind))
    ensures StaysOut(s.queues, s'.queues, Missing(cfgs.Get(kind), s.channels.Get(kind), kind),
                     cfgs.Get(kind).first + P.Done(cfgs.Get(kind), s.channels.Get(kind)) + MAX_QUEUE_LEN)
  {
    var cfg, channel := cfgs.Get(e.kind), s.channels.Get(e.kind);
    assert ChannelInv(cfg, channel, s.queues, e.kind);
    NumberingBound(cfg, channel, e.command);
    var pieces, id := Split(cfg.lz, e.command), Missing(cfgs.Get(kind), s.channels.Get(kind), kind);
    SentAreNew(channel.out, pieces, NumberPieces(channel.out, pieces), e.kind, id);
    SendStays(cfg, channel, e.command, s'.channels.Get(e.kind));
    SendsStayOut(s.queues, s.clock, maxWindow, e.kind, NumberPieces(channel.out, pieces), e.sends, id,
                 cfgs.Get(kind).first + P.Done(cfgs.Get(kind), s.channels.Get(kind)) + MAX_QUEUE_LEN, window);
  }

  lemma {:induction false} InitKeepsStall(
      q: Queues, clock: nat, maxWindow: nat, packet: OutUdpPacket, now: nat, w: nat, id: PacketId, bound: int,
          window: nat)
    requires q.Sound() && clock <= now && 1 <= w <= maxWindow && w <= window && id.kind != Init
    requires packet.Key().Full() + 1 < 0x1_0000_0000_0000
    requires !q.InHeap(id) && window <= |Refused(q.full.Get(id.kind), id.part, bound)|
    ensures StaysOut(q, q.Send(Init, packet, now, w), id, bound)
  {
    MoveStaysOut(q, clock, maxWindow, R.Submit(Init, packet, now, w), q.Send(Init, packet, now, w), now, id, bound,
        window);
  }

  lemma {:induction false} RemoveStaysOut(
      q: Queues, kind: Kind, removed: set<PartialPacketId>, id: PacketId, bound: int)
    requires !q.InHeap(id)
    requires kind == id.kind ==>
               Refused(q.full.Get(kind) - removed, id.part, bound) == Refused(q.full.Get(kind), id.part, bound)
    ensures StaysOut(q, q.Remove(kind, removed), id, bound)
  {
  }

  lemma {:induction false} MissingNumber(cfg: P.Config, channel: P.State, kind: Kind)
    requires Reachable(cfg, channel) && P.Done(cfg, channel) < |channel.sent|
    ensures P.Done(cfg, channel) >= 0
    ensures NumberOf(Missing(cfg, channel, kind).part) == cfg.first + P.Done(cfg, channel)
  {
    ReachableInv(cfg, channel);
  }

  lemma {:induction false} AckStays(cfg: P.Config, channel: P.State, k: nat, channel': P.State)
    requires P.Enabled(cfg, channel, P.Acknowledge(k)) && channel' == P.Apply(cfg, channel, P.Acknowledge(k))
    ensures Stands(channel, channel') && channel'.wire == channel.wire
  {
  }

  lemma {:induction false} AckStaysOut(
      cfg: P.Config, channel: P.State, q: Queues, ackKind: Kind, k: nat, removed: set<PartialPacketId>,
      id: PacketId, bound: int)
    requires ackKind != Init && ChannelInv(cfg, channel, q, ackKind) && P.Enabled(cfg, channel, P.Acknowledge(k))
    requires removed == Ack(q.full.Get(ackKind).Keys, channel.out, Nth(cfg.first + k).packet).removed
    requires !q.InHeap(id)
    requires ackKind == id.kind ==> bound == cfg.first + P.Done(cfg, channel) + MAX_QUEUE_LEN
    ensures StaysOut(q, q.Remove(ackKind, removed), id, bound)
  {
    if ackKind == id.kind {
      AckKeepsRefused(cfg, channel, q.full.Get(ackKind), k, removed, id.part, bound);
    }
    RemoveStaysOut(q, ackKind, removed, id, bound);
  }

  lemma {:induction false} OtherStands(cfg: P.Config, channel: P.State, channel': P.State)
    requires channel' == channel && P.Done(cfg, channel) >= 0 && P.Done(cfg, channel) !in channel.wire
    ensures StandsAt(cfg, channel, channel')
  {
  }

  lemma {:induction false} AckStalls(
      ackCfg: P.Config, acked: P.State, q: Queues, ackKind: Kind, k: nat, removed: set<PartialPacketId>,
      cfg: P.Config, channel: P.State, channel': P.State, q': Queues, kind: Kind, window: nat)
    requires ackKind != Init && ChannelInv(ackCfg, acked, q, ackKind) && P.Enabled(ackCfg, acked, P.Acknowledge(k))
    requires removed == Ack(q.full.Get(ackKind).Keys, acked.out, Nth(ackCfg.first + k).packet).removed
    requires Stalled(cfg, channel, q, kind, window) && q' == q.Remove(ackKind, removed)
    requires if ackKind == kind then
               cfg == ackCfg && channel == acked && channel' == P.Apply(cfg, channel, P.Acknowledge(k))
             else channel' == channel
    ensures StandsAt(cfg, channel, channel')
    ensures StaysOut(q, q', Missing(cfg, channel, kind), cfg.first + P.Done(cfg, channel) + MAX_QUEUE_LEN)
  {
    AckStaysOut(ackCfg, acked, q, ackKind, k, removed, Missing(cfg, channel, kind),
                cfg.first + P.Done(cfg, channel) + MAX_QUEUE_LEN);
    if ackKind == kind {
      AckStays(cfg, channel, k, channel');
    } else {
      OtherStands(cfg, channel, channel');
    }
  }

  lemma {:induction false} AckIsStep(
      cfgs: Both<P.Config>, s: Session, maxWindow: nat, e: Event, s': Session, removed: set<PartialPacketId>)
    requires e.AckArrives? && Possible(cfgs, s, maxWindow, e) && s' == Next(cfgs, s, maxWindow, e)
    requires var acked := s.channels.Get(e.kind);
             removed == Ack(s.queues.full.Get(e.kind).Keys, acked.out, Nth(cfgs.Get(e.kind).first + e.k).packet).removed
    ensures e.kind != Init && P.Enabled(cfgs.Get(e.kind), s.channels.Get(e.kind), P.Acknowledge(e.k))
    ensures s'.queues == s.queues.Remove(e.kind, removed)
    ensures s'.channels ==
            s.channels.Set(e.kind, P.Apply(cfgs.Get(e.kind), s.channels.Get(e.kind), P.Acknowledge(e.k)))
  {
  }

  lemma {:induction false} AckKeepsStall(
      cfgs: Both<P.Config>, s: Session, maxWindow: nat, e: Event, s': Session, kind: Kind, window: nat,
      cfg: P.Config, channel: P.State)
    requires e.AckArrives? && Possible(cfgs, s, maxWindow, e) && s' == Next(cfgs, s, maxWindow, e) && kind != Init
    requires ChannelInv(cfgs.Get(e.kind), s.channels.Get(e.kind), s.queues, e.kind)
    requires cfg == cfgs.Get(kind) && channel == s.channels.Get(kind) && Stalled(cfg, channel, s.queues, kind, window)
    ensures StandsAt(cfg, channel, s'.channels.Get(kind))
    ensures StaysOut(s.queues, s'.queues, Missing(cfg, channel, kind), cfg.first + P.Done(cfg, channel) + MAX_QUEUE_LEN)
  {
    var acked := s.channels.Get(e.kind);
    var removed := Ack(s.queues.full.Get(e.kind).Keys, acked.out, Nth(cfgs.Get(e.kind).first + e.k).packet).removed;
    AckIsStep(cfgs, s, maxWindow, e, s', removed);
    AckStalls(cfgs.Get(e.kind), acked, s.queues, e.kind, e.k, removed, cfg, channel, s'.channels.Get(kind),
              s'.queues, kind, window);
  }

  lemma {:induction false} PollStaysOut(
      q: Queues, clock: nat, maxWindow: nat, i: nat, env: Env, id: PacketId, bound: int, window: nat)
    requires q.Sound() && q.heap != [] && q.IsTop(i) && clock <= env.now && 1 <= env.window <= maxWindow
    requires env.window <= window && !q.InHeap(id)
    requires window <= |Refused(q.full.Get(id.kind), id.part, bound)|
    ensures StaysOut(q, q.Poll(i, env).queues, id, bound) && q.heap[i].id != id
  {
    assert q.PollsTo(env, q.Poll(i, env));
    MoveStaysOut(q, clock, maxWindow, R.Round(env), q.Poll(i, env).queues, env.now, id, bound, window);
    assert q.InHeap(q.heap[i].id);
  }

  lemma {:induction false} WireStays(cfg: P.Config, channel: P.State, kind: Kind, part: PartialPacketId)
    requires Reachable(cfg, channel) && P.Done(cfg, channel) < |channel.sent|
    requires P.Done(cfg, channel) >= 0 && P.Done(cfg, channel) !in channel.wire
    requires part != Missing(cfg, channel, kind).part
    ensures StandsAt(cfg, channel, OnWire(cfg, channel, part))
  {
    MissingNumber(cfg, channel, kind);
    NumberInjective(part, Missing(cfg, channel, kind).part);
  }

  lemma {:induction false} RoundKeepsStall(
      cfgs: Both<P.Config>, s: Session, maxWindow: nat, e: Event, s': Session, kind: Kind, window: nat)
    requires SessionInv(cfgs, s, maxWindow) && e.Round? && kind != Init
    requires Possible(cfgs, s, maxWindow, e) && s' == Next(cfgs, s, maxWindow, e) && Narrow(e, window)
    requires Stalled(cfgs.Get(kind), s.channels.Get(kind), s.queues, kind, window)
    ensures StandsAt(cfgs.Get(kind), s.channels.Get(kind), s'.channels.Get(kind))
    ensures StaysOut(s.queues, s'.queues, Missing(cfgs.Get(kind), s.channels.Get(kind), kind),
                     cfgs.Get(kind).first + P.Done(cfgs.Get(kind), s.channels.Get(kind)) + MAX_QUEUE_LEN)
  {
    var cfg, channel, q := cfgs.Get(kind), s.channels.Get(kind), s.queues;
    var id, bound := Missing(cfg, channel, kind), cfg.first + P.Done(cfg, channel) + MAX_QUEUE_LEN;
    assert ChannelInv(cfg, channel, q, kind);
    PollStaysOut(q, s.clock, maxWindow, e.i, e.env, id, bound, window);
    if q.heap[e.i].id.kind == kind {
      WireStays(cfg, channel, kind, q.heap[e.i].id.part);
    }
  }

  lemma {:induction false} ArrivalStays(
      cfg: P.Config, channel: P.State, k: nat, channel': P.State)
    requires Reachable(cfg, channel) && k != P.Done(cfg, channel)
    requires P.Enabled(cfg, channel, P.Deliver(k)) && channel' == P.Apply(cfg, channel, P.Deliver(k))
    ensures Stands(channel, channel') && channel'.wire == channel.wire
  {
    OtherArrivals(cfg, channel, k, Receive(cfg.lz, channel.channel, channel.sent[k], Nth(cfg.first + k).generation));
    assert channel.delivered + [] == channel.delivered;
  }

  lemma {:induction false} ArrivalKeepsStall(
      cfgs: Both<P.Config>, s: Session, maxWindow: nat, e: Event, s': Session, kind: Kind, window: nat)
    requires SessionInv(cfgs, s, maxWindow) && e.PacketArrives? && kind != Init
    requires Possible(cfgs, s, maxWindow, e) && s' == Next(cfgs, s, maxWindow, e)
    requires Stalled(cfgs.Get(kind), s.channels.Get(kind), s.queues, kind, window)
    ensures StandsAt(cfgs.Get(kind), s.channels.Get(kind), s'.channels.Get(kind)) && s'.queues == s.queues
  {
    var cfg, channel := cfgs.Get(e.kind), s.channels.Get(e.kind);
    assert ChannelInv(cfg, channel, s.queues, e.kind);
    if e.kind == kind {
      ArrivalStays(cfg, channel, e.k, s'.channels.Get(e.kind));
    }
  }

  /** A stalled channel stays so: whatever happens, as long as the window does not grow, the receiver
      consumes and delivers nothing, although every packet it gets is acknowledged or refused as usual. */
  lemma {:induction false} StallStays(
      cfgs: Both<P.Config>, s: Session, maxWindow: nat, e: Event, s': Session, kind: Kind, window: nat)
    requires SessionInv(cfgs, s, maxWindow) && kind != Init
    requires Possible(cfgs, s, maxWindow, e) && s' == Next(cfgs, s, maxWindow, e) && Narrow(e, window)
    requires Stalled(cfgs.Get(kind), s.channels.Get(kind), s.queues, kind, window)
    ensures Stalled(cfgs.Get(kind), s'.channels.Get(kind), s'.queues, kind, window)
    ensures Stands(s.channels.Get(kind), s'.channels.Get(kind))
  {
    var cfg, channel, q := cfgs.Get(kind), s.channels.Get(kind), s.queues;
    var id, bound := Missing(cfg, channel, kind), cfg.first + P.Done(cfg, channel) + MAX_QUEUE_LEN;
    assert StandsAt(cfg, channel, s'.channels.Get(kind)) && StaysOut(q, s'.queues, id, bound) by {
      match e
      case Send(_, _, _) => SendKeepsStall(cfgs, s, maxWindow, e, s', kind, window);
      case SendInit(packet, now, w) => InitKeepsStall(q, s.clock, maxWindow, packet, now, w, id, bound, window);
      case AckArrives(ackKind, _) =>
        assert ChannelInv(cfgs.Get(ackKind), s.channels.Get(ackKind), q, ackKind);
        AckKeepsStall(cfgs, s, maxWindow, e, s', kind, window, cfg, channel);
      case InitAckArrives(out, ack) => RemoveStaysOut(q, Init, Ack(q.full.Get(Init).Keys, out, ack).removed, id, bound);
      case Round(_, _) => RoundKeepsStall(cfgs, s, maxWindow, e, s', kind, window);
      case Rest(_) =>
      case PacketArrives(_, _) => ArrivalKeepsStall(cfgs, s, maxWindow, e, s', kind, window);
    }
    StallFrom(cfg, channel, s'.channels.Get(kind), q, s'.queues, kind, window);
  }

  /** In every session: once a channel is stalled, and while the windows do not grow, nothing further is
      delivered there. */
  lemma {:induction false} StallLasts(
      cfgs: Both<P.Config>, sessions: seq<Session>, events: seq<Event>, maxWindow: nat, start: nat, end: nat,
      kind: Kind, window: nat)
    requires SessionRun(cfgs, sessions, events, maxWindow) && maxWindow < P.MAX_IN_FLIGHT && kind != Init
    requires start <= end < |sessions|
    requires Stalled(cfgs.Get(kind), sessions[start].channels.Get(kind), sessions[start].queues, kind, window)
    requires forall k :: start <= k < end ==> Narrow(events[k], window)
    ensures Stalled(cfgs.Get(kind), sessions[end].channels.Get(kind), sessions[end].queues, kind, window)
    ensures Stands(sessions[start].channels.Get(kind), sessions[end].channels.Get(kind))
    decreases end
  {
    if start < end {
      var k := end - 1;
      StallLasts(cfgs, sessions, events, maxWindow, start, k, kind, window);
      SessionKeepsInv(cfgs, sessions, events, maxWindow, k, sessions[k]);
      assert IsEvent(cfgs, sessions, events, maxWindow, k);
      StallStays(cfgs, sessions[k], maxWindow, events[k], sessions[end], kind, window);
    }
  }
}

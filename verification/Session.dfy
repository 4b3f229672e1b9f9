/** Both command channels of a connection with one resender as their sender. */
module Session {
  import opened PacketIds
  import opened Wrappers
  import opened Fragments
  import opened Numbering
  import opened Stream
  import opened Resend
  import opened Scenarios
  import P = Protocol
  import R = ResendRuns

  /** One value per command type. */
  datatype Both<T> = Both(command: T, low: T) {
    function Get(kind: Kind): T
      requires kind != Init
    {
      if kind == Command then command else low
    }

    function Set(kind: Kind, value: T): Both<T>
      requires kind != Init
    {
      if kind == Command then this.(command := value) else this.(low := value)
    }
  }

  /** The channels hold what the protocol keeps, and the queues what the resender keeps. */
  datatype Session = Session(channels: Both<P.State>, queues: Queues, clock: nat)

  /** What can happen: a command is split and its packets are submitted, an init packet is submitted, an
      acknowledgement arrives, a round of the poll loop looks at entry `i` or finds nothing, or a packet
      arrives at the receiver. Each submission and round has its time and its congestion window. */
  datatype Event =
    | Send(kind: Kind, command: Packet, sends: seq<(nat, nat)>)
    | SendInit(packet: OutUdpPacket, now: nat, window: nat)
    | AckArrives(kind: Kind, k: nat)
    | InitAckArrives(out: PartialPacketId, id: u16)
    | Round(i: nat, env: Env)
    | Rest(now: nat)
    | PacketArrives(kind: Kind, k: nat)

  ghost function SendAll(q: Queues, kind: Kind, packets: seq<OutUdpPacket>, sends: seq<(nat, nat)>): Queues
    requires |packets| == |sends|
    decreases |packets|
  {
    if packets == [] then q
    else SendAll(q.Send(kind, packets[0], sends[0].0, sends[0].1), kind, packets[1..], sends[1..])
  }

  /** The clock goes forward and the windows are no larger than allowed. */
  ghost predicate InTime(clock: nat, maxWindow: nat, sends: seq<(nat, nat)>)
    decreases |sends|
  {
    sends == [] || (clock <= sends[0].0 && 1 <= sends[0].1 <= maxWindow && InTime(sends[0].0, maxWindow, sends[1..]))
  }

  function LastTime(clock: nat, sends: seq<(nat, nat)>): nat {
    if sends == [] then clock else sends[|sends| - 1].0
  }

  /** What the environment may do. Nothing is asked of what the resender sends. */
  ghost predicate Possible(cfgs: Both<P.Config>, s: Session, maxWindow: nat, e: Event) {
    match e
    case Send(kind, command, sends) =>
      && kind != Init && P.Enabled(cfgs.Get(kind), s.channels.Get(kind), P.Submit(command))
      && |sends| == |Split(cfgs.Get(kind).lz, command)| && InTime(s.clock, maxWindow, sends)
    case SendInit(packet, now, window) =>
      s.clock <= now && 1 <= window <= maxWindow && packet.Key().Full() + 1 < 0x1_0000_0000_0000
    case AckArrives(kind, k) => kind != Init && P.Enabled(cfgs.Get(kind), s.channels.Get(kind), P.Acknowledge(k))
    case InitAckArrives(_, _) => true
    case Round(i, env) => s.queues.heap != [] && s.queues.IsTop(i) && s.clock <= env.now && 1 <= env.window <= maxWindow
    case Rest(now) => s.clock <= now
    case PacketArrives(kind, k) => kind != Init && P.Enabled(cfgs.Get(kind), s.channels.Get(kind), P.Deliver(k))
  }

  /** The packet of a record goes on the wire. */
  ghost function OnWire(cfg: P.Config, channel: P.State, key: PartialPacketId): P.State {
    if NumberOf(key) < cfg.first then channel
    else channel.(wire := channel.wire + {NumberOf(key) - cfg.first})
  }

  ghost function Next(cfgs: Both<P.Config>, s: Session, maxWindow: nat, e: Event): Session
    requires Possible(cfgs, s, maxWindow, e)
  {
    match e
    case Send(kind, command, sends) =>
      var channel := s.channels.Get(kind);
      var packets := NumberPieces(channel.out, Split(cfgs.Get(kind).lz, command));
      NumberPiecesLength(channel.out, Split(cfgs.Get(kind).lz, command));
      Session(s.channels.Set(kind, P.Apply(cfgs.Get(kind), channel, P.Submit(command))),
              SendAll(s.queues, kind, packets, sends), LastTime(s.clock, sends))
    case SendInit(packet, now, window) => Session(s.channels, s.queues.Send(Init, packet, now, window), now)
    case AckArrives(kind, k) =>
      var channel := s.channels.Get(kind);
      var removed := Ack(s.queues.full.Get(kind).Keys, channel.out, Nth(cfgs.Get(kind).first + k).packet).removed;
      Session(s.channels.Set(kind, P.Apply(cfgs.Get(kind), channel, P.Acknowledge(k))),
              s.queues.Remove(kind, removed), s.clock)
    case InitAckArrives(out, id) =>
      s.(queues := s.queues.Remove(Init, Ack(s.queues.full.Get(Init).Keys, out, id).removed))
    case Round(i, env) =>
      var r, id := s.queues.Poll(i, env), s.queues.heap[i].id;
      Session(if r.sent.None? || id.kind == Init then s.channels
              else s.channels.Set(id.kind, OnWire(cfgs.Get(id.kind), s.channels.Get(id.kind), id.part)),
              r.queues, env.now)
    case Rest(now) => s.(clock := now)
    case PacketArrives(kind, k) =>
      s.(channels := s.channels.Set(kind, P.Apply(cfgs.Get(kind), s.channels.Get(kind), P.Deliver(k))))
  }

  lemma {:induction false} NumberPiecesLength(out: PartialPacketId, pieces: seq<Packet>)
    ensures |NumberPieces(out, pieces)| == |pieces|
    decreases |pieces|
  {
    if pieces != [] {
      NumberPiecesLength(out.Add(1), pieces[1..]);
    }
  }

  // ----- The invariant

  ghost predicate SameRecord(records: Records, outstanding: map<PartialPacketId, Packet>, key: PartialPacketId)
    requires key in records && key in outstanding
  {
    records[key].packet.Key() == key && records[key].packet.packet == outstanding[key]
  }

  /** The resender's records are those of the protocol. */
  ghost predicate Coupled(records: Records, outstanding: map<PartialPacketId, Packet>) {
    records.Keys == outstanding.Keys && forall key :: key in records ==> SameRecord(records, outstanding, key)
  }

  /** What the resender knows of a type was numbered. */
  ghost predicate KnownBelow(q: Queues, kind: Kind, bound: int) {
    forall id: PacketId :: R.Known(q, id) && id.kind == kind ==> NumberOf(id.part) < bound
  }

  ghost predicate ChannelInv(cfg: P.Config, channel: P.State, q: Queues, kind: Kind) {
    && Reachable(cfg, channel)
    && Coupled(q.full.Get(kind), channel.outstanding) && KnownBelow(q, kind, channel.out.Full())
  }

  ghost predicate SessionInv(cfgs: Both<P.Config>, s: Session, maxWindow: nat) {
    && R.RunInv(s.queues, s.clock, maxWindow)
    && (forall kind :: kind != Init ==> ChannelInv(cfgs.Get(kind), s.channels.Get(kind), s.queues, kind))
  }

  // ----- Submitting

  lemma {:induction false} SendKeepsCoupled(
      q: Queues, kind: Kind, packet: OutUdpPacket, now: nat, window: nat, outstanding: map<PartialPacketId, Packet>)
    requires q.Sound() && packet.Key().Full() + 1 < 0x1_0000_0000_0000
    requires Coupled(q.full.Get(kind), outstanding)
    ensures var q' := q.Send(kind, packet, now, window);
            && Coupled(q'.full.Get(kind), outstanding[packet.Key() := packet.packet])
            && forall other :: other != kind ==> q'.full.Get(other) == q.full.Get(other)
  {
    var rec := NewRecord(kind, packet, now);
    var mid := q.Insert(rec);
    InsertKeepsSound(q, rec, mid);
    FillUpReachesWindow(mid, window);
    var records, more := mid.full.Get(kind), outstanding[packet.Key() := packet.packet];
    forall key | key in records
      ensures key in more && SameRecord(records, more, key)
    {
      assert key != packet.Key() ==> SameRecord(q.full.Get(kind), outstanding, key);
    }
  }

  lemma {:induction false} SendKeepsInv(
      q: Queues, clock: nat, maxWindow: nat, kind: Kind, packet: OutUdpPacket, now: nat, window: nat, bound: int)
    requires R.RunInv(q, clock, maxWindow) && clock <= now && 1 <= window <= maxWindow
    requires packet.Key().Full() + 1 < 0x1_0000_0000_0000
    requires kind != Init ==> KnownBelow(q, kind, bound) && NumberOf(packet.Key()) == bound
    ensures var q' := q.Send(kind, packet, now, window);
            && R.RunInv(q', now, maxWindow) && (kind != Init ==> KnownBelow(q', kind, bound + 1))
            && forall other, top :: other != kind && KnownBelow(q, other, top) ==> KnownBelow(q', other, top)
  {
    var op, q' := R.Submit(kind, packet, now, window), q.Send(kind, packet, now, window);
    if kind != Init {
      forall i | 0 <= i < |q.heap|
        ensures R.NumberedBelow(q, i, R.Submitted(op))
      {
        assert q.InHeap(q.heap[i].id) && R.Known(q, q.heap[i].id);
      }
      forall other: PacketId | q.Live(other) && other.kind == kind
        ensures NumberOf(other.part) < NumberOf(packet.Key())
      {
        assert R.Known(q, other);
      }
    }
    R.MoveKeepsInv(q, clock, maxWindow, op, q', now);
    forall id | R.Known(q', id)
      ensures R.Known(q, id) || id == R.Submitted(op)
    {
      R.MoveKnows(q, clock, maxWindow, op, q', now, id);
    }
  }

  lemma {:induction false} SendAllKeepsInv(
      q: Queues, clock: nat, maxWindow: nat, kind: Kind, packets: seq<OutUdpPacket>, sends: seq<(nat, nat)>,
      start: nat, outstanding: map<PartialPacketId, Packet>)
    requires R.RunInv(q, clock, maxWindow) && kind != Init && KnownBelow(q, kind, start)
    requires |packets| == |sends| && InTime(clock, maxWindow, sends) && Coupled(q.full.Get(kind), outstanding)
    requires start + |packets| + 0x1_0001 < 0x1_0000_0000_0000
    requires forall i :: 0 <= i < |packets| ==> packets[i].Key() == KeyOf(start + i)
    ensures var q' := SendAll(q, kind, packets, sends);
            && R.RunInv(q', LastTime(clock, sends), maxWindow) && KnownBelow(q', kind, start + |packets|)
            && Coupled(q'.full.Get(kind), P.FileAll(outstanding, packets))
            && (forall other :: other != kind ==> q'.full.Get(other) == q.full.Get(other))
            && forall other, top :: other != kind && KnownBelow(q, other, top) ==> KnownBelow(q', other, top)
    decreases |packets|
  {
    if packets != [] {
      var packet, now, window := packets[0], sends[0].0, sends[0].1;
      assert packet.Key() == KeyOf(start + 0);
      SendKeepsInv(q, clock, maxWindow, kind, packet, now, window, start);
      SendKeepsCoupled(q, kind, packet, now, window, outstanding);
      forall i | 0 <= i < |packets[1..]|
        ensures packets[1..][i].Key() == KeyOf(start + 1 + i)
      {
        assert packets[1..][i] == packets[i + 1] && start + 1 + i == start + (i + 1);
      }
      SendAllKeepsInv(q.Send(kind, packet, now, window), now, maxWindow, kind, packets[1..], sends[1..], start + 1,
                      outstanding[packet.Key() := packet.packet]);
    }
  }

  /** A channel does nothing or takes a step of the protocol. */
  ghost predicate StepsTo(cfg: P.Config, channel: P.State, channel': P.State) {
    channel' == channel || exists step :: IsStepTo(cfg, channel, step, channel')
  }

  ghost predicate IsStepTo(cfg: P.Config, channel: P.State, step: P.Step, channel': P.State) {
    P.Enabled(cfg, channel, step) && channel' == P.Apply(cfg, channel, step)
  }

  /** What an event does to the channel of a type. */
  ghost predicate Advances(cfgs: Both<P.Config>, s: Session, s': Session, kind: Kind)
    requires kind != Init
  {
    && StepsTo(cfgs.Get(kind), s.channels.Get(kind), s'.channels.Get(kind))
    && ChannelInv(cfgs.Get(kind), s'.channels.Get(kind), s'.queues, kind)
  }

  lemma {:induction false} StepAdvances(
      cfg: P.Config, channel: P.State, step: P.Step, channel': P.State, q: Queues, q': Queues, kind: Kind)
    requires ChannelInv(cfg, channel, q, kind) && IsStepTo(cfg, channel, step, channel')
    requires Coupled(q'.full.Get(kind), channel'.outstanding) && KnownBelow(q', kind, channel'.out.Full())
    ensures StepsTo(cfg, channel, channel') && ChannelInv(cfg, channel', q', kind)
  {
    StepIsReachable(cfg, channel, step);
  }

  lemma {:induction false} OtherStays(cfg: P.Config, channel: P.State, q: Queues, q': Queues, kind: Kind)
    requires ChannelInv(cfg, channel, q, kind) && q'.full.Get(kind) == q.full.Get(kind)
    requires KnownBelow(q', kind, channel.out.Full())
    ensures StepsTo(cfg, channel, channel) && ChannelInv(cfg, channel, q', kind)
  {
  }

  /** An event at one channel leaves the other as it is. */
  lemma {:induction false} OneAdvances(cfgs: Both<P.Config>, s: Session, s': Session, kind: Kind)
    requires forall other :: other != Init ==> ChannelInv(cfgs.Get(other), s.channels.Get(other), s.queues, other)
    requires kind != Init ==> Advances(cfgs, s, s', kind)
    requires forall other :: other != kind && other != Init ==> s'.channels.Get(other) == s.channels.Get(other)
    requires forall other :: other != kind ==> s'.queues.full.Get(other) == s.queues.full.Get(other)
    requires forall other, top :: other != kind && KnownBelow(s.queues, other, top) ==>
             KnownBelow(s'.queues, other, top)
    ensures forall other :: other != Init ==> Advances(cfgs, s, s', other)
  {
    forall other | other != Init
      ensures Advances(cfgs, s, s', other)
    {
      if other != kind {
        assert ChannelInv(cfgs.Get(other), s.channels.Get(other), s.queues, other);
        OtherStays(cfgs.Get(other), s.channels.Get(other), s.queues, s'.queues, other);
      }
    }
  }

  lemma {:induction false} SubmittedState(
      cfg: P.Config, channel: P.State, command: Packet, channel': P.State, packets: seq<OutUdpPacket>)
    requires channel.out.Full() == cfg.first + |channel.sent| && P.Enabled(cfg, channel, P.Submit(command))
    requires channel' == P.Apply(cfg, channel, P.Submit(command))
    requires packets == NumberPieces(channel.out, Split(cfg.lz, command)) && |packets| == |Split(cfg.lz, command)|
    ensures IsStepTo(cfg, channel, P.Submit(command), channel')
    ensures channel.out.Full() + |packets| + 0x2_0000 < 0x1_0000_0000_0000
    ensures channel'.out == Forward(channel.out, |packets|)
    ensures channel'.outstanding == P.FileAll(channel.outstanding, packets)
  {
  }

  lemma {:induction false} SentKeys(out: PartialPacketId, pieces: seq<Packet>, packets: seq<OutUdpPacket>, start: nat)
    requires start == out.Full() && start + |pieces| < 0x1_0000_0000_0000 && packets == NumberPieces(out, pieces)
    ensures |packets| == |pieces| && forall i :: 0 <= i < |packets| ==> packets[i].Key() == KeyOf(start + i)
    ensures Forward(out, |packets|).Full() == start + |packets|
  {
    PiecesAreNumbered(out, pieces, start);
    ForwardAdds(out, |packets|);
  }

  lemma {:induction false} ReachableOut(cfg: P.Config, channel: P.State)
    requires Reachable(cfg, channel)
    ensures channel.out.Full() == cfg.first + |channel.sent|
  {
    ReachableInv(cfg, channel);
  }

  lemma {:induction false} QueueSends(
      q: Queues, clock: nat, maxWindow: nat, kind: Kind, out: PartialPacketId, pieces: seq<Packet>,
      packets: seq<OutUdpPacket>, sends: seq<(nat, nat)>, outstanding: map<PartialPacketId, Packet>, q': Queues)
    requires R.RunInv(q, clock, maxWindow) && kind != Init && KnownBelow(q, kind, out.Full())
    requires Coupled(q.full.Get(kind), outstanding) && out.Full() + |pieces| + 0x2_0000 < 0x1_0000_0000_0000
    requires packets == NumberPieces(out, pieces) && |packets| == |sends| && InTime(clock, maxWindow, sends)
    requires q' == SendAll(q, kind, packets, sends)
    ensures R.RunInv(q', LastTime(clock, sends), maxWindow) && |packets| == |pieces|
    ensures Coupled(q'.full.Get(kind), P.FileAll(outstanding, packets))
    ensures KnownBelow(q', kind, Forward(out, |packets|).Full())
    ensures forall other :: other != kind ==> q'.full.Get(other) == q.full.Get(other)
    ensures forall other, top :: other != kind && KnownBelow(q, other, top) ==> KnownBelow(q', other, top)
  {
    SentKeys(out, pieces, packets, out.Full());
    SendAllKeepsInv(q, clock, maxWindow, kind, packets, sends, out.Full(), outstanding);
  }

  lemma {:induction false} SubmitMayBeNumbered(cfg: P.Config, channel: P.State, command: Packet)
    requires Reachable(cfg, channel) && P.Enabled(cfg, channel, P.Submit(command))
    ensures channel.out.Full() == cfg.first + |channel.sent|
    ensures channel.out.Full() + |Split(cfg.lz, command)| + 0x2_0000 < 0x1_0000_0000_0000
  {
    ReachableOut(cfg, channel);
  }

  lemma {:induction false} ChannelSends(
      cfg: P.Config, channel: P.State, q: Queues, clock: nat, maxWindow: nat, kind: Kind,
      command: Packet, packets: seq<OutUdpPacket>, sends: seq<(nat, nat)>, channel': P.State, q': Queues)
    requires R.RunInv(q, clock, maxWindow) && kind != Init && ChannelInv(cfg, channel, q, kind)
    requires P.Enabled(cfg, channel, P.Submit(command)) && channel' == P.Apply(cfg, channel, P.Submit(command))
    requires packets == NumberPieces(channel.out, Split(cfg.lz, command))
    requires |packets| == |sends| == |Split(cfg.lz, command)| && InTime(clock, maxWindow, sends)
    requires q' == SendAll(q, kind, packets, sends)
    ensures R.RunInv(q', LastTime(clock, sends), maxWindow)
    ensures StepsTo(cfg, channel, channel') && ChannelInv(cfg, channel', q', kind)
    ensures forall other :: other != kind ==> q'.full.Get(other) == q.full.Get(other)
    ensures forall other, top :: other != kind && KnownBelow(q, other, top) ==> KnownBelow(q', other, top)
  {
    SubmitMayBeNumbered(cfg, channel, command);
    QueueSends(q, clock, maxWindow, kind, channel.out, Split(cfg.lz, command), packets, sends,
               channel.outstanding, q');
    SubmittedState(cfg, channel, command, channel', packets);
    StepAdvances(cfg, channel, P.Submit(command), channel', q, q', kind);
  }

  lemma {:induction false} SendFollows(
      cfgs: Both<P.Config>, s: Session, maxWindow: nat, e: Event, s': Session)
    requires SessionInv(cfgs, s, maxWindow) && e.Send? && Possible(cfgs, s, maxWindow, e)
    requires s' == Next(cfgs, s, maxWindow, e)
    ensures R.RunInv(s'.queues, s'.clock, maxWindow) && forall kind :: kind != Init ==> Advances(cfgs, s, s', kind)
  {
    var cfg, channel := cfgs.Get(e.kind), s.channels.Get(e.kind);
    assert ChannelInv(cfg, channel, s.queues, e.kind);
    var packets := NumberPieces(channel.out, Split(cfg.lz, e.command));
    NumberPiecesLength(channel.out, Split(cfg.lz, e.command));
    ChannelSends(cfg, channel, s.queues, s.clock, maxWindow, e.kind, e.command, packets, e.sends,
                 s'.channels.Get(e.kind), s'.queues);
    OneAdvances(cfgs, s, s', e.kind);
  }

  lemma {:induction false} InitFollows(
      cfgs: Both<P.Config>, s: Session, maxWindow: nat, e: Event, s': Session)
    requires SessionInv(cfgs, s, maxWindow) && e.SendInit? && Possible(cfgs, s, maxWindow, e)
    requires s' == Next(cfgs, s, maxWindow, e)
    ensures R.RunInv(s'.queues, s'.clock, maxWindow) && forall kind :: kind != Init ==> Advances(cfgs, s, s', kind)
  {
    SendKeepsInv(s.queues, s.clock, maxWindow, Init, e.packet, e.now, e.window, 0);
    var rec := NewRecord(Init, e.packet, e.now);
    InsertKeepsSound(s.queues, rec, s.queues.Insert(rec));
    FillUpReachesWindow(s.queues.Insert(rec), e.window);
    OneAdvances(cfgs, s, s', Init);
  }

  // ----- Acknowledging

  lemma {:induction false} RemoveKeepsInv(
      q: Queues, clock: nat, maxWindow: nat, kind: Kind, out: PartialPacketId, id: u16, q': Queues)
    requires R.RunInv(q, clock, maxWindow) && q' == q.Remove(kind, Ack(q.full.Get(kind).Keys, out, id).removed)
    ensures R.RunInv(q', clock, maxWindow)
    ensures forall other, top :: KnownBelow(q, other, top) ==> KnownBelow(q', other, top)
    ensures forall other :: other != kind ==> q'.full.Get(other) == q.full.Get(other)
  {
    R.MoveKeepsInv(q, clock, maxWindow, R.Acked(kind, out, id), q', clock);
    forall other | R.Known(q', other)
      ensures R.Known(q, other)
    {
      R.MoveKnows(q, clock, maxWindow, R.Acked(kind, out, id), q', clock, other);
    }
  }

  lemma {:induction false} RemoveKeepsCoupled(
      records: Records, outstanding: map<PartialPacketId, Packet>, removed: set<PartialPacketId>)
    requires Coupled(records, outstanding)
    ensures Coupled(records - removed, outstanding - removed)
  {
    forall key | key in records - removed
      ensures key in outstanding - removed && SameRecord(records - removed, outstanding - removed, key)
    {
      assert SameRecord(records, outstanding, key);
    }
  }

  lemma {:induction false} AckedState(
      cfg: P.Config, channel: P.State, k: nat, channel': P.State, removed: set<PartialPacketId>)
    requires P.Enabled(cfg, channel, P.Acknowledge(k)) && channel' == P.Apply(cfg, channel, P.Acknowledge(k))
    requires removed == Ack(channel.outstanding.Keys, channel.out, Nth(cfg.first + k).packet).removed
    ensures IsStepTo(cfg, channel, P.Acknowledge(k), channel')
    ensures channel'.out == channel.out && channel'.outstanding == channel.outstanding - removed
  {
  }

  lemma {:induction false} AckFollows(
      cfgs: Both<P.Config>, s: Session, maxWindow: nat, e: Event, s': Session)
    requires SessionInv(cfgs, s, maxWindow) && e.AckArrives? && Possible(cfgs, s, maxWindow, e)
    requires s' == Next(cfgs, s, maxWindow, e)
    ensures R.RunInv(s'.queues, s'.clock, maxWindow) && forall kind :: kind != Init ==> Advances(cfgs, s, s', kind)
  {
    var cfg, channel := cfgs.Get(e.kind), s.channels.Get(e.kind);
    assert ChannelInv(cfg, channel, s.queues, e.kind);
    var id := Nth(cfg.first + e.k).packet;
    var removed := Ack(s.queues.full.Get(e.kind).Keys, channel.out, id).removed;
    RemoveKeepsInv(s.queues, s.clock, maxWindow, e.kind, channel.out, id, s'.queues);
    RemoveKeepsCoupled(s.queues.full.Get(e.kind), channel.outstanding, removed);
    AckedState(cfg, channel, e.k, s'.channels.Get(e.kind), removed);
    StepAdvances(cfg, channel, P.Acknowledge(e.k), s'.channels.Get(e.kind), s.queues, s'.queues, e.kind);
    OneAdvances(cfgs, s, s', e.kind);
  }

  lemma {:induction false} InitAckFollows(
      cfgs: Both<P.Config>, s: Session, maxWindow: nat, e: Event, s': Session)
    requires SessionInv(cfgs, s, maxWindow) && e.InitAckArrives? && s' == Next(cfgs, s, maxWindow, e)
    ensures R.RunInv(s'.queues, s'.clock, maxWindow) && forall kind :: kind != Init ==> Advances(cfgs, s, s', kind)
  {
    RemoveKeepsInv(s.queues, s.clock, maxWindow, Init, e.out, e.id, s'.queues);
    OneAdvances(cfgs, s, s', Init);
  }

  // ----- Polling

  lemma {:induction false} TouchKeepsCoupled(
      q: Queues, i: nat, now: nat, kind: Kind, outstanding: map<PartialPacketId, Packet>)
    requires i < |q.heap| && q.Live(q.heap[i].id) && Coupled(q.full.Get(kind), outstanding)
    ensures Coupled(q.Touch(i, now).full.Get(kind), outstanding)
  {
    var records := q.Touch(i, now).full.Get(kind);
    forall key | key in records
      ensures key in outstanding && SameRecord(records, outstanding, key)
    {
      assert SameRecord(q.full.Get(kind), outstanding, key);
    }
  }

  /** Polling changes only when and how often a record was sent. */
  lemma {:induction false} PollKeepsCoupled(
      q: Queues, i: nat, env: Env, kind: Kind, outstanding: map<PartialPacketId, Packet>)
    requires q.Sound() && i < |q.heap| && Coupled(q.full.Get(kind), outstanding)
    ensures Coupled(q.Poll(i, env).queues.full.Get(kind), outstanding)
  {
    if !q.Live(q.heap[i].id) {
      PopKeepsSound(q, i, q.Pop(i));
      FillUpReachesWindow(q.Pop(i), env.window);
    } else {
      var touched := q.Touch(i, env.now);
      TouchKeepsSound(q, i, env.now, touched);
      TouchKeepsCoupled(q, i, env.now, kind, outstanding);
      ClearedIsValid(touched);
      FillUpReachesWindow(Cleared(touched), env.window);
    }
  }

  /** What the resender sends, the protocol may transmit. */
  lemma {:induction false} SentMayBeTransmitted(
      cfg: P.Config, channel: P.State, q: Queues, clock: nat, maxWindow: nat, i: nat, env: Env, id: PacketId)
    requires R.RunInv(q, clock, maxWindow) && maxWindow < P.MAX_IN_FLIGHT && q.IsTop(i) && id == q.heap[i].id
    requires id.kind != Init && Coupled(q.full.Get(id.kind), channel.outstanding) && q.Poll(i, env).sent.Some?
    ensures IsStepTo(cfg, channel, P.Transmit(id.part), OnWire(cfg, channel, id.part))
    ensures q.Poll(i, env).sent.value.packet == channel.outstanding[id.part]
  {
    R.SendsAmongTheOldest(q, clock, maxWindow, i, env);
    assert SameRecord(q.full.Get(id.kind), channel.outstanding, id.part);
  }

  lemma {:induction false} PollKeepsInv(
      q: Queues, clock: nat, maxWindow: nat, i: nat, env: Env, q': Queues)
    requires R.RunInv(q, clock, maxWindow) && q.heap != [] && q.IsTop(i) && q' == q.Poll(i, env).queues
    requires clock <= env.now && 1 <= env.window <= maxWindow
    ensures R.RunInv(q', env.now, maxWindow)
    ensures forall other, top :: KnownBelow(q, other, top) ==> KnownBelow(q', other, top)
  {
    assert q.PollsTo(env, q.Poll(i, env));
    R.MoveKeepsInv(q, clock, maxWindow, R.Round(env), q', env.now);
    forall other | R.Known(q', other)
      ensures R.Known(q, other)
    {
      R.MoveKnows(q, clock, maxWindow, R.Round(env), q', env.now, other);
    }
  }

  lemma {:induction false} RoundFollows(
      cfgs: Both<P.Config>, s: Session, maxWindow: nat, e: Event, s': Session)
    requires SessionInv(cfgs, s, maxWindow) && e.Round? && Possible(cfgs, s, maxWindow, e)
    requires maxWindow < P.MAX_IN_FLIGHT && s' == Next(cfgs, s, maxWindow, e)
    ensures R.RunInv(s'.queues, s'.clock, maxWindow) && forall kind :: kind != Init ==> Advances(cfgs, s, s', kind)
  {
    PollKeepsInv(s.queues, s.clock, maxWindow, e.i, e.env, s'.queues);
    var id := s.queues.heap[e.i].id;
    forall kind | kind != Init
      ensures Advances(cfgs, s, s', kind)
    {
      var cfg, channel := cfgs.Get(kind), s.channels.Get(kind);
      assert ChannelInv(cfg, channel, s.queues, kind);
      PollKeepsCoupled(s.queues, e.i, e.env, kind, channel.outstanding);
      if id.kind == kind && s.queues.Poll(e.i, e.env).sent.Some? {
        SentMayBeTransmitted(cfg, channel, s.queues, s.clock, maxWindow, e.i, e.env, id);
        StepAdvances(cfg, channel, P.Transmit(id.part), OnWire(cfg, channel, id.part), s.queues, s'.queues, kind);
      }
    }
  }

  lemma {:induction false} ArrivalFollows(
      cfgs: Both<P.Config>, s: Session, maxWindow: nat, e: Event, s': Session)
    requires SessionInv(cfgs, s, maxWindow) && e.PacketArrives? && Possible(cfgs, s, maxWindow, e)
    requires s' == Next(cfgs, s, maxWindow, e)
    ensures R.RunInv(s'.queues, s'.clock, maxWindow) && forall kind :: kind != Init ==> Advances(cfgs, s, s', kind)
  {
    var cfg, channel := cfgs.Get(e.kind), s.channels.Get(e.kind);
    assert ChannelInv(cfg, channel, s.queues, e.kind);
    StepAdvances(cfg, channel, P.Deliver(e.k), s'.channels.Get(e.kind), s.queues, s'.queues, e.kind);
    OneAdvances(cfgs, s, s', e.kind);
  }

  lemma {:induction false} RestFollows(
      cfgs: Both<P.Config>, s: Session, maxWindow: nat, e: Event, s': Session)
    requires SessionInv(cfgs, s, maxWindow) && e.Rest? && Possible(cfgs, s, maxWindow, e)
    requires s' == Next(cfgs, s, maxWindow, e)
    ensures R.RunInv(s'.queues, s'.clock, maxWindow) && forall kind :: kind != Init ==> Advances(cfgs, s, s', kind)
  {
    R.SameRecordsTimely(s.queues, s.clock, s.queues, e.now);
    forall kind | kind != Init
      ensures Advances(cfgs, s, s', kind)
    {
      assert ChannelInv(cfgs.Get(kind), s.channels.Get(kind), s.queues, kind);
    }
  }

  /** With windows below `MAX_IN_FLIGHT`, whatever happens is for each channel nothing or a step of the
      protocol. In particular the protocol's condition on transmissions holds of all that is sent. */
  lemma {:induction false} EventIsProtocolStep(
      cfgs: Both<P.Config>, s: Session, maxWindow: nat, e: Event, s': Session)
    requires SessionInv(cfgs, s, maxWindow) && maxWindow < P.MAX_IN_FLIGHT
    requires Possible(cfgs, s, maxWindow, e) && s' == Next(cfgs, s, maxWindow, e)
    ensures SessionInv(cfgs, s', maxWindow)
    ensures forall kind :: kind != Init ==> StepsTo(cfgs.Get(kind), s.channels.Get(kind), s'.channels.Get(kind))
  {
    assert R.RunInv(s'.queues, s'.clock, maxWindow) && forall kind :: kind != Init ==> Advances(cfgs, s, s', kind) by {
      match e
      case Send(_, _, _) => SendFollows(cfgs, s, maxWindow, e, s');
      case SendInit(_, _, _) => InitFollows(cfgs, s, maxWindow, e, s');
      case AckArrives(_, _) => AckFollows(cfgs, s, maxWindow, e, s');
      case InitAckArrives(_, _) => InitAckFollows(cfgs, s, maxWindow, e, s');
      case Round(_, _) => RoundFollows(cfgs, s, maxWindow, e, s');
      case Rest(_) => RestFollows(cfgs, s, maxWindow, e, s');
      case PacketArrives(_, _) => ArrivalFollows(cfgs, s, maxWindow, e, s');
    }
    forall kind | kind != Init
      ensures ChannelInv(cfgs.Get(kind), s'.channels.Get(kind), s'.queues, kind)
      ensures StepsTo(cfgs.Get(kind), s.channels.Get(kind), s'.channels.Get(kind))
    {
      assert Advances(cfgs, s, s', kind);
    }
  }

  // ----- Whole sessions

  ghost function Start(cfgs: Both<P.Config>): Session {
    Session(Both(P.Init(cfgs.command), P.Init(cfgs.low)), R.Empty(), 0)
  }

  lemma {:induction false} StartInv(cfgs: Both<P.Config>, maxWindow: nat)
    requires cfgs.command.lz.Inverse() && cfgs.low.lz.Inverse()
    ensures SessionInv(cfgs, Start(cfgs), maxWindow)
  {
    StartIsReachable(cfgs.command);
    StartIsReachable(cfgs.low);
  }

  ghost predicate IsEvent(
      cfgs: Both<P.Config>, sessions: seq<Session>, events: seq<Event>, maxWindow: nat, k: nat)
    requires k < |events| && k + 1 < |sessions|
  {
    Possible(cfgs, sessions[k], maxWindow, events[k]) &&
        sessions[k + 1] == Next(cfgs, sessions[k], maxWindow, events[k])
  }

  /** A session from its start on. */
  ghost predicate SessionRun(cfgs: Both<P.Config>, sessions: seq<Session>, events: seq<Event>, maxWindow: nat) {
    && cfgs.command.lz.Inverse() && cfgs.low.lz.Inverse()
    && |sessions| == |events| + 1 && sessions[0] == Start(cfgs)
    && forall k :: 0 <= k < |events| ==> IsEvent(cfgs, sessions, events, maxWindow, k)
  }

  lemma {:induction false} SessionKeepsInv(
      cfgs: Both<P.Config>, sessions: seq<Session>, events: seq<Event>, maxWindow: nat, k: nat, s: Session)
    requires SessionRun(cfgs, sessions, events, maxWindow) && maxWindow < P.MAX_IN_FLIGHT
    requires k < |sessions| && s == sessions[k]
    ensures SessionInv(cfgs, s, maxWindow)
    decreases k
  {
    if k == 0 {
      StartInv(cfgs, maxWindow);
    } else {
      var before := sessions[k - 1];
      SessionKeepsInv(cfgs, sessions, events, maxWindow, k - 1, before);
      assert IsEvent(cfgs, sessions, events, maxWindow, k - 1);
      EventIsProtocolStep(cfgs, before, maxWindow, events[k - 1], s);
    }
  }

  /** Every session with windows below `MAX_IN_FLIGHT` is, at each of its channels, a run of the
      protocol: what the resender sends are transmissions that the protocol enables. */
  lemma {:induction false} SessionIsProtocolRun(
      cfgs: Both<P.Config>, sessions: seq<Session>, events: seq<Event>, maxWindow: nat, k: nat, kind: Kind)
    returns (states: seq<P.State>, steps: seq<P.Step>)
    requires SessionRun(cfgs, sessions, events, maxWindow) && maxWindow < P.MAX_IN_FLIGHT
    requires k < |sessions| && kind != Init
    ensures P.Reached(cfgs.Get(kind), states, steps, sessions[k].channels.Get(kind))
    ensures k > 0 ==>
              StepsTo(cfgs.Get(kind), sessions[k - 1].channels.Get(kind), sessions[k].channels.Get(kind))
  {
    SessionKeepsInv(cfgs, sessions, events, maxWindow, k, sessions[k]);
    assert ChannelInv(cfgs.Get(kind), sessions[k].channels.Get(kind), sessions[k].queues, kind);
    states, steps :| P.Reached(cfgs.Get(kind), states, steps, sessions[k].channels.Get(kind));
    if k > 0 {
      SessionKeepsInv(cfgs, sessions, events, maxWindow, k - 1, sessions[k - 1]);
      assert IsEvent(cfgs, sessions, events, maxWindow, k - 1);
      EventIsProtocolStep(cfgs, sessions[k - 1], maxWindow, events[k - 1], sessions[k]);
    }
  }

  /** The resender loses nothing: in every such session, the packet of each number handed out is in a
      live record of the resender, or it has reached the receiver. */
  lemma {:induction false} ResenderLosesNothing(
      cfgs: Both<P.Config>, sessions: seq<Session>, events: seq<Event>, maxWindow: nat, s: Session, kind: Kind, n: nat)
    requires SessionRun(cfgs, sessions, events, maxWindow) && maxWindow < P.MAX_IN_FLIGHT
    requires s in sessions && kind != Init && n < |s.channels.Get(kind).sent|
    ensures var cfg, channel, id := cfgs.Get(kind), s.channels.Get(kind),
            PacketId(kind, KeyOf(cfgs.Get(kind).first + n));
            && P.Done(cfg, channel) >= 0
            && ((s.queues.Live(id) && s.queues.Record(id).packet.packet == channel.sent[n]) ||
                Received(channel.sent, P.Done(cfg, channel), channel.channel, n))
  {
    var k :| 0 <= k < |sessions| && sessions[k] == s;
    var cfg, channel := cfgs.Get(kind), s.channels.Get(kind);
    SessionKeepsInv(cfgs, sessions, events, maxWindow, k, s);
    assert ChannelInv(cfg, channel, s.queues, kind);
    RecordOrReceived(cfg, channel, n, KeyOf(cfg.first + n));
    if KeyOf(cfg.first + n) in channel.outstanding {
      assert SameRecord(s.queues.full.Get(kind), channel.outstanding, KeyOf(cfg.first + n));
    }
  }

  lemma {:induction false} RecordIsOfPacket(cfg: P.Config, channel: P.State, n: nat, key: PartialPacketId)
    requires Reachable(cfg, channel) && n < |channel.sent| && NumberOf(key) == cfg.first + n
    requires key in channel.outstanding
    ensures channel.outstanding[key] == channel.sent[n]
  {
    ReachableSender(cfg, channel);
    assert P.Filed(cfg, channel, key);
  }

  lemma {:induction false} ReachableLosesNothing(cfg: P.Config, channel: P.State, n: nat)
    requires Reachable(cfg, channel) && n < |channel.sent|
    ensures P.Done(cfg, channel) >= 0
    ensures KeyOf(cfg.first + n) in channel.outstanding ||
            Received(channel.sent, P.Done(cfg, channel), channel.channel, n)
  {
    var states, steps :| P.Reached(cfg, states, steps, channel);
    P.NothingIsLost(cfg, states, steps, channel, n);
  }

  lemma {:induction false} PacketNumber(cfg: P.Config, channel: P.State, n: nat)
    requires Reachable(cfg, channel) && n < |channel.sent|
    ensures NumberOf(KeyOf(cfg.first + n)) == cfg.first + n
  {
    ReachableInv(cfg, channel);
  }

  lemma {:induction false} RecordOrReceived(cfg: P.Config, channel: P.State, n: nat, key: PartialPacketId)
    requires Reachable(cfg, channel) && n < |channel.sent| && key == KeyOf(cfg.first + n)
    ensures P.Done(cfg, channel) >= 0
    ensures (key in channel.outstanding && channel.outstanding[key] == channel.sent[n]) ||
            Received(channel.sent, P.Done(cfg, channel), channel.channel, n)
  {
    ReachableLosesNothing(cfg, channel, n);
    PacketNumber(cfg, channel, n);
    if key in channel.outstanding {
      RecordIsOfPacket(cfg, channel, n, key);
    }
  }

  /** When the resender has nothing left to send, every command of both channels was delivered. */
  lemma {:induction false} IdleMeansAllDelivered(
      cfgs: Both<P.Config>, sessions: seq<Session>, events: seq<Event>, maxWindow: nat, k: nat, kind: Kind)
    requires SessionRun(cfgs, sessions, events, maxWindow) && maxWindow < P.MAX_IN_FLIGHT
    requires k < |sessions| && sessions[k].queues.heap == [] && kind != Init
    ensures var channel := sessions[k].channels.Get(kind);
            Contents(channel.delivered) == Contents(channel.commands)
  {
    var s, channel := sessions[k], sessions[k].channels.Get(kind);
    var states, steps := SessionIsProtocolRun(cfgs, sessions, events, maxWindow, k, kind);
    SessionKeepsInv(cfgs, sessions, events, maxWindow, k, s);
    assert ChannelInv(cfgs.Get(kind), channel, s.queues, kind);
    forall key
      ensures key !in channel.outstanding
    {
      assert !s.queues.Live(PacketId(kind, key));
    }
    assert channel.outstanding == map[];
    P.NothingOutstandingMeansAllDelivered(cfgs.Get(kind), states, steps, channel);
  }
}

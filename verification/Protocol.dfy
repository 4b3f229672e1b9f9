/** The reliable command channel of two parties over a network that may lose, delay, duplicate and
    reorder packets and acknowledgements. */
module Protocol {
  import opened PacketIds
  import opened Wrappers
  import opened Fragments
  import opened Numbering
  import opened Receiver
  import opened Reorder
  import opened Stream

  /** `first` is the number of the first command: 1 from client to server, else 0. */
  datatype Config = Config(lz: QuickLz, first: u16)

  /** How many records may be in flight at once: half an id cycle, less the receiver's queue length,
      and the packet the receiver waits for. `InFlightBoundIsExact` shows that it is exact. */
  const MAX_IN_FLIGHT := 32568

  /** The sender's id counter and records, the receiver's channel, and the history of the run:
      the commands submitted and delivered, the packets they became, which of those ever were
      on the wire, and which were ever acknowledged. Nothing leaves the wire, so a packet or
      acknowledgement can arrive at any time after it was sent, more than once, or never. */
  datatype State = State(
    out: PartialPacketId,
    outstanding: map<PartialPacketId, Packet>,
    channel: Channel,
    commands: seq<Packet>,
    delivered: seq<Packet>,
    sent: seq<Packet>,
    wire: set<nat>,
    acks: set<nat>)

  datatype Step =
    | Submit(command: Packet)
    | Transmit(key: PartialPacketId)
    | Deliver(k: nat)
    | Acknowledge(k: nat)

  ghost function Init(cfg: Config): State {
    var next := PartialPacketId(0, cfg.first);
    State(next, map[], Channel(next, [], None), [], [], [], {}, {})
  }

  function FileAll(records: map<PartialPacketId, Packet>, packets: seq<OutUdpPacket>): map<PartialPacketId, Packet>
    decreases |packets|
  {
    if packets == [] then records
    else FileAll(records[packets[0].Key() := packets[0].packet], packets[1..])
  }

  function Packets(packets: seq<OutUdpPacket>): (r: seq<Packet>)
    ensures |r| == |packets| && forall k :: 0 <= k < |r| ==> r[k] == packets[k].packet
  {
    seq(|packets|, i requires 0 <= i < |packets| => packets[i].packet)
  }

  /** The records up to a packet, in the order of the packet numbers. */
  ghost function UpTo(keys: set<PartialPacketId>, key: PartialPacketId): set<PartialPacketId> {
    set k | k in keys && NumberOf(k) <= NumberOf(key)
  }

  /** Another record than that of packet `f` has its 16-bit id, within a cycle of the first record. */
  ghost predicate Ambiguous(keys: set<PartialPacketId>, f: nat) {
    keys != {} && exists key :: key in keys && IsForeign(First(keys), key, f)
  }

  ghost predicate IsForeign(first: PartialPacketId, key: PartialPacketId, f: nat) {
    key != KeyOf(f) && key.packet == Nth(f).packet && key.Full() < first.Full() + 0x1_0000
  }

  /** Which steps a run may take.
      Submit: the command fits the receiver's limits and the id space.
      Transmit: the record is among the oldest, as those in the send queue are.
      Deliver: the packet was sent, and if it is the next one, copies from earlier cycles of ids
      do not stand before the packets it releases.
      Acknowledge: the 16 bits do not name the record of another packet. */
  ghost predicate Enabled(cfg: Config, s: State, step: Step) {
    match step
    case Submit(command) =>
      Sendable(cfg.lz, command) &&
      cfg.first + |s.sent| + |Split(cfg.lz, command)| + 0x2_0000 < 0x1_0000_0000_0000
    case Transmit(key) =>
      key in s.outstanding && |UpTo(s.outstanding.Keys, key)| <= MAX_IN_FLIGHT
    case Deliver(k) =>
      k in s.wire && k < |s.sent| &&
      (cfg.first + k == s.channel.next.Full() ==> InOrder(s.sent, s.channel.queue, cfg.first, k))
    case Acknowledge(k) =>
      k in s.acks && !Ambiguous(s.outstanding.Keys, cfg.first + k)
  }

  ghost function Apply(cfg: Config, s: State, step: Step): State
    requires Enabled(cfg, s, step)
  {
    match step
    case Submit(command) =>
      var packets := NumberPieces(s.out, Split(cfg.lz, command));
      s.(commands := s.commands + [command], sent := s.sent + Packets(packets),
         out := Forward(s.out, |packets|), outstanding := FileAll(s.outstanding, packets))
    case Transmit(key) =>
      if NumberOf(key) < cfg.first then s else s.(wire := s.wire + {NumberOf(key) - cfg.first})
    case Deliver(k) =>
      var r := Receive(cfg.lz, s.channel, s.sent[k], Nth(cfg.first + k).generation);
      s.(channel := r.channel, delivered := s.delivered + r.delivered, acks := if r.acked then s.acks + {k} else s.acks)
    case Acknowledge(k) =>
      s.(outstanding := s.outstanding - Ack(s.outstanding.Keys, s.out, Nth(cfg.first + k).packet).removed)
  }

  // ----- The invariant

  ghost function Done(cfg: Config, s: State): int {
    s.channel.next.Full() - cfg.first
  }

  ghost predicate Filed(cfg: Config, s: State, key: PartialPacketId)
    requires key in s.outstanding
  {
    var k := NumberOf(key) - cfg.first;
    0 <= k < |s.sent| && s.outstanding[key] == s.sent[k]
  }

  ghost predicate Kept(cfg: Config, s: State, k: nat) {
    KeyOf(cfg.first + k) in s.outstanding || k in s.acks
  }

  ghost predicate SenderInv(cfg: Config, s: State) {
    && s.out.Full() == cfg.first + |s.sent|
    && (forall key :: key in s.outstanding ==> Filed(cfg, s, key))
    && (forall k :: 0 <= k < |s.sent| ==> Kept(cfg, s, k))
  }

  ghost predicate OrderInv(cfg: Config, s: State) {
    Done(cfg, s) >= 0 && Follows(s.sent, cfg.first, Done(cfg, s), s.channel)
  }

  ghost predicate WireInv(cfg: Config, s: State)
    requires Done(cfg, s) >= 0
  {
    && (forall k :: k in s.wire ==> k < |s.sent| && k < Done(cfg, s) + 32767)
    && (forall k :: k in s.acks ==> k < |s.sent| && Received(s.sent, Done(cfg, s), s.channel, k))
  }

  /** What the transport keeps, whatever the packets hold. */
  ghost predicate TransportInv(cfg: Config, s: State) {
    SenderInv(cfg, s) && OrderInv(cfg, s) && WireInv(cfg, s)
  }

  /** What the commands keep: the packets carry them, and the receiver has reassembled a prefix. */
  ghost predicate CommandInv(cfg: Config, s: State)
    requires 0 <= Done(cfg, s) <= |s.sent|
  {
    && CarriesAll(cfg.lz, s.commands, s.sent)
    && (forall i :: 0 <= i < |s.commands| ==> Sendable(cfg.lz, s.commands[i]))
    && FeedSeq(cfg.lz, None, s.sent[..Done(cfg, s)]) == FedAll(s.channel.buffer, s.delivered, Done(cfg, s), None)
  }

  ghost predicate Inv(cfg: Config, s: State) {
    TransportInv(cfg, s) && CommandInv(cfg, s)
  }

  lemma {:induction false} InitInv(cfg: Config)
    ensures Inv(cfg, Init(cfg))
  {
  }

  // ----- Transmit

  /** An unacknowledged packet that has not reached the receiver still has its record. */
  lemma {:induction false} UnreceivedIsOutstanding(cfg: Config, s: State, k: nat)
    requires TransportInv(cfg, s) && Done(cfg, s) + MAX_QUEUE_LEN <= k < |s.sent|
    ensures KeyOf(cfg.first + k) in s.outstanding
  {
    assert Kept(cfg, s, k);
  }

  /** The keys of the numbers in [lo, hi). */
  ghost function Stretch(lo: nat, hi: nat): set<PartialPacketId>
    decreases hi
  {
    if lo >= hi then {} else Stretch(lo, hi - 1) + {KeyOf(hi - 1)}
  }

  lemma {:induction false} StretchMembers(lo: nat, hi: nat, key: PartialPacketId)
    requires hi < 0x1_0000_0000_0000
    ensures key in Stretch(lo, hi) <==> lo <= NumberOf(key) < hi
    decreases hi
  {
    if lo < hi {
      StretchMembers(lo, hi - 1, key);
      NumberInjective(key, KeyOf(hi - 1));
    }
  }

  lemma {:induction false} StretchSize(lo: nat, hi: nat)
    requires lo <= hi < 0x1_0000_0000_0000
    ensures |Stretch(lo, hi)| == hi - lo
    decreases hi
  {
    if lo < hi {
      StretchSize(lo, hi - 1);
      StretchMembers(lo, hi - 1, KeyOf(hi - 1));
    }
  }

  /** A stretch of outstanding numbers up to a record, and one more record before it. */
  lemma {:induction false} LongStretch(
    keys: set<PartialPacketId>, before: nat, lo: nat, hi: nat, key: PartialPacketId)
    requires before < lo <= hi < 0x1_0000_0000_0000 && NumberOf(key) == hi - 1
    requires KeyOf(before) in keys && forall f :: lo <= f < hi ==> KeyOf(f) in keys
    ensures |UpTo(keys, key)| > hi - lo
  {
    var stretch := Stretch(lo, hi);
    forall e | e in stretch + {KeyOf(before)}
      ensures e in UpTo(keys, key)
    {
      StretchMembers(lo, hi, e);
      NumberInjective(e, KeyOf(NumberOf(e)));
    }
    StretchSize(lo, hi);
    StretchMembers(lo, hi, KeyOf(before));
    SubsetSize(stretch + {KeyOf(before)}, UpTo(keys, key));
  }

  /** A packet that the sender may transmit is less than half a cycle ahead of the receiver. */
  lemma {:induction false} TransmitStaysInWindow(cfg: Config, s: State, key: PartialPacketId)
    requires TransportInv(cfg, s) && key in s.outstanding && |UpTo(s.outstanding.Keys, key)| <= MAX_IN_FLIGHT
    ensures 0 <= NumberOf(key) - cfg.first < Min(|s.sent|, Done(cfg, s) + 32767)
  {
    assert Filed(cfg, s, key);
    var done, k := Done(cfg, s), NumberOf(key) - cfg.first;
    if k >= done + 32767 {
      NextIsOutstanding(cfg, s);
      forall f | cfg.first + done + MAX_QUEUE_LEN <= f < cfg.first + k + 1
        ensures KeyOf(f) in s.outstanding.Keys
      {
        UnreceivedIsOutstanding(cfg, s, f - cfg.first);
      }
      LongStretch(s.outstanding.Keys, cfg.first + done, cfg.first + done + MAX_QUEUE_LEN, cfg.first + k + 1, key);
    }
  }

  /** The packet the receiver waits for has its record. */
  lemma {:induction false} NextIsOutstanding(cfg: Config, s: State)
    requires TransportInv(cfg, s) && Done(cfg, s) < |s.sent|
    ensures KeyOf(cfg.first + Done(cfg, s)) in s.outstanding
  {
    assert Kept(cfg, s, Done(cfg, s));
    NextIsNotQueued(s.sent, cfg.first, Done(cfg, s), s.channel);
  }

  lemma {:induction false} SubsetSize<T>(a: set<T>, b: set<T>)
    requires a <= b
    ensures |a| <= |b|
    decreases |a|
  {
    if a != {} {
      var x :| x in a;
      SubsetSize(a - {x}, b - {x});
    }
  }

  // ----- Submit

  lemma {:induction false} FileAllFiles(records: map<PartialPacketId, Packet>, packets: seq<OutUdpPacket>)
    requires forall i, j :: 0 <= i < j < |packets| ==> packets[i].Key() != packets[j].Key()
    ensures var r := FileAll(records, packets);
            && (forall i :: 0 <= i < |packets| ==> packets[i].Key() in r && r[packets[i].Key()] == packets[i].packet)
            && (forall key :: key in records && (forall i :: 0 <= i < |packets| ==> packets[i].Key() != key) ==>
               key in r && r[key] == records[key])
            && (forall key :: key in r ==> key in records || exists i :: 0 <= i < |packets| && packets[i].Key() == key)
    decreases |packets|
  {
    if packets != [] {
      var records' := records[packets[0].Key() := packets[0].packet];
      FileAllFiles(records', packets[1..]);
      var r := FileAll(records, packets);
      assert forall i :: 0 <= i < |packets| - 1 ==> packets[1..][i] == packets[i + 1];
    }
  }

  /** A longer stream changes nothing for a channel that follows it. */
  lemma {:induction false} FollowsLonger(stream: seq<Packet>, more: seq<Packet>, first: nat, done: nat, c: Channel)
    requires Follows(stream, first, done, c) && Numbered(stream + more, first)
    requires first + |stream| + |more| + 0x2_0000 < 0x1_0000_0000_0000
    ensures Follows(stream + more, first, done, c)
  {
    forall i | 0 <= i < |c.queue|
      ensures HasSource(stream + more, done, c.queue[i])
    {
      assert HasSource(stream, done, c.queue[i]);
      var k: nat :| IsCopy(stream, done, c.queue[i], k);
      assert IsCopy(stream + more, done, c.queue[i], k);
    }
  }

  lemma {:induction false} CarriesOneMore(
      lz: QuickLz, commands: seq<Packet>, ps: seq<Packet>, command: Packet, pieces: seq<Packet>)
    requires CarriesAll(lz, commands, ps) && Carries(lz, command, pieces)
    ensures CarriesAll(lz, commands + [command], ps + pieces)
    decreases |commands|
  {
    var all, sent := commands + [command], ps + pieces;
    if commands == [] {
      assert all == [command] && sent == pieces;
      assert pieces[..|pieces|] == pieces && pieces[|pieces|..] == [] && all[1..] == [];
    } else {
      var n := |Split(lz, commands[0])|;
      CarriesOneMore(lz, commands[1..], ps[n..], command, pieces);
      assert all[0] == commands[0] && all[1..] == commands[1..] + [command];
      CutBehind(ps, pieces, n);
    }
  }

  lemma {:induction false} CutBehind(ps: seq<Packet>, more: seq<Packet>, n: nat)
    requires n <= |ps|
    ensures (ps + more)[..n] == ps[..n] && (ps + more)[n..] == ps[n..] + more
  {
  }

  lemma {:induction false} NumberedLonger(stream: seq<Packet>, packets: seq<OutUdpPacket>, first: nat, start: nat)
    requires Numbered(stream, first) && start == first + |stream|
    requires forall k :: 0 <= k < |packets| ==> packets[k].packet.id == Nth(start + k).packet
    ensures Numbered(stream + Packets(packets), first)
  {
    var all := stream + Packets(packets);
    forall k | 0 <= k < |all|
      ensures all[k].id == Nth(first + k).packet
    {
      if k >= |stream| {
        var j := k - |stream|;
        assert all[k] == packets[j].packet && start + j == first + k;
      }
    }
  }

  /** What numbering does to the pieces of the next command. */
  lemma {:induction false} NextPackets(
      out: PartialPacketId, stream: seq<Packet>, first: nat, pieces: seq<Packet>, packets: seq<OutUdpPacket>)
    requires out.Full() == first + |stream| && Numbered(stream, first)
    requires first + |stream| + |pieces| + 0x2_0000 < 0x1_0000_0000_0000
    requires packets == NumberPieces(out, pieces)
    ensures |packets| == |pieces| && Forward(out, |packets|).Full() == first + |stream| + |packets|
    ensures Numbered(stream + Packets(packets), first)
    ensures forall k :: 0 <= k < |packets| ==> packets[k].Key() == KeyOf(first + |stream| + k)
    ensures forall k :: 0 <= k < |packets| ==> Packets(packets)[k] == pieces[k].(id := Packets(packets)[k].id)
  {
    var start := first + |stream|;
    PiecesAreNumbered(out, pieces, start);
    ForwardAdds(out, |packets|);
    NumberedLonger(stream, packets, first, start);
    forall k | 0 <= k < |packets|
      ensures Packets(packets)[k] == pieces[k].(id := Packets(packets)[k].id)
    {
      assert packets[k].packet == pieces[k].(id := Nth(start + k).packet);
    }
  }

  /** Filing the next packets under their keys. */
  lemma {:induction false} FilingKeepsSender(cfg: Config, s: State, s': State, packets: seq<OutUdpPacket>, base: nat)
    requires SenderInv(cfg, s) && base == cfg.first + |s.sent| && base + |packets| < 0x1_0000_0000_0000 - 1
    requires forall k :: 0 <= k < |packets| ==> packets[k].Key() == KeyOf(base + k)
    requires s'.out.Full() == base + |packets| && s'.sent == s.sent + Packets(packets)
    requires s'.outstanding == FileAll(s.outstanding, packets) && s'.acks == s.acks
    ensures SenderInv(cfg, s')
  {
    forall i, j | 0 <= i < j < |packets|
      ensures packets[i].Key() != packets[j].Key()
    {
      assert NumberOf(packets[i].Key()) != NumberOf(packets[j].Key());
    }
    FileAllFiles(s.outstanding, packets);
    forall key | key in s'.outstanding
      ensures Filed(cfg, s', key)
    {
      FiledAfter(cfg, s, s', packets, base, key);
    }
    forall k | 0 <= k < |s'.sent|
      ensures Kept(cfg, s', k)
    {
      KeptAfter(cfg, s, s', packets, base, k);
    }
  }

  lemma {:induction false} FiledAfter(
      cfg: Config, s: State, s': State, packets: seq<OutUdpPacket>, base: nat, key: PartialPacketId)
    requires SenderInv(cfg, s) && base == cfg.first + |s.sent| && s'.sent == s.sent + Packets(packets)
    requires forall i :: 0 <= i < |packets| ==> NumberOf(packets[i].Key()) == base + i
    requires key in s'.outstanding
    requires forall i :: 0 <= i < |packets| ==>
               packets[i].Key() in s'.outstanding && s'.outstanding[packets[i].Key()] == packets[i].packet
    requires key in s.outstanding && (forall i :: 0 <= i < |packets| ==> packets[i].Key() != key) ==>
             s'.outstanding[key] == s.outstanding[key]
    requires key in s.outstanding || exists i :: 0 <= i < |packets| && packets[i].Key() == key
    ensures Filed(cfg, s', key)
  {
    if exists i :: 0 <= i < |packets| && packets[i].Key() == key {
      var i :| 0 <= i < |packets| && packets[i].Key() == key;
      assert s'.sent[|s.sent| + i] == packets[i].packet;
    } else {
      assert Filed(cfg, s, key);
    }
  }

  lemma {:induction false} KeptAfter(cfg: Config, s: State, s': State, packets: seq<OutUdpPacket>, base: nat, k: nat)
    requires SenderInv(cfg, s) && base == cfg.first + |s.sent| && k < |s.sent| + |packets| && s'.acks == s.acks
    requires forall i :: 0 <= i < |packets| ==>
               packets[i].Key() == KeyOf(base + i) && packets[i].Key() in s'.outstanding
    requires forall key :: key in s.outstanding && (forall i :: 0 <= i < |packets| ==> packets[i].Key() != key) ==>
             key in s'.outstanding
    ensures Kept(cfg, s', k)
  {
    if k < |s.sent| {
      assert Kept(cfg, s, k);
    } else {
      assert packets[k - |s.sent|].Key() == KeyOf(cfg.first + k);
    }
  }

  lemma {:induction false} SubmitKeepsTransport(cfg: Config, s: State, command: Packet)
    requires TransportInv(cfg, s) && Enabled(cfg, s, Submit(command))
    ensures TransportInv(cfg, Apply(cfg, s, Submit(command)))
    ensures Carries(cfg.lz, command, Packets(NumberPieces(s.out, Split(cfg.lz, command))))
  {
    var pieces := Split(cfg.lz, command);
    var packets := NumberPieces(s.out, pieces);
    NextPackets(s.out, s.sent, cfg.first, pieces, packets);
    assert Carries(cfg.lz, command, Packets(packets));
    var s' := s.(commands := s.commands + [command], sent := s.sent + Packets(packets),
                 out := Forward(s.out, |packets|), outstanding := FileAll(s.outstanding, packets));
    FilingKeepsTransport(cfg, s, s', packets);
  }

  lemma {:induction false} FilingKeepsTransport(cfg: Config, s: State, s': State, packets: seq<OutUdpPacket>)
    requires TransportInv(cfg, s) && cfg.first + |s.sent| + |packets| + 0x2_0000 < 0x1_0000_0000_0000
    requires forall k :: 0 <= k < |packets| ==> packets[k].Key() == KeyOf(cfg.first + |s.sent| + k)
    requires s'.out.Full() == cfg.first + |s.sent| + |packets| && s'.sent == s.sent + Packets(packets)
    requires Numbered(s'.sent, cfg.first)
    requires s'.outstanding == FileAll(s.outstanding, packets)
    requires s'.channel == s.channel && s'.acks == s.acks && s'.wire == s.wire
    ensures TransportInv(cfg, s')
  {
    FilingKeepsSender(cfg, s, s', packets, cfg.first + |s.sent|);
    FollowsLonger(s.sent, Packets(packets), cfg.first, Done(cfg, s), s.channel);
  }

  lemma {:induction false} SubmitKeepsInv(cfg: Config, s: State, command: Packet)
    requires Inv(cfg, s) && Enabled(cfg, s, Submit(command))
    ensures Inv(cfg, Apply(cfg, s, Submit(command)))
  {
    SubmitKeepsTransport(cfg, s, command);
    SubmitKeepsCommands(cfg, s, Apply(cfg, s, Submit(command)), command,
        Packets(NumberPieces(s.out, Split(cfg.lz, command))));
  }

  lemma {:induction false} SubmitKeepsCommands(cfg: Config, s: State, s': State, command: Packet, more: seq<Packet>)
    requires 0 <= Done(cfg, s) <= |s.sent| && CommandInv(cfg, s)
    requires Sendable(cfg.lz, command) && Carries(cfg.lz, command, more)
    requires s'.commands == s.commands + [command] && s'.sent == s.sent + more
    requires s'.channel == s.channel && s'.delivered == s.delivered
    ensures CommandInv(cfg, s')
  {
    CarriesOneMore(cfg.lz, s.commands, s.sent, command, more);
    assert s'.sent[..Done(cfg, s)] == s.sent[..Done(cfg, s)];
  }

  lemma {:induction false} TransmitKeepsInv(cfg: Config, s: State, key: PartialPacketId)
    requires Inv(cfg, s) && Enabled(cfg, s, Transmit(key))
    ensures Inv(cfg, Apply(cfg, s, Transmit(key)))
  {
    TransmitStaysInWindow(cfg, s, key);
    var s' := Apply(cfg, s, Transmit(key));
    SenderSame(cfg, s, s');
  }

  /** The sender's part depends on its own fields and on more acknowledgements being known. */
  lemma {:induction false} SenderSame(cfg: Config, s: State, s': State)
    requires SenderInv(cfg, s)
    requires s'.out == s.out && s'.outstanding == s.outstanding && s'.sent == s.sent && s.acks <= s'.acks
    ensures SenderInv(cfg, s')
  {
    forall key | key in s'.outstanding
      ensures Filed(cfg, s', key)
    {
      assert Filed(cfg, s, key);
    }
    forall k | 0 <= k < |s'.sent|
      ensures Kept(cfg, s', k)
    {
      assert Kept(cfg, s, k);
    }
  }

  // ----- Deliver

  /** What remains of the stream can be reassembled. */
  lemma {:induction false} RemainderFeeds(cfg: Config, s: State)
    requires cfg.lz.Inverse() && 0 <= Done(cfg, s) <= |s.sent| && CommandInv(cfg, s)
    ensures FeedSeq(cfg.lz, s.channel.buffer, s.sent[Done(cfg, s)..]).error.None?
  {
    var a, b := s.sent[..Done(cfg, s)], s.sent[Done(cfg, s)..];
    assert s.sent == a + b;
    ReassembleAll(cfg.lz, s.commands, s.sent);
    FeedConcat(cfg.lz, None, a, b);
  }

  lemma {:induction false} DeliverKeepsInv(cfg: Config, s: State, k: nat)
    requires cfg.lz.Inverse() && Inv(cfg, s) && Enabled(cfg, s, Deliver(k))
    ensures Inv(cfg, Apply(cfg, s, Deliver(k)))
  {
    RemainderFeeds(cfg, s);
    ReceptionKeepsInv(cfg, s, k, Receive(cfg.lz, s.channel, s.sent[k], Nth(cfg.first + k).generation),
                      Apply(cfg, s, Deliver(k)));
  }

  lemma {:induction false} ReceptionKeepsInv(cfg: Config, s: State, k: nat, r: Reception, s': State)
    requires Inv(cfg, s) && k in s.wire && k < |s.sent|
    requires k == Done(cfg, s) ==> InOrder(s.sent, s.channel.queue, cfg.first, k)
    requires FeedSeq(cfg.lz, s.channel.buffer, s.sent[Done(cfg, s)..]).error.None?
    requires r == Receive(cfg.lz, s.channel, s.sent[k], Nth(cfg.first + k).generation)
    requires s' == s.(channel := r.channel, delivered := s.delivered + r.delivered,
                      acks := if r.acked then s.acks + {k} else s.acks)
    ensures Inv(cfg, s')
  {
    ReceiveProgress(cfg.lz, s.sent, cfg.first, Done(cfg, s), s.channel, k, r, Done(cfg, s'));
    ProgressKeepsInv(cfg, s, k, r.delivered, s');
  }

  lemma {:induction false} ProgressKeepsInv(cfg: Config, s: State, k: nat, outs: seq<Packet>, s': State)
    requires SenderInv(cfg, s) && OrderInv(cfg, s) && WireInv(cfg, s) && CommandInv(cfg, s) && k < |s.sent|
    requires s'.out == s.out && s'.outstanding == s.outstanding && s'.sent == s.sent && s'.wire == s.wire
    requires s'.commands == s.commands && s'.delivered == s.delivered + outs && s.acks <= s'.acks <= s.acks + {k}
    requires Done(cfg, s) <= Done(cfg, s')
    requires Progress(cfg.lz, s.sent, cfg.first, Done(cfg, s), s.channel, Done(cfg, s'), s'.channel, outs)
    requires s'.acks != s.acks ==> Received(s.sent, Done(cfg, s'), s'.channel, k)
    ensures Inv(cfg, s')
  {
    SenderSame(cfg, s, s');
    AllReceivedStay(s.sent, cfg.first, Done(cfg, s), s.channel, Done(cfg, s'), s'.channel);
    ProgressKeepsWire(cfg, s, s', k);
    ProgressKeepsCommands(cfg, s, s', outs);
  }

  lemma {:induction false} AllReceivedStay(
      sent: seq<Packet>, first: nat, done: nat, c: Channel, done': nat, c': Channel)
    requires Numbered(sent, first) && first + |sent| < 0x1_0000_0000_0000 && done <= done' <= |sent|
    requires multiset(c.queue) <= multiset(if done < done' then sent[done + 1..done'] else []) + multiset(c'.queue)
    ensures forall j :: 0 <= j < |sent| && Received(sent, done, c, j) ==> Received(sent, done', c', j)
  {
    forall j | 0 <= j < |sent| && Received(sent, done, c, j)
      ensures Received(sent, done', c', j)
    {
      ReceivedStays(sent, first, done, c, done', c', j);
    }
  }

  lemma {:induction false} ProgressKeepsWire(cfg: Config, s: State, s': State, k: nat)
    requires 0 <= Done(cfg, s) <= Done(cfg, s') && WireInv(cfg, s) && s'.sent == s.sent && s'.wire == s.wire
    requires forall j :: 0 <= j < |s.sent| && Received(s.sent, Done(cfg, s), s.channel, j) ==>
             Received(s.sent, Done(cfg, s'), s'.channel, j)
    requires k < |s.sent| && s'.acks <= s.acks + {k} &&
             (s'.acks != s.acks ==> Received(s.sent, Done(cfg, s'), s'.channel, k))
    ensures WireInv(cfg, s')
  {
    forall j | j in s'.acks
      ensures j < |s'.sent| && Received(s'.sent, Done(cfg, s'), s'.channel, j)
    {
    }
  }

  lemma {:induction false} ProgressKeepsCommands(cfg: Config, s: State, s': State, outs: seq<Packet>)
    requires 0 <= Done(cfg, s) <= Done(cfg, s') <= |s.sent| && CommandInv(cfg, s)
    requires s'.sent == s.sent && s'.commands == s.commands && s'.delivered == s.delivered + outs
    requires FeedSeq(cfg.lz, s.channel.buffer, s.sent[Done(cfg, s)..Done(cfg, s')]) ==
             FedAll(s'.channel.buffer, outs, Done(cfg, s') - Done(cfg, s), None)
    ensures CommandInv(cfg, s')
  {
    FeedStretch(cfg.lz, s.sent, Done(cfg, s), Done(cfg, s'), s.channel.buffer, s.delivered, s'.channel.buffer, outs);
  }

  /** What was fed so far and what is fed next make up what was fed then. */
  lemma {:induction false} FeedStretch(
      lz: QuickLz, sent: seq<Packet>, done: nat, done': nat, buffer: Option<Packet>, delivered: seq<Packet>,
      buffer': Option<Packet>, outs: seq<Packet>)
    requires done <= done' <= |sent|
    requires FeedSeq(lz, None, sent[..done]) == FedAll(buffer, delivered, done, None)
    requires FeedSeq(lz, buffer, sent[done..done']) == FedAll(buffer', outs, done' - done, None)
    ensures FeedSeq(lz, None, sent[..done']) == FedAll(buffer', delivered + outs, done', None)
  {
    var all := sent[..done'];
    assert all[..done] == sent[..done] && all[done..] == sent[done..done'];
    FeedSplit(lz, None, all, done, FeedSeq(lz, None, sent[..done]), FeedSeq(lz, None, all));
  }

  // ----- Acknowledge

  /** The record named is the one with the 16-bit id that lies within a cycle of the first. */
  lemma {:induction false} TargetIs(first: PartialPacketId, key: PartialPacketId, id: u16)
    requires first.AtMost(key) && key.packet == id
    ensures AckTarget(first, id) == key <==> key.Full() < first.Full() + 0x1_0000
  {
    WrapOnce(first.generation + 1, 0x1_0000_0000);
  }

  lemma {:induction false} IsRemoved(
    keys: set<PartialPacketId>, out: PartialPacketId, id: u16, first: PartialPacketId, key: PartialPacketId)
    requires keys != {} && first == First(keys) && key in keys
    ensures key in Ack(keys, out, id).removed <==> key.packet == id && key.Full() < first.Full() + 0x1_0000
  {
    if key.packet == id {
      TargetIs(first, key, id);
    }
  }

  /** An acknowledgement removes the record of its own packet or none, exactly when no other record
      within a cycle of the first one has the same 16-bit id. */
  lemma {:induction false} AckRemovesOnlyOwnExactly(keys: set<PartialPacketId>, out: PartialPacketId, f: nat)
    ensures Ack(keys, out, Nth(f).packet).removed <= {KeyOf(f)} <==> !Ambiguous(keys, f)
  {
    var removed := Ack(keys, out, Nth(f).packet).removed;
    if keys != {} {
      assert removed <= keys;
      forall key | key in keys
        ensures key in removed && key != KeyOf(f) <==> IsForeign(First(keys), key, f)
      {
        IsRemoved(keys, out, Nth(f).packet, First(keys), key);
      }
    }
  }

  /** When an acknowledgement that names another record arrives before that packet does, the packet
      is lost. */
  lemma {:induction false} AmbiguousAckLoses(cfg: Config, s: State, k: nat, j: nat, s': State)
    requires TransportInv(cfg, s) && s.outstanding.Keys != {} && j < |s.sent|
    requires KeyOf(cfg.first + j) in s.outstanding && !Received(s.sent, Done(cfg, s), s.channel, j)
    requires IsForeign(First(s.outstanding.Keys), KeyOf(cfg.first + j), cfg.first + k)
    requires s' == s.(outstanding := s.outstanding - Ack(s.outstanding.Keys, s.out, Nth(cfg.first + k).packet).removed)
    ensures KeyOf(cfg.first + j) !in s'.outstanding && !Received(s'.sent, Done(cfg, s'), s'.channel, j)
  {
    TargetIs(First(s.outstanding.Keys), KeyOf(cfg.first + j), Nth(cfg.first + k).packet);
  }

  /** For example, when the acknowledgement of packet 5 comes back after a cycle of ids. */
  lemma {:induction false} LateAckIsAmbiguous(keys: set<PartialPacketId>)
    requires keys == {PartialPacketId(1, 5)}
    ensures Ambiguous(keys, 5)
  {
    assert NumberOf(PartialPacketId(0, 5)) == 5;
    NumberInjective(PartialPacketId(0, 5), KeyOf(5));
    assert IsForeign(First(keys), PartialPacketId(1, 5), 5);
  }

  lemma {:induction false} AcknowledgeKeepsInv(cfg: Config, s: State, k: nat, removed: set<PartialPacketId>, s': State)
    requires Inv(cfg, s) && k in s.acks && removed <= {KeyOf(cfg.first + k)}
    requires s' == s.(outstanding := s.outstanding - removed)
    ensures Inv(cfg, s')
  {
    RemovalKeepsSender(cfg, s, k, removed, s');
    ReceiverSame(cfg, s, s');
  }

  /** The rest of the invariant does not look at the records. */
  lemma {:induction false} ReceiverSame(cfg: Config, s: State, s': State)
    requires OrderInv(cfg, s) && WireInv(cfg, s) && 0 <= Done(cfg, s) <= |s.sent| && CommandInv(cfg, s)
    requires s'.channel == s.channel && s'.commands == s.commands && s'.delivered == s.delivered
    requires s'.sent == s.sent && s'.wire == s.wire && s'.acks == s.acks
    ensures OrderInv(cfg, s') && WireInv(cfg, s') && CommandInv(cfg, s')
  {
  }

  lemma {:induction false} RemovalKeepsSender(cfg: Config, s: State, k: nat, removed: set<PartialPacketId>, s': State)
    requires SenderInv(cfg, s) && k in s.acks && k < |s.sent| && cfg.first + |s.sent| < 0x1_0000_0000_0000 - 1
    requires removed <= {KeyOf(cfg.first + k)} && s' == s.(outstanding := s.outstanding - removed)
    ensures SenderInv(cfg, s')
  {
    forall key | key in s'.outstanding
      ensures Filed(cfg, s', key)
    {
      assert Filed(cfg, s, key);
    }
    forall j | 0 <= j < |s'.sent|
      ensures Kept(cfg, s', j)
    {
      assert Kept(cfg, s, j);
    }
  }

  // ----- Runs

  lemma {:induction false} StepKeepsInv(cfg: Config, s: State, step: Step)
    requires cfg.lz.Inverse() && Inv(cfg, s) && Enabled(cfg, s, step)
    ensures Inv(cfg, Apply(cfg, s, step))
  {
    match step
    case Submit(command) => SubmitKeepsInv(cfg, s, command);
    case Transmit(key) => TransmitKeepsInv(cfg, s, key);
    case Deliver(k) => DeliverKeepsInv(cfg, s, k);
    case Acknowledge(k) =>
      var removed := Ack(s.outstanding.Keys, s.out, Nth(cfg.first + k).packet).removed;
      AckRemovesOnlyOwnExactly(s.outstanding.Keys, s.out, cfg.first + k);
      AcknowledgeKeepsInv(cfg, s, k, removed, Apply(cfg, s, step));
  }

  ghost predicate IsStep(cfg: Config, states: seq<State>, steps: seq<Step>, k: nat)
    requires k < |steps| && k + 1 < |states|
  {
    Enabled(cfg, states[k], steps[k]) && states[k + 1] == Apply(cfg, states[k], steps[k])
  }

  /** A run of the protocol, from the initial state to `s`. */
  ghost predicate Reached(cfg: Config, states: seq<State>, steps: seq<Step>, s: State) {
    && cfg.lz.Inverse() && |states| == |steps| + 1
    && states[0] == Init(cfg) && states[|steps|] == s
    && forall k :: 0 <= k < |steps| ==> IsStep(cfg, states, steps, k)
  }

  lemma {:induction false} FirstInv(cfg: Config, states: seq<State>, steps: seq<Step>, s: State)
    requires Reached(cfg, states, steps, s)
    ensures Inv(cfg, states[0])
  {
    InitInv(cfg);
  }

  lemma {:induction false} NextInv(
      cfg: Config, states: seq<State>, steps: seq<Step>, s: State, k: nat, before: State, after: State)
    requires Reached(cfg, states, steps, s) && k < |steps| && before == states[k] && after == states[k + 1]
    requires Inv(cfg, before)
    ensures Inv(cfg, after)
  {
    assert IsStep(cfg, states, steps, k);
    StepKeepsInv(cfg, before, steps[k]);
  }

  lemma {:induction false} RunKeepsInv(
      cfg: Config, states: seq<State>, steps: seq<Step>, s: State, k: nat, at: State)
    requires Reached(cfg, states, steps, s) && k <= |steps| && at == states[k]
    ensures Inv(cfg, at)
    decreases k
  {
    if k == 0 {
      FirstInv(cfg, states, steps, s);
    } else {
      var before := states[k - 1];
      RunKeepsInv(cfg, states, steps, s, k - 1, before);
      NextInv(cfg, states, steps, s, k - 1, before, at);
    }
  }

  lemma {:induction false} ReachedInv(cfg: Config, states: seq<State>, steps: seq<Step>, s: State)
    requires Reached(cfg, states, steps, s)
    ensures cfg.lz.Inverse() && Inv(cfg, s)
  {
    RunKeepsInv(cfg, states, steps, s, |steps|, s);
  }

  lemma {:induction false} KeptOrReceived(cfg: Config, s: State, k: nat)
    requires SenderInv(cfg, s) && OrderInv(cfg, s) && WireInv(cfg, s) && k < |s.sent|
    ensures KeyOf(cfg.first + k) in s.outstanding || Received(s.sent, Done(cfg, s), s.channel, k)
  {
    assert Kept(cfg, s, k);
  }

  /** In every run, a packet that was ever sent still has its record at the sender, has been
      consumed by the receiver, or waits in its queue. */
  lemma {:induction false} NothingIsLost(cfg: Config, states: seq<State>, steps: seq<Step>, s: State, k: nat)
    requires Reached(cfg, states, steps, s) && k < |s.sent|
    ensures Done(cfg, s) >= 0
    ensures KeyOf(cfg.first + k) in s.outstanding || Received(s.sent, Done(cfg, s), s.channel, k)
  {
    ReachedInv(cfg, states, steps, s);
    KeptOrReceived(cfg, s, k);
  }

  /** In every run the delivered commands are a prefix of the submitted ones: in order, without
      gaps, duplicates or changes. */
  lemma {:induction false} DeliveredInOrder(cfg: Config, states: seq<State>, steps: seq<Step>, s: State)
    requires Reached(cfg, states, steps, s)
    ensures Contents(s.delivered) <= Contents(s.commands)
  {
    ReachedInv(cfg, states, steps, s);
    PrefixDelivered(cfg.lz, s.commands, s.sent, Done(cfg, s));
  }

  ghost predicate Outstanding(cfg: Config, s: State, k: nat) {
    KeyOf(cfg.first + k) in s.outstanding
  }

  /** If the first `n` packets are acknowledged, the receiver has consumed them all. */
  lemma {:induction false} AckedMeansConsumed(cfg: Config, s: State, n: nat)
    requires TransportInv(cfg, s) && n <= |s.sent|
    requires forall k :: 0 <= k < n ==> !Outstanding(cfg, s, k)
    ensures Done(cfg, s) >= n
  {
    var done := Done(cfg, s);
    assert done < n ==> !Outstanding(cfg, s, done);
    if done < n {
      NextIsOutstanding(cfg, s);
    }
  }

  /** A receiver that has consumed every packet has delivered every command; what still waits are
      copies. */
  lemma {:induction false} ConsumedMeansDelivered(cfg: Config, s: State)
    requires cfg.lz.Inverse() && OrderInv(cfg, s) && Done(cfg, s) >= |s.sent| && CommandInv(cfg, s)
    ensures Contents(s.delivered) == Contents(s.commands) && s.channel.buffer == None
    ensures forall p :: p in s.channel.queue ==> p in s.sent
  {
    NextIsNotQueued(s.sent, cfg.first, Done(cfg, s), s.channel);
    assert s.sent[..|s.sent|] == s.sent;
    ReassembleAll(cfg.lz, s.commands, s.sent);
  }

  /** When the sender has no record left, everything it was given has been delivered. */
  lemma {:induction false} NothingOutstandingMeansAllDelivered(
    cfg: Config, states: seq<State>, steps: seq<Step>, s: State)
    requires Reached(cfg, states, steps, s) && s.outstanding == map[]
    ensures Contents(s.delivered) == Contents(s.commands) && s.channel.buffer == None
    ensures forall p :: p in s.channel.queue ==> p in s.sent
  {
    ReachedInv(cfg, states, steps, s);
    AckedMeansConsumed(cfg, s, |s.sent|);
    ConsumedMeansDelivered(cfg, s);
  }

  // ----- Arrival

  /** Packet `k` has reached the receiver. */
  ghost predicate Has(cfg: Config, s: State, k: nat) {
    k < |s.sent| && Done(cfg, s) >= 0 && Received(s.sent, Done(cfg, s), s.channel, k)
  }

  /** Step `j` brings packet `k` to a receiver that waits for one less than 200 before it, or for a
      later one. */
  ghost predicate ArrivesInTime(cfg: Config, states: seq<State>, steps: seq<Step>, j: nat, k: nat) {
    j < |steps| && j < |states| && steps[j] == Deliver(k) && k < Done(cfg, states[j]) + MAX_QUEUE_LEN
  }

  /** The receiver has gone on, holds packet `k` if it is near, and has lost none that it held. */
  ghost predicate GoesOn(cfg: Config, s: State, k: nat, s': State) {
    && 0 <= Done(cfg, s) <= Done(cfg, s') <= |s.sent| && s'.sent == s.sent
    && (k < Done(cfg, s) + MAX_QUEUE_LEN ==> Has(cfg, s', k))
    && multiset(s.channel.queue) <=
       multiset(if Done(cfg, s) < Done(cfg, s') then s.sent[Done(cfg, s) + 1..Done(cfg, s')] else []) +
       multiset(s'.channel.queue)
  }

  lemma {:induction false} ReceptionStep(cfg: Config, s: State, k: nat, r: Reception, s': State)
    requires OrderInv(cfg, s) && k < |s.sent| && k < Done(cfg, s) + 32767
    requires k == Done(cfg, s) ==> InOrder(s.sent, s.channel.queue, cfg.first, k)
    requires FeedSeq(cfg.lz, s.channel.buffer, s.sent[Done(cfg, s)..]).error.None?
    requires r == Receive(cfg.lz, s.channel, s.sent[k], Nth(cfg.first + k).generation)
    requires s'.channel == r.channel && s'.sent == s.sent
    ensures GoesOn(cfg, s, k, s')
  {
    ReceiveProgress(cfg.lz, s.sent, cfg.first, Done(cfg, s), s.channel, k, r, Done(cfg, s'));
  }

  lemma {:induction false} DeliverStep(cfg: Config, s: State, k: nat, s': State)
    requires cfg.lz.Inverse() && Inv(cfg, s) && Enabled(cfg, s, Deliver(k)) && s' == Apply(cfg, s, Deliver(k))
    ensures GoesOn(cfg, s, k, s')
  {
    assert FeedSeq(cfg.lz, s.channel.buffer, s.sent[Done(cfg, s)..]).error.None? by {
      RemainderFeeds(cfg, s);
    }
    ReceptionStep(cfg, s, k, Receive(cfg.lz, s.channel, s.sent[k], Nth(cfg.first + k).generation), s');
  }

  lemma {:induction false} ProgressKeepsReceived(cfg: Config, s: State, s': State, j: nat)
    requires Numbered(s.sent, cfg.first) && cfg.first + |s.sent| < 0x1_0000_0000_0000 && Has(cfg, s, j)
    requires Done(cfg, s) <= Done(cfg, s') <= |s.sent| && s'.sent == s.sent
    requires multiset(s.channel.queue) <=
             multiset(if Done(cfg, s) < Done(cfg, s') then s.sent[Done(cfg, s) + 1..Done(cfg, s')] else []) +
             multiset(s'.channel.queue)
    ensures Has(cfg, s', j)
  {
    ReceivedStays(s.sent, cfg.first, Done(cfg, s), s.channel, Done(cfg, s'), s'.channel, j);
  }

  /** What the receiver has it keeps. */
  lemma {:induction false} StepKeepsReceived(cfg: Config, s: State, step: Step, s': State, j: nat)
    requires cfg.lz.Inverse() && Inv(cfg, s) && Enabled(cfg, s, step) && s' == Apply(cfg, s, step) && Has(cfg, s, j)
    ensures Has(cfg, s', j)
  {
    match step
    case Deliver(k) =>
      DeliverStep(cfg, s, k, s');
      ProgressKeepsReceived(cfg, s, s', j);
    case Submit(_) =>
    case Transmit(_) =>
    case Acknowledge(_) =>
  }

  lemma {:induction false} OneStepKeepsReceived(
    cfg: Config, states: seq<State>, steps: seq<Step>, s: State, i: nat, k: nat)
    requires Reached(cfg, states, steps, s) && i < |steps| && Has(cfg, states[i], k)
    ensures Has(cfg, states[i + 1], k)
  {
    RunKeepsInv(cfg, states, steps, s, i, states[i]);
    assert IsStep(cfg, states, steps, i);
    StepKeepsReceived(cfg, states[i], steps[i], states[i + 1], k);
  }

  lemma {:induction false} StaysReceived(
    cfg: Config, states: seq<State>, steps: seq<Step>, s: State, i: nat, k: nat)
    requires Reached(cfg, states, steps, s) && i <= |steps| && Has(cfg, states[i], k)
    ensures Has(cfg, s, k)
    decreases |steps| - i
  {
    if i < |steps| {
      OneStepKeepsReceived(cfg, states, steps, s, i, k);
      StaysReceived(cfg, states, steps, s, i + 1, k);
    }
  }

  lemma {:induction false} ArrivalReceives(
    cfg: Config, states: seq<State>, steps: seq<Step>, s: State, j: nat, k: nat)
    requires Reached(cfg, states, steps, s) && ArrivesInTime(cfg, states, steps, j, k)
    ensures Has(cfg, s, k)
  {
    RunKeepsInv(cfg, states, steps, s, j, states[j]);
    assert IsStep(cfg, states, steps, j);
    DeliverStep(cfg, states[j], k, states[j + 1]);
    StaysReceived(cfg, states, steps, s, j + 1, k);
  }

  lemma {:induction false} ReceivedMeansConsumed(cfg: Config, s: State)
    requires OrderInv(cfg, s) && forall k :: 0 <= k < |s.sent| ==> Has(cfg, s, k)
    ensures Done(cfg, s) >= |s.sent|
  {
    var done := Done(cfg, s);
    NextIsNotQueued(s.sent, cfg.first, done, s.channel);
    assert done < |s.sent| ==> Has(cfg, s, done);
  }

  ghost predicate Arrived(cfg: Config, states: seq<State>, steps: seq<Step>, k: nat) {
    exists j: nat :: ArrivesInTime(cfg, states, steps, j, k)
  }

  lemma {:induction false} ArrivedMeansReceived(
    cfg: Config, states: seq<State>, steps: seq<Step>, s: State, k: nat)
    requires Reached(cfg, states, steps, s) && Arrived(cfg, states, steps, k)
    ensures Has(cfg, s, k)
  {
    var j: nat :| ArrivesInTime(cfg, states, steps, j, k);
    ArrivalReceives(cfg, states, steps, s, j, k);
  }

  lemma {:induction false} AllReceivedMeansDelivered(cfg: Config, s: State)
    requires cfg.lz.Inverse() && OrderInv(cfg, s) && CommandInv(cfg, s)
    requires forall k :: 0 <= k < |s.sent| ==> Has(cfg, s, k)
    ensures Contents(s.delivered) == Contents(s.commands)
  {
    ReceivedMeansConsumed(cfg, s);
    ConsumedMeansDelivered(cfg, s);
  }

  /** In every run: when every packet has arrived once while the receiver waited for one less than
      200 before it, or for a later one, in whatever order and however often, every command has
      been delivered. */
  lemma {:induction false} AllArrivedMeansAllDelivered(
    cfg: Config, states: seq<State>, steps: seq<Step>, s: State)
    requires Reached(cfg, states, steps, s)
    requires forall k :: 0 <= k < |s.sent| ==> Arrived(cfg, states, steps, k)
    ensures Contents(s.delivered) == Contents(s.commands)
  {
    forall k | 0 <= k < |s.sent|
      ensures Has(cfg, s, k)
    {
      ArrivedMeansReceived(cfg, states, steps, s, k);
    }
    ReachedInv(cfg, states, steps, s);
    AllReceivedMeansDelivered(cfg, s);
  }
}

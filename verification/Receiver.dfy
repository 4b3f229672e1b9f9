/** In-order delivery of command packets: the reorder queue in front of reassembly. */
module Receiver {
  import opened PacketIds
  import opened Wrappers
  import opened Fragments

  /** The first queued packet with this id at or after `from`, or the queue's length. */
  function FindFrom(q: seq<Packet>, id: u16, from: nat): (r: nat)
    requires from <= |q|
    ensures from <= r <= |q| && (r < |q| ==> q[r].id == id) && forall i :: from <= i < r ==> q[i].id != id
    decreases |q| - from
  {
    if from == |q| || q[from].id == id then from else FindFrom(q, id, from + 1)
  }

  function Find(q: seq<Packet>, id: u16): (r: nat)
    ensures r <= |q| && (r < |q| ==> q[r].id == id) && forall i :: 0 <= i < r ==> q[i].id != id
  {
    FindFrom(q, id, 0)
  }

  function Without<T>(q: seq<T>, i: nat): (r: seq<T>)
    requires i < |q|
    ensures |r| == |q| - 1 && forall j :: 0 <= j < |r| ==> r[j] == q[if j < i then j else j + 1]
  {
    q[..i] + q[i + 1..]
  }

  function Succ(id: u16): u16 {
    WrapAdd(id, 1)
  }

  /** The receiving state for one of the two command packet types. */
  datatype Channel = Channel(next: PartialPacketId, queue: seq<Packet>, buffer: Option<Packet>)

  function Earlier(outs: seq<Packet>, r: (Channel, Result<seq<Packet>, Error>)): (Channel, Result<seq<Packet>, Error>) {
    (r.0, match r.1 case Success(more) => Success(outs + more) case Failure(e) => Failure(e))
  }

  /** An expected packet is fed to reassembly, and then its queued successor, if there is one;
      a packet ahead of its turn is queued. An error loses what was finished before it. */
  function Handle(lz: QuickLz, c: Channel, p: Packet): (Channel, Result<seq<Packet>, Error>)
    decreases |c.queue|
  {
    if p.id == c.next.packet then
      var fed := Feed(lz, c.buffer, p);
      var i := Find(c.queue, Succ(p.id));
      if fed.out.Failure? then
        (Channel(c.next.Add(1), c.queue, fed.buffer), Failure(fed.out.error))
      else if i == |c.queue| then
        (Channel(c.next.Add(1), c.queue, fed.buffer), Success(ToSeq(fed.out.value)))
      else
        Earlier(ToSeq(fed.out.value), Handle(lz, Channel(c.next.Add(1), Without(c.queue, i), fed.buffer), c.queue[i]))
    else if Ahead(c.next.packet, p.id) < MAX_QUEUE_LEN then
      (c.(queue := c.queue + [p]), Success([]))
    else
      (c, Failure(CommandQueueFull))
  }

  /** What an arriving packet leads to: the new state, finished commands, an ack, an error. */
  datatype Reception = Reception(channel: Channel, delivered: seq<Packet>, acked: bool, error: Option<Error>)

  /** A command packet outside the window is acknowledged again; inside it has to decrypt,
      which needs the generation it was encrypted for, and is acknowledged when handled. */
  function Receive(lz: QuickLz, c: Channel, p: Packet, encryptedFor: u32): Reception {
    var w := InReceiveWindow(c.next, p.id);
    if !w.accepted then Reception(c, [], true, None)
    else if w.generation != encryptedFor then Reception(c, [], false, None)
    else
      var (c', r) := Handle(lz, c, p);
      match r
      case Success(outs) => Reception(c', outs, true, None)
      case Failure(e) => Reception(c', [], false, Some(e))
  }

  lemma {:induction false} EarlierComposes(a: seq<Packet>, b: seq<Packet>, r: (Channel, Result<seq<Packet>, Error>))
    ensures Earlier([], r) == r
    ensures Earlier(a, Earlier(b, r)) == Earlier(a + b, r)
  {
    if r.1.Success? {
      assert [] + r.1.value == r.1.value;
      assert a + (b + r.1.value) == (a + b) + r.1.value;
    }
  }

  class CommandReceiver {
    const lz: QuickLz
    var next: PartialPacketId
    var queue: seq<Packet>
    var buffer: Option<Packet>

    ghost function State(): Channel
      reads this
    {
      Channel(next, queue, buffer)
    }

    constructor (lz: QuickLz, first: u16)
      ensures this.lz == lz && State() == Channel(PartialPacketId(0, first), [], None)
    {
      this.lz := lz;
      next, queue, buffer := PartialPacketId(0, first), [], None;
    }

    method HandleCommandPacket(p: Packet) returns (r: Result<seq<Packet>, Error>)
      modifies this
      ensures (State(), r) == Handle(lz, old(State()), p)
    {
      if next.packet != p.id {
        var limit := (next.packet + MAX_QUEUE_LEN) % 0x1_0000;
        var nextGen := next.packet + MAX_QUEUE_LEN >= 0x1_0000;
        if (!nextGen && next.packet <= p.id < limit) || (nextGen && (p.id >= next.packet || p.id < limit)) {
          queue := queue + [p];
          return Success([]);
        } else {
          return Failure(CommandQueueFull);
        }
      }
      var packet, packets := p, [];
      EarlierComposes([], [], Handle(lz, State(), p));
      while true
        invariant packet.id == next.packet
        invariant Handle(lz, old(State()), p) == Earlier(packets, Handle(lz, State(), packet))
        decreases |queue|
      {
        ghost var before := packets;
        next := next.Add(1);
        var fed := Feed(lz, buffer, packet);
        buffer := fed.buffer;
        if fed.out.Failure? {
          return Failure(fed.out.error);
        }
        packets := packets + ToSeq(fed.out.value);
        var id := Succ(packet.id);
        var pos := Find(queue, id);
        if pos == |queue| {
          return Success(packets);
        }
        packet := queue[pos];
        queue := Without(queue, pos);
        EarlierComposes(before, ToSeq(fed.out.value), Handle(lz, State(), packet));
      }
    }
  }
}

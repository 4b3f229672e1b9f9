/** Splitting command packets for the wire and putting them together again. */
module Fragments {
  import opened PacketIds
  import opened Wrappers

  datatype Flag = Unencrypted | Compressed | NewProtocol | Fragmented

  /** A packet without its mac and client id, which splitting and reassembly only copy. */
  datatype Packet = Packet(dir: Direction, id: u16, flags: set<Flag>, content: seq<byte>) {
    function HeaderLen(): nat {
      if dir == S2C then 11 else 13
    }

    function Len(): nat {
      HeaderLen() + |content|
    }

    /** Content bytes that fit into one packet of 500 bytes. */
    function Room(): nat
      ensures 0 < Room() == 500 - HeaderLen()
    {
      500 - HeaderLen()
    }
  }

  const MAX_FRAGMENTS_LENGTH := 40960

  const MAX_DECOMPRESSED_SIZE := 2 * 1024 * 1024

  /** The compressor, as two functions; `decompress` already knows the size limit. */
  datatype QuickLz = QuickLz(compress: seq<byte> -> seq<byte>, decompress: seq<byte> -> Option<seq<byte>>) {
    ghost predicate Inverse() {
      forall x :: |x| <= MAX_DECOMPRESSED_SIZE ==> decompress(compress(x)) == Some(x)
    }
  }

  // ----- Splitting

  function Contents(ps: seq<Packet>): seq<seq<byte>> {
    seq(|ps|, i requires 0 <= i < |ps| => ps[i].content)
  }

  predicate UsesCompression(lz: QuickLz, p: Packet) {
    |p.content| > p.Room() && |lz.compress(p.content)| <= |p.content|
  }

  function Payload(lz: QuickLz, p: Packet): seq<byte> {
    if UsesCompression(lz, p) then lz.compress(p.content) else p.content
  }

  function Chunks(data: seq<byte>, size: nat): (r: seq<seq<byte>>)
    requires size > 0
    ensures r != []
    decreases |data|
  {
    if |data| <= size then [data] else [data[..size]] + Chunks(data[size..], size)
  }

  function Concat(chunks: seq<seq<byte>>): seq<byte> {
    if chunks == [] then [] else chunks[0] + Concat(chunks[1..])
  }

  /** The flags of piece `i` of `count`. */
  function PieceFlags(compressed: bool, flags: set<Flag>, i: nat, count: nat): set<Flag> {
    flags + (if i == 0 && compressed then {Compressed} else {})
    + (if count > 1 && (i == 0 || i == count - 1) then {Fragmented} else {})
  }

  /** The packets that carry `p`: the chunks of its payload, under copies of its header. */
  function Split(lz: QuickLz, p: Packet): (r: seq<Packet>) {
    var chunks := Chunks(Payload(lz, p), p.Room());
    seq(|chunks|, i requires 0 <= i < |chunks| =>
      p.(flags := PieceFlags(UsesCompression(lz, p), p.flags, i, |chunks|), content := chunks[i]))
  }

  method SplitData(data: seq<byte>, size: nat) returns (datas: seq<seq<byte>>)
    requires size > 0
    ensures datas == Chunks(data, size)
  {
    datas := [];
    var left := data;
    while |left| > size
      invariant datas + Chunks(left, size) == Chunks(data, size)
    {
      datas := datas + [left[..size]];
      left := left[size..];
    }
    datas := datas + [left];
  }

  method CompressAndSplit(lz: QuickLz, packet: Packet) returns (packets: seq<Packet>)
    ensures packets == Split(lz, packet)
  {
    var maxSize := 500 - packet.HeaderLen();
    if |packet.content| <= maxSize {
      packets := [packet];
      assert packet == packet.(flags := PieceFlags(false, packet.flags, 0, 1), content := packet.content);
      return;
    }
    var cdata := lz.compress(packet.content);
    var compressed := |cdata| <= |packet.content|;
    var datas := SplitData(if compressed then cdata else packet.content, maxSize);
    packets := [];
    for i := 0 to |datas|
      invariant |packets| == i
      invariant forall j :: 0 <= j < i ==>
        packets[j] == packet.(flags := PieceFlags(compressed, packet.flags, j, |datas|), content := datas[j])
    {
      var flags := packet.flags;
      if i == 0 && compressed {
        flags := flags + {Compressed};
      }
      if |datas| > 1 && (i == 0 || i == |datas| - 1) {
        flags := flags + {Fragmented};
      }
      packets := packets + [packet.(flags := flags, content := datas[i])];
    }
  }

  lemma {:induction false} CeilStep(n: nat, size: nat)
    requires 0 < size < n
    ensures (n + size - 1) / size == (n - size + size - 1) / size + 1
    ensures (n - size + size - 1) / size >= 1
  {
    var m := n - 1;
    DivModUnique(m + size, size, m / size + 1, m % size);
    assert m == m / size * size + m % size;
  }

  lemma {:induction false} CeilOne(n: nat, size: nat)
    requires n <= size && size > 0
    ensures Max(1, (n + size - 1) / size) == 1
  {
    if n == 0 { DivModUnique(size - 1, size, 0, size - 1); } else { DivModUnique(n + size - 1, size, 1, n - 1); }
  }

  lemma {:induction false} ChunksCover(data: seq<byte>, size: nat)
    requires size > 0
    ensures var r := Chunks(data, size);
            && Concat(r) == data
            && |r| == Max(1, (|data| + size - 1) / size)
            && (forall i :: 0 <= i < |r| - 1 ==> |r[i]| == size)
            && |r[|r| - 1]| <= size
    decreases |data|
  {
    var r := Chunks(data, size);
    if |data| <= size {
      CeilOne(|data|, size);
      assert r[1..] == [];
    } else {
      var rest := Chunks(data[size..], size);
      ChunksCover(data[size..], size);
      CeilStep(|data|, size);
      assert r[1..] == rest;
      assert forall i :: 1 <= i < |r| ==> r[i] == rest[i - 1];
    }
  }

  lemma {:induction false} SplitFits(lz: QuickLz, p: Packet, chunks: seq<seq<byte>>, r: seq<Packet>)
    requires chunks == Chunks(Payload(lz, p), p.Room()) && r == Split(lz, p)
    requires forall i :: 0 <= i < |chunks| - 1 ==> |chunks[i]| == p.Room()
    requires |chunks[|chunks| - 1]| <= p.Room()
    ensures forall i :: 0 <= i < |r| ==> r[i].Len() <= 500
    ensures forall i :: 0 <= i < |r| - 1 ==> r[i].Len() == 500
  {
    forall i | 0 <= i < |r|
      ensures r[i].Len() <= 500 && (i < |r| - 1 ==> r[i].Len() == 500)
    {
      assert r[i].dir == p.dir && r[i].content == chunks[i];
    }
  }

  /** Every packet of a split command fits into 500 bytes, there are as many as the payload
      needs, only the last may be short, and together they carry exactly the payload. */
  lemma {:induction false} SplitFitsAndCovers(lz: QuickLz, p: Packet)
    ensures var r := Split(lz, p);
            && (forall i :: 0 <= i < |r| ==> r[i].Len() <= 500)
            && (forall i :: 0 <= i < |r| - 1 ==> r[i].Len() == 500)
            && |r| == Max(1, (|Payload(lz, p)| + p.Room() - 1) / p.Room())
            && Concat(Contents(r)) == Payload(lz, p)
  {
    var chunks, r := Chunks(Payload(lz, p), p.Room()), Split(lz, p);
    ChunksCover(Payload(lz, p), p.Room());
    assert Contents(r) == chunks;
    SplitFits(lz, p, chunks, r);
  }

  /** Content that does not fit into one packet of 500 bytes is sent compressed if and only if that is not longer;
      the shorter form decides how many pieces there are. The first piece says whether it is compressed, the first
      and the last of several are marked, and nothing else changes in the header. */
  lemma {:induction false} SendsTheShorter(lz: QuickLz, p: Packet)
    ensures var r, room, c := Split(lz, p), if p.dir == C2S then 487 else 489, lz.compress(p.content);
            var compressed := |p.content| > room && |c| <= |p.content|;
            && Concat(Contents(r)) == (if compressed then c else p.content)
            && |r| == (if |p.content| <= room then 1 else Max(1, (Min(|c|, |p.content|) + room - 1) / room))
            && (forall i, flag :: 0 <= i < |r| ==>
                  (flag in r[i].flags <==>
                   flag in p.flags || (flag == Compressed && compressed && i == 0) ||
                   (flag == Fragmented && |r| > 1 && (i == 0 || i == |r| - 1))))
            && (forall i :: 0 <= i < |r| ==> r[i].dir == p.dir && r[i].id == p.id)
  {
    SplitFitsAndCovers(lz, p);
    if |p.content| <= p.Room() {
      CeilOne(|p.content|, p.Room());
    }
  }

  // ----- Reassembly

  datatype Error = DecompressPacket | FragmentQueueFull | CommandQueueFull

  /** What one packet does to the fragment buffer: the new buffer and a finished packet or an error. */
  datatype Fed = Fed(buffer: Option<Packet>, out: Result<Option<Packet>, Error>)

  function Decompressed(lz: QuickLz, p: Packet): Result<Option<Packet>, Error> {
    if Compressed in p.flags then
      match lz.decompress(p.content)
      case Some(content) => Success(Some(p.(content := content)))
      case None => Failure(DecompressPacket)
    else
      Success(Some(p))
  }

  function Feed(lz: QuickLz, buffer: Option<Packet>, p: Packet): Fed {
    if Fragmented in p.flags then
      if buffer.Some? then
        Fed(None, Decompressed(lz, buffer.value.(content := buffer.value.content + p.content)))
      else
        Fed(Some(p), Success(None))
    else if buffer.Some? then
      if buffer.value.Len() < MAX_FRAGMENTS_LENGTH then
        Fed(Some(buffer.value.(content := buffer.value.content + p.content)), Success(None))
      else
        Fed(buffer, Failure(FragmentQueueFull))
    else
      Fed(None, Decompressed(lz, p))
  }

  /** A packet completes a command when it is marked behind a first piece, or unmarked without one. It fails if the
      command cannot be decompressed, or if it is a middle piece and the buffer is full. */
  lemma {:induction false} FeedFailsExactly(lz: QuickLz, buffer: Option<Packet>, p: Packet)
    ensures var r, middle := Feed(lz, buffer, p), buffer.Some? && Fragmented !in p.flags;
            var completes := buffer.Some? <==> Fragmented in p.flags;
            var first := if buffer.Some? then buffer.value else p;
            var content := if buffer.Some? then buffer.value.content + p.content else p.content;
            && (r.out == Failure(FragmentQueueFull) <==>
                middle && (if first.dir == C2S then 13 else 11) + |first.content| >= 40960)
            && (r.out == Failure(DecompressPacket) <==>
                completes && Compressed in first.flags && lz.decompress(content) == None)
            && (r.out.Success? && r.out.value.Some? ==> completes && r.buffer == None)
            && (r.out == Success(None) <==> !completes && !r.out.Failure?)
  {
  }

  /** Feeding packets until one fails: the buffer, the finished packets, how many were fed, the error. */
  datatype FedAll = FedAll(buffer: Option<Packet>, outs: seq<Packet>, used: nat, error: Option<Error>)

  function ToSeq<T>(o: Option<T>): seq<T> {
    if o.Some? then [o.value] else []
  }

  function Before(outs: seq<Packet>, used: nat, rest: FedAll): FedAll {
    rest.(outs := outs + rest.outs, used := used + rest.used)
  }

  function FeedSeq(lz: QuickLz, buffer: Option<Packet>, ps: seq<Packet>): (r: FedAll)
    ensures r.used <= |ps| && (ps != [] ==> r.used > 0) && (r.error.None? ==> r.used == |ps|)
    decreases |ps|
  {
    if ps == [] then FedAll(buffer, [], 0, None)
    else
      var fed := Feed(lz, buffer, ps[0]);
      match fed.out
      case Failure(e) => FedAll(fed.buffer, [], 1, Some(e))
      case Success(o) => Before(ToSeq(o), 1, FeedSeq(lz, fed.buffer, ps[1..]))
  }

  lemma {:induction false} FeedConcat(lz: QuickLz, buffer: Option<Packet>, a: seq<Packet>, b: seq<Packet>)
    ensures var fa := FeedSeq(lz, buffer, a);
            FeedSeq(lz, buffer, a + b) ==
            if fa.error.Some? then fa else Before(fa.outs, fa.used, FeedSeq(lz, fa.buffer, b))
    decreases |a|
  {
    if a == [] {
      assert a + b == b;
      BeforeNothing(FeedSeq(lz, buffer, b));
    } else {
      assert (a + b)[0] == a[0] && (a + b)[1..] == a[1..] + b;
      var fed := Feed(lz, buffer, a[0]);
      FeedConcat(lz, fed.buffer, a[1..], b);
      if fed.out.Success? {
        var o, fa := ToSeq(fed.out.value), FeedSeq(lz, fed.buffer, a[1..]);
        BeforeComposes(o, 1, fa.outs, fa.used, FeedSeq(lz, fa.buffer, b));
      }
    }
  }

  /** Feeding packets is feeding the first `n` and then the others. */
  lemma {:induction false} FeedSplit(
      lz: QuickLz, buffer: Option<Packet>, ps: seq<Packet>, n: nat, first: FedAll, whole: FedAll)
    requires n <= |ps| && first == FeedSeq(lz, buffer, ps[..n]) && whole == FeedSeq(lz, buffer, ps)
    ensures whole ==
            if first.error.Some? then first else Before(first.outs, first.used, FeedSeq(lz, first.buffer, ps[n..]))
  {
    assert ps == ps[..n] + ps[n..];
    FeedConcat(lz, buffer, ps[..n], ps[n..]);
  }

  lemma {:induction false} BeforeNothing(r: FedAll)
    ensures Before([], 0, r) == r
  {
    assert [] + r.outs == r.outs;
  }

  lemma {:induction false} BeforeComposes(o: seq<Packet>, m: nat, p: seq<Packet>, n: nat, r: FedAll)
    ensures Before(o, m, Before(p, n, r)) == Before(o + p, m + n, r)
  {
    assert o + (p + r.outs) == o + p + r.outs;
  }

  /** The packets are the pieces of `p`, each under some id of its own. */
  ghost predicate Carries(lz: QuickLz, p: Packet, ps: seq<Packet>) {
    var pieces := Split(lz, p);
    |ps| == |pieces| && forall i :: 0 <= i < |ps| ==> ps[i] == pieces[i].(id := ps[i].id)
  }

  /** The buffer limit lets a command of this many pieces through: it is checked before every
      middle piece, when the buffer holds the header and all earlier pieces. */
  predicate FitsBuffer(p: Packet, pieces: nat) {
    pieces <= 2 || p.HeaderLen() + (pieces - 2) * p.Room() < 40960
  }

  predicate Plain(p: Packet) {
    Compressed !in p.flags && Fragmented !in p.flags
  }

  /** The pieces after the first, fed to a buffer that holds the first ones. */
  lemma {:induction false} FeedRest(lz: QuickLz, p: Packet, buffer: Packet, ps: seq<Packet>, whole: Packet)
    requires Plain(p) && ps != [] && buffer.dir == p.dir
    requires forall i :: 0 <= i < |ps| - 1 ==> Fragmented !in ps[i].flags && |ps[i].content| == p.Room()
    requires Fragmented in ps[|ps| - 1].flags
    requires whole == buffer.(content := buffer.content + Concat(Contents(ps)))
    ensures var r := FeedSeq(lz, Some(buffer), ps);
            if |ps| == 1 || buffer.Len() + (|ps| - 2) * p.Room() < MAX_FRAGMENTS_LENGTH then
              match Decompressed(lz, whole)
              case Success(o) => r == FedAll(None, ToSeq(o), |ps|, None)
              case Failure(e) => r == FedAll(None, [], |ps|, Some(e))
            else
              r.outs == [] && r.error == Some(FragmentQueueFull)
    decreases |ps|
  {
    var rest := ps[1..];
    var contents, contents' := Contents(ps), Contents(rest);
    assert contents[1..] == contents';
    if |ps| == 1 {
      assert contents' == [] && rest == [];
      assert Concat(contents) == ps[0].content;
    } else if buffer.Len() < MAX_FRAGMENTS_LENGTH {
      var buffer' := buffer.(content := buffer.content + ps[0].content);
      assert rest[|rest| - 1] == ps[|ps| - 1];
      Assoc(buffer.content, ps[0].content, Concat(contents'));
      FeedRest(lz, p, buffer', rest, whole);
      OneLess(|rest|, p.Room());
    } else {
      assert (|ps| - 2) * p.Room() >= 0;
    }
  }

  /** What the pieces of a split command look like to the receiver. */
  lemma {:induction false} PiecesShape(lz: QuickLz, p: Packet, ps: seq<Packet>)
    requires Plain(p) && Carries(lz, p, ps)
    ensures ps != [] && forall i :: 0 <= i < |ps| ==> ps[i].dir == p.dir
    ensures Compressed in ps[0].flags <==> UsesCompression(lz, p)
    ensures forall i :: 0 <= i < |ps| ==> (Fragmented in ps[i].flags <==> |ps| > 1 && (i == 0 || i == |ps| - 1))
    ensures forall i :: 0 <= i < |ps| - 1 ==> |ps[i].content| == p.Room()
    ensures Concat(Contents(ps)) == Payload(lz, p)
  {
    ChunksCover(Payload(lz, p), p.Room());
    assert Contents(ps) == Chunks(Payload(lz, p), p.Room());
  }

  /** Reassembly undoes splitting and leaves the buffer empty, for exactly the commands the
      buffer limit admits; for any other it reports the limit and delivers nothing. */
  lemma {:induction false} ReassemblyUndoesSplit(lz: QuickLz, p: Packet, ps: seq<Packet>)
    requires lz.Inverse() && Plain(p) && |p.content| <= MAX_DECOMPRESSED_SIZE
    requires Carries(lz, p, ps)
    ensures ps != []
    ensures FitsBuffer(p, |ps|) ==> FeedSeq(lz, None, ps) == FedAll(None, [ps[0].(content := p.content)], |ps|, None)
    ensures !FitsBuffer(p, |ps|) ==>
              FeedSeq(lz, None, ps).outs == [] && FeedSeq(lz, None, ps).error == Some(FragmentQueueFull)
  {
    PiecesShape(lz, p, ps);
    if |ps| == 1 {
      assert Concat(Contents(ps)) == ps[0].content by { assert Contents(ps)[1..] == []; }
      WholeDecompresses(lz, p, ps[0]);
      assert Feed(lz, None, ps[0]) == Fed(None, Decompressed(lz, ps[0]));
      assert ps[1..] == [];
    } else {
      ManyPieces(lz, p, ps);
    }
  }

  /** The pieces behind the first but the last one are full and not marked. */
  lemma {:induction false} PiecesBehindFirst(p: Packet, ps: seq<Packet>, rest: seq<Packet>)
    requires |ps| > 1 && rest == ps[1..]
    requires forall i :: 0 <= i < |ps| ==> (Fragmented in ps[i].flags <==> i == 0 || i == |ps| - 1)
    requires forall i :: 0 <= i < |ps| - 1 ==> |ps[i].content| == p.Room()
    ensures forall i :: 0 <= i < |rest| - 1 ==> Fragmented !in rest[i].flags && |rest[i].content| == p.Room()
    ensures rest != [] && Fragmented in rest[|rest| - 1].flags
  {
    assert forall i :: 0 <= i < |rest| ==> rest[i] == ps[i + 1];
  }

  lemma {:induction false} FitsBehindFirst(p: Packet, first: Packet, n: nat)
    requires n > 1 && first.dir == p.dir && |first.content| == p.Room()
    ensures FitsBuffer(p, n) <==> n - 1 == 1 || first.Len() + (n - 3) * p.Room() < MAX_FRAGMENTS_LENGTH
  {
    OneLess(n - 1, p.Room());
  }

  lemma {:induction false} ManyPieces(lz: QuickLz, p: Packet, ps: seq<Packet>)
    requires lz.Inverse() && Plain(p) && |p.content| <= MAX_DECOMPRESSED_SIZE
    requires |ps| > 1 && ps[0].dir == p.dir && Concat(Contents(ps)) == Payload(lz, p)
    requires Compressed in ps[0].flags <==> UsesCompression(lz, p)
    requires forall i :: 0 <= i < |ps| ==> (Fragmented in ps[i].flags <==> i == 0 || i == |ps| - 1)
    requires forall i :: 0 <= i < |ps| - 1 ==> |ps[i].content| == p.Room()
    ensures FitsBuffer(p, |ps|) ==> FeedSeq(lz, None, ps) == FedAll(None, [ps[0].(content := p.content)], |ps|, None)
    ensures !FitsBuffer(p, |ps|) ==>
              FeedSeq(lz, None, ps).outs == [] && FeedSeq(lz, None, ps).error == Some(FragmentQueueFull)
  {
    PiecesBehindFirst(p, ps, ps[1..]);
    PiecesFed(lz, p, ps, ps[1..], FeedSeq(lz, Some(ps[0]), ps[1..]));
    FirstPiece(lz, ps);
  }

  /** The pieces behind the first, fed to a buffer that holds it. */
  lemma {:induction false} PiecesFed(lz: QuickLz, p: Packet, ps: seq<Packet>, rest: seq<Packet>, r: FedAll)
    requires lz.Inverse() && Plain(p) && |p.content| <= MAX_DECOMPRESSED_SIZE
    requires |ps| > 1 && rest == ps[1..] && ps[0].dir == p.dir && Concat(Contents(ps)) == Payload(lz, p)
    requires Compressed in ps[0].flags <==> UsesCompression(lz, p)
    requires forall i :: 0 <= i < |rest| - 1 ==> Fragmented !in rest[i].flags && |rest[i].content| == p.Room()
    requires Fragmented in rest[|rest| - 1].flags && |ps[0].content| == p.Room()
    requires r == FeedSeq(lz, Some(ps[0]), rest)
    ensures FitsBuffer(p, |ps|) ==> r == FedAll(None, [ps[0].(content := p.content)], |rest|, None)
    ensures !FitsBuffer(p, |ps|) ==> r.outs == [] && r.error == Some(FragmentQueueFull)
  {
    var whole := ps[0].(content := Payload(lz, p));
    FirstContent(ps);
    WholeDecompresses(lz, p, whole);
    FitsBehindFirst(p, ps[0], |ps|);
    FeedRest(lz, p, ps[0], rest, whole);
  }

  lemma {:induction false} FirstContent(ps: seq<Packet>)
    requires ps != []
    ensures Concat(Contents(ps)) == ps[0].content + Concat(Contents(ps[1..]))
  {
    assert Contents(ps)[1..] == Contents(ps[1..]);
  }

  /** The first piece of several starts the buffer. */
  lemma {:induction false} FirstPiece(lz: QuickLz, ps: seq<Packet>)
    requires ps != [] && Fragmented in ps[0].flags
    ensures var rest := FeedSeq(lz, Some(ps[0]), ps[1..]);
            FeedSeq(lz, None, ps) == rest.(used := 1 + rest.used)
  {
    assert Feed(lz, None, ps[0]) == Fed(Some(ps[0]), Success(None));
    var r := FeedSeq(lz, Some(ps[0]), ps[1..]);
    assert [] + r.outs == r.outs;
  }

  lemma {:induction false} OneLess(n: int, m: int)
    ensures m + (n - 2) * m == (n + 1 - 2) * m
  {
  }

  lemma {:induction false} WholeDecompresses(lz: QuickLz, p: Packet, whole: Packet)
    requires lz.Inverse() && |p.content| <= MAX_DECOMPRESSED_SIZE && whole.content == Payload(lz, p)
    requires Compressed in whole.flags <==> UsesCompression(lz, p)
    ensures Decompressed(lz, whole) == Success(Some(whole.(content := p.content)))
  {
  }

  // ----- Lists of commands

  /** The packets carry the commands, one after the other. */
  ghost predicate CarriesAll(lz: QuickLz, commands: seq<Packet>, ps: seq<Packet>)
    decreases |commands|
  {
    if commands == [] then ps == []
    else
      var n := |Split(lz, commands[0])|;
      && |ps| >= n
      && Carries(lz, commands[0], ps[..n])
      && CarriesAll(lz, commands[1..], ps[n..])
  }

  predicate Sendable(lz: QuickLz, p: Packet) {
    Plain(p) && |p.content| <= 0x20_0000 && FitsBuffer(p, |Split(lz, p)|)
  }

  lemma {:induction false} ReassembleAll(lz: QuickLz, commands: seq<Packet>, ps: seq<Packet>)
    requires lz.Inverse() && CarriesAll(lz, commands, ps)
    requires forall i :: 0 <= i < |commands| ==> Sendable(lz, commands[i])
    ensures var r := FeedSeq(lz, None, ps);
            r.buffer == None && r.error == None && Contents(r.outs) == Contents(commands)
    decreases |commands|
  {
    if commands != [] {
      var n := |Split(lz, commands[0])|;
      var first, rest, whole := FeedSeq(lz, None, ps[..n]), FeedSeq(lz, None, ps[n..]), FeedSeq(lz, None, ps);
      ReassembleOne(lz, commands[0], ps[..n], first);
      ReassembleAll(lz, commands[1..], ps[n..]);
      FeedSplit(lz, None, ps, n, first, whole);
      OneThenRest(first.outs, rest.outs, commands);
    }
  }

  lemma {:induction false} ReassembleOne(lz: QuickLz, p: Packet, ps: seq<Packet>, fed: FedAll)
    requires lz.Inverse() && Sendable(lz, p) && Carries(lz, p, ps) && fed == FeedSeq(lz, None, ps)
    ensures fed.buffer == None && fed.error == None && |fed.outs| == 1 && fed.outs[0].content == p.content
  {
    ReassemblyUndoesSplit(lz, p, ps);
  }

  lemma {:induction false} OneThenRest(first: seq<Packet>, rest: seq<Packet>, commands: seq<Packet>)
    requires |first| == 1 && commands != [] && first[0].content == commands[0].content
    requires Contents(rest) == Contents(commands[1..])
    ensures Contents(first + rest) == Contents(commands)
  {
    assert |rest| == |Contents(rest)| == |commands| - 1;
    forall i | 0 <= i < |commands|
      ensures (first + rest)[i].content == commands[i].content
    {
      if i > 0 {
        assert Contents(rest)[i - 1] == Contents(commands[1..])[i - 1];
      }
    }
  }

  /** A receiver that has been fed only a prefix of the packets has delivered a prefix of the commands. */
  lemma {:induction false} PrefixDelivered(lz: QuickLz, commands: seq<Packet>, ps: seq<Packet>, n: nat)
    requires lz.Inverse() && CarriesAll(lz, commands, ps) && n <= |ps|
    requires forall i :: 0 <= i < |commands| ==> Sendable(lz, commands[i])
    ensures var r := FeedSeq(lz, None, ps[..n]);
            r.error == None && Contents(r.outs) <= Contents(commands)
  {
    ReassembleAll(lz, commands, ps);
    var r, whole := FeedSeq(lz, None, ps[..n]), FeedSeq(lz, None, ps);
    FeedSplit(lz, None, ps, n, r, whole);
    assert r.outs <= whole.outs;
    assert Contents(r.outs) == Contents(whole.outs)[..|r.outs|];
  }
}

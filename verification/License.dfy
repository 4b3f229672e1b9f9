/** License chains: blocks whose validity lies within that of the blocks before them. */
module License {
  import opened Wrappers
  import opened PacketIds
  import opened BigEndian

  const TIMESTAMP_OFFSET := 0x50e2_2700
  const BLOCK_MIN_LEN := 42
  const BLOCK_TYPE_OFFSET := 33
  const NOT_VALID_BEFORE_OFFSET := 34
  const NOT_VALID_AFTER_OFFSET := 38
  const MAX_BLOCKS := 8

  datatype BlockType = Intermediate | Website | Server | Code | Ts5Server | Ephemeral {
    function Number(): byte {
      match this
      case Intermediate => 0
      case Website => 1
      case Server => 2
      case Code => 3
      case Ts5Server => 8
      case Ephemeral => 32
    }

    function MinLength(): nat {
      BLOCK_MIN_LEN +
      match this
      case Intermediate => 5
      case Website => 1
      case Code => 1
      case Server => 6
      case Ts5Server => 2
      case Ephemeral => 0
    }
  }

  function FromNumber(n: byte): Option<BlockType> {
    if n == 0 then Some(Intermediate)
    else if n == 1 then Some(Website)
    else if n == 2 then Some(Server)
    else if n == 3 then Some(Code)
    else if n == 8 then Some(Ts5Server)
    else if n == 32 then Some(Ephemeral)
    else None
  }

  datatype Bounds = Bounds(start: int, end: int) {
    predicate Within(outer: Bounds) {
      outer.start <= start && end <= outer.end
    }

    predicate Contains(now: int) {
      start <= now <= end
    }
  }

  datatype Error =
    | UnsupportedVersion(version: byte)
    | TooManyBlocks(count: nat)
    | TooShort(len: nat)
    | WrongKeyKind(kind: byte)
    | UnknownBlockType(t: byte)
    | NonterminatedString
    | Expired(bounds: Bounds)
    | OutOfBounds(outer: Bounds, inner: Bounds)
    | NoSuchProperty

  /** A parsed block: its length. What it says is read from the data. */
  datatype License = License(len: nat)

  // ----- One block

  /** The first zero from `start` on. */
  ghost predicate IsFirstZero(s: Bytes, start: nat, k: nat) {
    start <= k < |s| && s[k] == 0 && forall j :: start <= j < k ==> s[j] != 0
  }

  ghost function FirstZero(s: Bytes, start: nat): (r: Option<nat>)
    ensures r.Some? ==> start <= r.value < |s|
  {
    if exists k: nat :: IsFirstZero(s, start, k) then
      var k: nat :| IsFirstZero(s, start, k);
      Some(k)
    else None
  }

  lemma {:induction false} FirstZeroIs(s: Bytes, start: nat, k: nat)
    requires IsFirstZero(s, start, k)
    ensures FirstZero(s, start) == Some(k)
  {
    var i := FirstZero(s, start).value;
    assert IsFirstZero(s, start, i);
  }

  method FindZero(s: Bytes, start: nat) returns (r: Option<nat>)
    requires start <= |s|
    ensures r == FirstZero(s, start)
  {
    for k := start to |s|
      invariant forall j :: start <= j < k ==> s[j] != 0
    {
      if s[k] == 0 {
        FirstZeroIs(s, start, k);
        return Some(k);
      }
    }
    assert forall k: nat :: !IsFirstZero(s, start, k);
    return None;
  }

  /** The end of the properties, or how long the one that is cut off claims to be. */
  function SkipProperties(data: Bytes, pos: nat, count: nat, len: nat): (r: Result<nat, Error>)
    ensures r.Success? ==> r.value >= pos && (count > 0 ==> r.value < |data|)
    decreases count
  {
    if count == 0 then Success(pos)
    else if pos >= |data| then Failure(TooShort(len))
    else
      var propertyLen: nat := data[pos];
      if pos + 1 + propertyLen >= |data| then Failure(TooShort(propertyLen))
      else SkipProperties(data, pos + 1 + propertyLen, count - 1, len)
  }

  /** Where a block of this type ends that begins at `at`. */
  ghost function BlockEnd(t: BlockType, data: Bytes, at: nat): (r: Result<nat, Error>)
    requires at + BLOCK_MIN_LEN <= |data|
    ensures r.Success? ==> at + BLOCK_MIN_LEN <= r.value <= |data|
  {
    match t
    case Intermediate => StringEnd(data, at, t.MinLength())
    case Server => StringEnd(data, at, t.MinLength())
    case Ts5Server =>
      if |data| - at < t.MinLength() then Failure(TooShort(|data| - at))
      else SkipProperties(data, at + t.MinLength(), data[at + BLOCK_MIN_LEN + 1], |data| - at)
    case Ephemeral => Success(at + BLOCK_MIN_LEN)
    case Website => Failure(UnknownBlockType(t.Number()))
    case Code => Failure(UnknownBlockType(t.Number()))
  }

  /** The end of a block whose last part is a string; `min` is its length with an empty one. */
  ghost function StringEnd(data: Bytes, at: nat, min: nat): (r: Result<nat, Error>)
    requires min > BLOCK_MIN_LEN && at <= |data|
    ensures r.Success? ==> at + BLOCK_MIN_LEN <= r.value <= |data|
  {
    if |data| - at < min then Failure(TooShort(|data| - at))
    else match FirstZero(data, at + min - 1)
      case None => Failure(NonterminatedString)
      case Some(k) => Success(k + 1)
  }

  /** The block that begins at `at`. */
  ghost function ParseLicense(data: Bytes, at: nat): (r: Result<License, Error>)
    requires at <= |data|
    ensures r.Success? ==> BLOCK_MIN_LEN <= r.value.len <= |data| - at && FromNumber(data[at + BLOCK_TYPE_OFFSET]).Some?
  {
    if |data| - at < BLOCK_MIN_LEN then Failure(TooShort(|data| - at))
    else if data[at] != 0 then Failure(WrongKeyKind(data[at]))
    else match FromNumber(data[at + BLOCK_TYPE_OFFSET])
      case None => Failure(UnknownBlockType(data[at + BLOCK_TYPE_OFFSET]))
      case Some(t) =>
        match BlockEnd(t, data, at)
        case Failure(error) => Failure(error)
        case Success(end) => Success(License(end - at))
  }

  /** The time a block starts and stops being valid, in seconds. */
  function Validity(data: Bytes, at: nat): Bounds
    requires at + BLOCK_MIN_LEN <= |data|
  {
    Bounds(Read32(data, at + NOT_VALID_BEFORE_OFFSET) + TIMESTAMP_OFFSET,
           Read32(data, at + NOT_VALID_AFTER_OFFSET) + TIMESTAMP_OFFSET)
  }

  /** The block that begins at `at` and its validity. */
  ghost function Find(data: Bytes, at: nat): (r: Result<(License, Bounds), Error>)
    requires at <= |data|
    ensures r.Success? ==> BLOCK_MIN_LEN <= r.value.0.len <= |data| - at
  {
    match ParseLicense(data, at)
    case Failure(error) => Failure(error)
    case Success(license) => Success((license, Validity(data, at)))
  }

  /** Where the properties of a block end. */
  method ScanProperties(data: Bytes, at: nat) returns (r: Result<nat, Error>)
    requires at + BLOCK_MIN_LEN + 2 <= |data|
    ensures r == SkipProperties(data, at + BLOCK_MIN_LEN + 2, data[at + BLOCK_MIN_LEN + 1], |data| - at)
  {
    var pos: nat, count: nat := at + BLOCK_MIN_LEN + 2, data[at + BLOCK_MIN_LEN + 1];
    for i := 0 to count
      invariant SkipProperties(data, at + BLOCK_MIN_LEN + 2, count, |data| - at) ==
                SkipProperties(data, pos, count - i, |data| - at)
    {
      if pos >= |data| {
        return Failure(TooShort(|data| - at));
      }
      var propertyLen: nat := data[pos];
      pos := pos + 1;
      if pos + propertyLen >= |data| {
        return Failure(TooShort(propertyLen));
      }
      pos := pos + propertyLen;
    }
    return Success(pos);
  }

  /** Where a block ends whose last part is a string. */
  method ScanString(data: Bytes, at: nat, min: nat) returns (r: Result<nat, Error>)
    requires min > BLOCK_MIN_LEN && at <= |data|
    ensures r == StringEnd(data, at, min)
  {
    if |data| - at < min {
      return Failure(TooShort(|data| - at));
    }
    var k := FindZero(data, at + min - 1);
    return if k == None then Failure(NonterminatedString) else Success(k.value + 1);
  }

  /** The length of the block that begins here. */
  method ReadLicense(data: Bytes, at: nat) returns (r: Result<License, Error>)
    requires at <= |data|
    ensures r == ParseLicense(data, at)
  {
    if |data| - at < BLOCK_MIN_LEN {
      return Failure(TooShort(|data| - at));
    }
    if data[at] != 0 {
      return Failure(WrongKeyKind(data[at]));
    }
    var t := FromNumber(data[at + BLOCK_TYPE_OFFSET]);
    if t == None {
      return Failure(UnknownBlockType(data[at + BLOCK_TYPE_OFFSET]));
    }
    var end: Result<nat, Error>;
    match t.value {
      case Intermediate => end := ScanString(data, at, BLOCK_MIN_LEN + 5);
      case Server => end := ScanString(data, at, BLOCK_MIN_LEN + 6);
      case Ts5Server =>
        if |data| - at < BLOCK_MIN_LEN + 2 {
          end := Failure(TooShort(|data| - at));
        } else {
          end := ScanProperties(data, at);
        }
      case Ephemeral => end := Success(at + BLOCK_MIN_LEN);
      case Website => end := Failure(UnknownBlockType(data[at + BLOCK_TYPE_OFFSET]));
      case Code => end := Failure(UnknownBlockType(data[at + BLOCK_TYPE_OFFSET]));
    }
    return if end.Success? then Success(License(end.value - at)) else Failure(end.error);
  }

  // ----- The chain

  /** What is found at each position of the data, the end included. */
  type Table = seq<Result<(License, Bounds), Error>>

  ghost predicate Tabulates(data: Bytes, table: Table) {
    |table| == |data| + 1 && forall at {:trigger Find(data, at)} :: 0 <= at <= |data| ==> table[at] == Find(data, at)
  }

  ghost predicate Sane(table: Table) {
    forall at :: 0 <= at < |table| && table[at].Success? ==> BLOCK_MIN_LEN <= table[at].value.0.len < |table| - at
  }

  ghost function TableOf(data: Bytes): (table: Table)
    ensures Tabulates(data, table) && Sane(table)
  {
    seq(|data| + 1, at requires 0 <= at <= |data| => Find(data, at))
  }

  /** Whether expired licenses are refused, and the time at which they are looked at. */
  datatype Clock = Clock(checkExpired: bool, now: int)

  /** A block may be used inside the outer bounds and, if that is checked, now. */
  predicate Usable(validity: Bounds, outer: Option<Bounds>, clock: Clock) {
    (outer.Some? ==> validity.Within(outer.value)) && (clock.checkExpired ==> validity.Contains(clock.now))
  }

  /** Why a block is refused that is not usable. */
  function Refusal(validity: Bounds, outer: Option<Bounds>, clock: Clock): Error
    requires !Usable(validity, outer, clock)
  {
    if clock.checkExpired && !validity.Contains(clock.now) then Expired(validity)
        else OutOfBounds(outer.value, validity)
  }

  /** Read blocks from `at` to the end of the data, when `count` were read before. */
  ghost function ParseFrom(
      table: Table, at: nat, count: nat, clock: Clock, outer: Option<Bounds>): Result<seq<License>, Error>
    requires at < |table| && Sane(table)
    decreases |table| - at
  {
    if at == |table| - 1 then Success([])
    else if count >= MAX_BLOCKS then Failure(TooManyBlocks(count))
    else match table[at]
      case Failure(error) => Failure(error)
      case Success((license, validity)) =>
        if !Usable(validity, outer, clock) then Failure(Refusal(validity, outer, clock))
        else match ParseFrom(table, at + license.len, count + 1, clock, Some(validity))
          case Failure(error) => Failure(error)
          case Success(rest) => Success([license] + rest)
  }

  /** The licenses are what is found from `at` on, one after the other, up to the end. */
  ghost predicate Splits(table: Table, at: nat, licenses: seq<License>)
    requires at < |table| && Sane(table)
    decreases |licenses|
  {
    if licenses == [] then at == |table| - 1
    else table[at].Success? && table[at].value.0 == licenses[0] && Splits(table, at + licenses[0].len, licenses[1..])
  }

  ghost function Validities(table: Table, at: nat, licenses: seq<License>): (r: seq<Bounds>)
    requires at < |table| && Sane(table) && Splits(table, at, licenses)
    ensures |r| == |licenses|
    decreases |licenses|
  {
    if licenses == [] then [] else [table[at].value.1] + Validities(table, at + licenses[0].len, licenses[1..])
  }

  ghost predicate UsableAt(chain: seq<Bounds>, k: nat, outer: Option<Bounds>, clock: Clock)
    requires k < |chain|
  {
    Usable(chain[k], outer, clock)
  }

  ghost predicate Nested(chain: seq<Bounds>, i: nat, j: nat)
    requires i < |chain| && j < |chain|
  {
    chain[j].Within(chain[i])
  }

  /** Every block is usable, and valid only within the validity of every block before it. */
  ghost predicate IsChain(chain: seq<Bounds>, outer: Option<Bounds>, clock: Clock) {
    && (forall k :: 0 <= k < |chain| ==> UsableAt(chain, k, outer, clock))
    && (forall i, j :: 0 <= i < j < |chain| ==> Nested(chain, i, j))
  }

  /** A chain is a usable first block and a chain inside its validity. */
  lemma {:induction false} ChainUnfolds(first: Bounds, rest: seq<Bounds>, outer: Option<Bounds>, clock: Clock)
    ensures IsChain([first] + rest, outer, clock) <==> Usable(first, outer, clock) && IsChain(rest, Some(first), clock)
  {
    var chain := [first] + rest;
    if IsChain(chain, outer, clock) {
      assert UsableAt(chain, 0, outer, clock);
      forall k | 0 <= k < |rest|
        ensures UsableAt(rest, k, Some(first), clock)
      {
        assert Nested(chain, 0, k + 1) && UsableAt(chain, k + 1, outer, clock);
      }
      forall i, j | 0 <= i < j < |rest|
        ensures Nested(rest, i, j)
      {
        assert Nested(chain, i + 1, j + 1);
      }
    }
    if Usable(first, outer, clock) && IsChain(rest, Some(first), clock) {
      forall k | 0 <= k < |chain|
        ensures UsableAt(chain, k, outer, clock)
      {
        assert k > 0 ==> UsableAt(rest, k - 1, Some(first), clock);
      }
      forall i, j | 0 <= i < j < |chain|
        ensures Nested(chain, i, j)
      {
        assert i == 0 ==> UsableAt(rest, j - 1, Some(first), clock);
        assert i > 0 ==> Nested(rest, i - 1, j - 1);
      }
    }
  }

  /** The data from `at` on is a chain of these licenses, and with `count` more not too many. */
  ghost predicate IsLicenseChain(
      table: Table, at: nat, count: nat, clock: Clock, outer: Option<Bounds>, licenses: seq<License>)
    requires at < |table| && Sane(table)
  {
    Splits(table, at, licenses) && count + |licenses| <= MAX_BLOCKS &&
        IsChain(Validities(table, at, licenses), outer, clock)
  }

  /** Parsing succeeds exactly on chains of at most 8 blocks. */
  lemma {:induction false} ParsesExactlyChains(
      table: Table, at: nat, count: nat, clock: Clock, outer: Option<Bounds>, licenses: seq<License>)
    requires at < |table| && Sane(table) && count <= MAX_BLOCKS
    ensures ParseFrom(table, at, count, clock, outer) == Success(licenses) <==>
            IsLicenseChain(table, at, count, clock, outer, licenses)
    decreases |table| - at
  {
    if at == |table| - 1 {
      assert Splits(table, at, licenses) ==> licenses == [];
    } else if licenses != [] && count < MAX_BLOCKS && table[at].Success? && table[at].value.0 == licenses[0] {
      var next, validity := at + licenses[0].len, table[at].value.1;
      ParsesExactlyChains(table, next, count + 1, clock, Some(validity), licenses[1..]);
      assert licenses == [licenses[0]] + licenses[1..];
      if Splits(table, next, licenses[1..]) {
        ChainUnfolds(validity, Validities(table, next, licenses[1..]), outer, clock);
      }
    }
  }

  /** Cut the data from `at` on into blocks. */
  function Blocks(data: Bytes, at: nat, licenses: seq<License>): seq<Bytes>
    decreases |licenses|
  {
    if licenses == [] || at + licenses[0].len > |data| then []
    else [data[at..at + licenses[0].len]] + Blocks(data, at + licenses[0].len, licenses[1..])
  }

  function Flatten(blocks: seq<Bytes>): Bytes
    decreases |blocks|
  {
    if blocks == [] then [] else blocks[0] + Flatten(blocks[1..])
  }

  /** The blocks cover the data without gap or overlap. */
  lemma {:induction false} BlocksPartition(data: Bytes, table: Table, at: nat, licenses: seq<License>)
    requires at < |table| && |table| == |data| + 1 && Sane(table) && Splits(table, at, licenses)
    ensures Flatten(Blocks(data, at, licenses)) == data[at..]
    decreases |licenses|
  {
    if licenses != [] {
      var next := at + licenses[0].len;
      BlocksPartition(data, table, next, licenses[1..]);
      assert data[at..] == data[at..next] + data[next..];
    }
  }

  // ----- Parsing

  /** A license is its data and the lengths of its blocks. */
  datatype Licenses = Licenses(data: Bytes, blocks: seq<License>)

  function Prepend(known: seq<License>, r: Result<seq<License>, Error>): Result<seq<License>, Error> {
    match r
    case Success(more) => Success(known + more)
    case Failure(error) => Failure(error)
  }

  lemma {:induction false} PrependOneMore(known: seq<License>, license: License, r: Result<seq<License>, Error>)
    ensures Prepend(known + [license], r) == Prepend(known, Prepend([license], r))
  {
    if r.Success? {
      assert (known + [license]) + r.value == known + ([license] + r.value);
    }
  }

  lemma {:induction false} NothingToPrepend(known: seq<License>, r: Result<seq<License>, Error>)
    ensures known == [] ==> Prepend(known, r) == r
    ensures Prepend(known, Success([])) == Success(known)
  {
    if known == [] && r.Success? {
      assert known + r.value == r.value;
    }
    assert known + [] == known;
  }

  /** Read the block that begins here. */
  method ReadBlock(
      data: Bytes, ghost table: Table, at: nat, clock: Clock, outer: Option<Bounds>)
    returns (r: Result<(License, Bounds), Error>)
    requires at <= |data| && Tabulates(data, table)
    ensures r == match table[at]
                 case Failure(error) => Failure(error)
                 case Success((license, validity)) =>
                   if Usable(validity, outer, clock) then Success((license, validity))
                       else Failure(Refusal(validity, outer, clock))
    ensures table[at].Success? ==>
              && 42 <= table[at].value.0.len <= |data| - at
              && var start, end := ReadBe(data[at + 34..at + 38]) + 0x50e2_2700,
                                   ReadBe(data[at + 38..at + 42]) + 0x50e2_2700;
                 r == if clock.checkExpired && (clock.now < start || end < clock.now) then
                        Failure(Expired(Bounds(start, end)))
                      else if outer.Some? && (start < outer.value.start || outer.value.end < end) then
                        Failure(OutOfBounds(outer.value, Bounds(start, end)))
                      else
                        Success((table[at].value.0, Bounds(start, end)))
  {
    assert table[at] == Find(data, at);
    var parsed := ReadLicense(data, at);
    if parsed.Failure? {
      return Failure(parsed.error);
    }
    var validity := Validity(data, at);
    if validity.start > clock.now && clock.checkExpired {
      return Failure(Expired(validity));
    }
    if validity.end < clock.now && clock.checkExpired {
      return Failure(Expired(validity));
    }
    if outer.Some? && (validity.start < outer.value.start || validity.end > outer.value.end) {
      return Failure(OutOfBounds(outer.value, validity));
    }
    return Success((parsed.value, validity));
  }

  /** Read blocks up to the end of the data. */
  method ReadBlocks(
      data: Bytes, ghost table: Table, start: nat, known: seq<License>, clock: Clock, outer: Option<Bounds>)
    returns (r: Result<seq<License>, Error>)
    requires start <= |data| && Tabulates(data, table) && Sane(table)
    ensures r == Prepend(known, ParseFrom(table, start, |known|, clock, outer))
  {
    var blocks, offset, bounds := known, start, outer;
    while offset < |data|
      invariant start <= offset <= |data|
      invariant Prepend(known, ParseFrom(table, start, |known|, clock, outer)) ==
                Prepend(blocks, ParseFrom(table, offset, |blocks|, clock, bounds))
    {
      if |blocks| >= MAX_BLOCKS {
        return Failure(TooManyBlocks(|blocks|));
      }
      var parsed := ReadBlock(data, table, offset, clock, bounds);
      if parsed.Failure? {
        return Failure(parsed.error);
      }
      var (license, b) := parsed.value;
      PrependOneMore(blocks, license, ParseFrom(table, offset + license.len, |blocks| + 1, clock, Some(b)));
      offset, bounds := offset + license.len, Some(b);
      blocks := blocks + [license];
    }
    NothingToPrepend(blocks, Success([]));
    return Success(blocks);
  }

  /** Parsing a whole license; the data must not be empty. */
  ghost function Parse(data: Bytes, clock: Clock): Result<Licenses, Error>
    requires data != []
  {
    if data[0] > 1 then Failure(UnsupportedVersion(data[0]))
    else match ParseFrom(TableOf(data), 1, 0, clock, None)
      case Failure(error) => Failure(error)
      case Success(blocks) => Success(Licenses(data, blocks))
  }

  method ParseInternal(data: Bytes, clock: Clock) returns (r: Result<Licenses, Error>)
    requires data != []
    ensures r == Parse(data, clock)
  {
    var version := data[0];
    if version != 0 && version != 1 {
      return Failure(UnsupportedVersion(version));
    }
    ghost var table := TableOf(data);
    var blocks := ReadBlocks(data, table, 1, [], clock, None);
    NothingToPrepend([], ParseFrom(table, 1, 0, clock, None));
    return if blocks.Success? then Success(Licenses(data, blocks.value)) else Failure(blocks.error);
  }

  /** A license parses exactly when, behind a known version, it is a chain of at most 8 blocks:
      they cover all data, each is valid only while every earlier one is and, if that is checked,
      now. */
  lemma {:induction false} LicenseParsesExactly(data: Bytes, clock: Clock, licenses: seq<License>)
    requires data != []
    ensures Parse(data, clock) == Success(Licenses(data, licenses)) <==>
            data[0] <= 1 && IsLicenseChain(TableOf(data), 1, 0, clock, None, licenses)
    ensures Splits(TableOf(data), 1, licenses) ==> Flatten(Blocks(data, 1, licenses)) == data[1..]
  {
    ParsesExactlyChains(TableOf(data), 1, 0, clock, None, licenses);
    if Splits(TableOf(data), 1, licenses) {
      BlocksPartition(data, TableOf(data), 1, licenses);
    }
  }

  // ----- What a block says

  function GetType(block: Bytes): Result<BlockType, Error>
    requires |block| >= BLOCK_MIN_LEN
  {
    match FromNumber(block[BLOCK_TYPE_OFFSET])
    case None => Failure(UnknownBlockType(block[BLOCK_TYPE_OFFSET]))
    case Some(t) => Success(t)
  }

  /** Where the issuer begins in blocks that have one outside of properties. */
  function IssuerOffset(t: BlockType): Option<nat> {
    match t
    case Intermediate => Some(BLOCK_MIN_LEN + 4)
    case Website => Some(BLOCK_MIN_LEN)
    case Code => Some(BLOCK_MIN_LEN)
    case Server => Some(BLOCK_MIN_LEN + 5)
    case _ => None
  }

  function GetIssuer(block: Bytes): Result<Bytes, Error>
    requires |block| >= BLOCK_MIN_LEN && GetType(block) != Success(Ts5Server)
    requires GetType(block).Success? ==> |block| >= GetType(block).value.MinLength()
  {
    match GetType(block)
    case Failure(error) => Failure(error)
    case Success(t) =>
      match IssuerOffset(t)
      case None => Failure(NoSuchProperty)
      case Some(offset) => Success(block[offset..|block| - 1])
  }

  function GetMaxClients(block: Bytes): Result<u32, Error>
    requires |block| >= BLOCK_MIN_LEN && GetType(block) != Success(Ts5Server)
    requires GetType(block).Success? ==> |block| >= GetType(block).value.MinLength()
  {
    match GetType(block)
    case Failure(error) => Failure(error)
    case Success(t) =>
      if t == Intermediate then Success(Read32(block, BLOCK_MIN_LEN))
      else if t == Server then Success(Read32(block, BLOCK_MIN_LEN + 1))
      else Failure(NoSuchProperty)
  }

  // ----- Building

  /** What a builder was told about a block of one of the types it can fill in. */
  datatype Draft = Draft(t: BlockType, key: Bytes, notBefore: u32, notAfter: u32, licenseType: byte, maxClients: u32,
      issuer: Bytes)

  ghost predicate IsDraft(draft: Draft) {
    && (draft.t == Intermediate || draft.t == Server || draft.t == Ephemeral)
    && |draft.key| == 32 && 0 !in draft.issuer
  }

  ghost function Head(draft: Draft): Bytes {
    [0] + draft.key + [draft.t.Number()] + Be32(draft.notBefore) + Be32(draft.notAfter)
  }

  /** What stands between the head and the issuer. */
  ghost function Numbers(draft: Draft): Bytes {
    match draft.t
    case Intermediate => Be32(draft.maxClients)
    case Server => [draft.licenseType] + Be32(draft.maxClients)
    case _ => []
  }

  ghost function Issuer(draft: Draft): Bytes {
    if draft.t == Ephemeral then [] else draft.issuer + [0]
  }

  /** The bytes of a block. */
  ghost function Encode(draft: Draft): Bytes {
    Head(draft) + Numbers(draft) + Issuer(draft)
  }

  ghost function Promised(draft: Draft): Bounds {
    Bounds(draft.notBefore + TIMESTAMP_OFFSET, draft.notAfter + TIMESTAMP_OFFSET)
  }

  /** The head reads back, wherever the block stands. */
  lemma {:induction false} HeadReadsBack(before: Bytes, draft: Draft, rest: Bytes, data: Bytes)
    requires |draft.key| == 32 && data == before + (Head(draft) + rest)
    ensures |Head(draft)| == BLOCK_MIN_LEN && data[|before|] == 0 &&
            data[|before| + BLOCK_TYPE_OFFSET] == draft.t.Number()
    ensures data[|before| + 1..|before| + BLOCK_TYPE_OFFSET] == draft.key && Validity(data, |before|) == Promised(draft)
  {
    var at := |before|;
    assert data[at + NOT_VALID_BEFORE_OFFSET..at + NOT_VALID_BEFORE_OFFSET + 4] == Be32(draft.notBefore);
    assert data[at + NOT_VALID_AFTER_OFFSET..at + NOT_VALID_AFTER_OFFSET + 4] == Be32(draft.notAfter);
  }

  lemma {:induction false} IssuerEnds(before: Bytes, issuer: Bytes, rest: Bytes, data: Bytes)
    requires 0 !in issuer && data == before + (issuer + [0] + rest)
    ensures FirstZero(data, |before|) == Some(|before| + |issuer|)
  {
    FirstZeroIs(data, |before|, |before| + |issuer|);
  }

  lemma {:induction false} NumberRoundTrip(t: BlockType)
    ensures FromNumber(t.Number()) == Some(t)
  {
  }

  lemma {:induction false} StringEnds(front: Bytes, issuer: Bytes, rest: Bytes, data: Bytes, at: nat, min: nat)
    requires 0 !in issuer && data == front + (issuer + [0] + rest)
    requires min > BLOCK_MIN_LEN && at + min == |front| + 1
    ensures StringEnd(data, at, min) == Success(|front| + |issuer| + 1)
  {
    IssuerEnds(front, issuer, rest, data);
  }

  lemma {:induction false} HeadLength(draft: Draft, head: Bytes, numbers: Bytes, issuer: Bytes)
    requires |draft.key| == 32 && head == Head(draft) && numbers == Numbers(draft) && issuer == Issuer(draft)
    requires draft.t == Intermediate || draft.t == Server || draft.t == Ephemeral
    ensures Encode(draft) == head + numbers + issuer && |head| == BLOCK_MIN_LEN
    ensures BLOCK_MIN_LEN + |numbers| + (if draft.t == Ephemeral then 0 else 1) == draft.t.MinLength()
  {
  }

  /** A block that ends in a string ends behind its zero, wherever it stands. */
  lemma {:induction false} BuiltBlockEnds(
      before: Bytes, t: BlockType, head: Bytes, numbers: Bytes, issuer: Bytes, rest: Bytes, data: Bytes)
    requires t == Intermediate || t == Server
    requires |head| == BLOCK_MIN_LEN && BLOCK_MIN_LEN + |numbers| + 1 == t.MinLength()
    requires 0 !in issuer && data == before + head + numbers + (issuer + [0] + rest)
    ensures BlockEnd(t, data, |before|) == Success(|before| + |head| + |numbers| + |issuer| + 1)
  {
    StringEnds(before + head + numbers, issuer, rest, data, |before|, t.MinLength());
  }

  lemma {:induction false} FindIs(data: Bytes, at: nat, t: BlockType, end: nat, bounds: Bounds)
    requires at + BLOCK_MIN_LEN <= |data| && data[at] == 0 && data[at + BLOCK_TYPE_OFFSET] == t.Number()
    requires BlockEnd(t, data, at) == Success(end) && Validity(data, at) == bounds
    ensures Find(data, at) == Success((License(end - at), bounds))
  {
    NumberRoundTrip(t);
  }

  lemma {:induction false} Regroup(before: Bytes, head: Bytes, numbers: Bytes, issuer: Bytes, rest: Bytes, data: Bytes)
    requires data == before + ((head + numbers + issuer) + rest)
    ensures data == before + (head + (numbers + issuer + rest)) == before + head + numbers + (issuer + rest)
  {
  }

  /** The parser finds the whole block that was built, whatever stands before and behind it. */
  lemma {:induction false} BuiltBlockParses(before: Bytes, draft: Draft, rest: Bytes, data: Bytes)
    requires IsDraft(draft) && data == before + (Encode(draft) + rest)
    ensures Find(data, |before|) == Success((License(|Encode(draft)|), Promised(draft)))
  {
    var head, numbers, issuer := Head(draft), Numbers(draft), Issuer(draft);
    HeadLength(draft, head, numbers, issuer);
    Regroup(before, head, numbers, issuer, rest, data);
    HeadReadsBack(before, draft, numbers + issuer + rest, data);
    if draft.t != Ephemeral {
      BuiltBlockEnds(before, draft.t, head, numbers, draft.issuer, rest, data);
    }
    FindIs(data, |before|, draft.t, |before| + |Encode(draft)|, Promised(draft));
  }

  /** Everything the builder was told about a block is read back from it. */
  lemma {:induction false} BuiltBlockReadsBack(draft: Draft)
    requires IsDraft(draft)
    ensures var block := Encode(draft);
            && |block| >= draft.t.MinLength() && GetType(block) == Success(draft.t)
            && block[1..33] == draft.key && Validity(block, 0) == Promised(draft)
            && GetIssuer(block) == (if draft.t == Ephemeral then Failure(NoSuchProperty) else Success(draft.issuer))
            && GetMaxClients(block) == (if draft.t == Ephemeral then Failure(NoSuchProperty)
               else Success(draft.maxClients))
            && (draft.t == Server ==> block[BLOCK_MIN_LEN] == draft.licenseType)
  {
    var block := Encode(draft);
    assert block == [] + (Head(draft) + (Numbers(draft) + Issuer(draft)));
    HeadReadsBack([], draft, Numbers(draft) + Issuer(draft), block);
    NumberRoundTrip(draft.t);
    if draft.t != Ephemeral {
      var n := BLOCK_MIN_LEN + |Numbers(draft)|;
      assert block[n..|block| - 1] == draft.issuer;
      assert block[n - 4..n] == Be32(draft.maxClients);
    }
  }

  /** Times are stored in 32 bits. */
  function Stored(time: int): u32 {
    (time - TIMESTAMP_OFFSET) % 0x1_0000_0000
  }

  /** A time reads back exactly when it lies in the range of 32 bits after the offset. */
  lemma {:induction false} TimeReadsBackExactly(time: int)
    ensures Stored(time) + TIMESTAMP_OFFSET == time <==> 0 <= time - TIMESTAMP_OFFSET < 0x1_0000_0000
  {
  }

  ghost function EncodeAll(drafts: seq<Draft>): Bytes
    decreases |drafts|
  {
    if drafts == [] then [] else Encode(drafts[0]) + EncodeAll(drafts[1..])
  }

  ghost function LicensesOf(drafts: seq<Draft>): (r: seq<License>)
    ensures |r| == |drafts|
    decreases |drafts|
  {
    if drafts == [] then [] else [License(|Encode(drafts[0])|)] + LicensesOf(drafts[1..])
  }

  ghost function AllPromised(drafts: seq<Draft>): (r: seq<Bounds>)
    ensures |r| == |drafts| && forall k :: 0 <= k < |r| ==> r[k] == Promised(drafts[k])
  {
    seq(|drafts|, k requires 0 <= k < |drafts| => Promised(drafts[k]))
  }

  ghost predicate AreDrafts(drafts: seq<Draft>) {
    forall k :: 0 <= k < |drafts| ==> IsDraft(drafts[k])
  }

  lemma {:induction false} PromisedUnfolds(drafts: seq<Draft>)
    requires drafts != []
    ensures AllPromised(drafts) == [Promised(drafts[0])] + AllPromised(drafts[1..])
  {
  }

  /** The blocks from `at` on, and their validities. */
  ghost predicate SplitsInto(table: Table, at: nat, licenses: seq<License>, chain: seq<Bounds>) {
    at < |table| && Sane(table) && Splits(table, at, licenses) && Validities(table, at, licenses) == chain
  }

  lemma {:induction false} OneBlockMore(
      table: Table, at: nat, first: License, validity: Bounds, licenses: seq<License>, chain: seq<Bounds>)
    requires at < |table| && table[at] == Success((first, validity))
    requires SplitsInto(table, at + first.len, licenses, chain)
    ensures SplitsInto(table, at, [first] + licenses, [validity] + chain)
  {
    assert ([first] + licenses)[1..] == licenses;
  }

  /** The first block of what was built, and what the table says of it. */
  lemma {:induction false} FirstBlock(before: Bytes, drafts: seq<Draft>, data: Bytes, table: Table)
    returns (block: Bytes)
    requires drafts != [] && IsDraft(drafts[0]) && data == before + EncodeAll(drafts) && Tabulates(data, table)
    ensures data == (before + block) + EncodeAll(drafts[1..]) && |before| < |table|
    ensures table[|before|] == Success((License(|block|), Promised(drafts[0])))
    ensures LicensesOf(drafts) == [License(|block|)] + LicensesOf(drafts[1..])
  {
    block := Encode(drafts[0]);
    Assoc(before, block, EncodeAll(drafts[1..]));
    BuiltBlockParses(before, drafts[0], EncodeAll(drafts[1..]), data);
    assert table[|before|] == Find(data, |before|);
  }

  /** What was built splits into the blocks that were built. */
  lemma {:induction false} BuiltSplits(before: Bytes, drafts: seq<Draft>, data: Bytes, table: Table)
    requires AreDrafts(drafts) && data == before + EncodeAll(drafts) && Tabulates(data, table) && Sane(table)
    ensures SplitsInto(table, |before|, LicensesOf(drafts), AllPromised(drafts))
    decreases |drafts|
  {
    if drafts == [] {
      assert data == before && AllPromised(drafts) == [];
    } else {
      var block := FirstBlock(before, drafts, data, table);
      BuiltSplits(before + block, drafts[1..], data, table);
      PromisedUnfolds(drafts);
      OneBlockMore(table, |before|, License(|block|), Promised(drafts[0]), LicensesOf(drafts[1..]),
                   AllPromised(drafts[1..]));
    }
  }

  /** Building succeeds exactly when there are at most 8 blocks and each is valid only within the
      validity of all before it, and then gives back the blocks that were built. */
  lemma {:induction false} BuildSucceedsExactly(
      before: Bytes, count: nat, outer: Option<Bounds>, now: int, drafts: seq<Draft>, data: Bytes)
    requires AreDrafts(drafts) && data == before + EncodeAll(drafts) && count <= MAX_BLOCKS
    ensures ParseFrom(TableOf(data), |before|, count, Clock(false, now), outer) == Success(LicensesOf(drafts)) <==>
            count + |drafts| <= MAX_BLOCKS && IsChain(AllPromised(drafts), outer, Clock(false, now))
  {
    BuiltSplits(before, drafts, data, TableOf(data));
    ParsesExactlyChains(TableOf(data), |before|, count, Clock(false, now), outer, LicensesOf(drafts));
  }

  // ----- The builder

  lemma {:induction false} Overwrite(data: Bytes, a: Bytes, mid: Bytes, c: Bytes, mid': Bytes)
    requires data == a + (mid + c) && |mid| == |mid'|
    ensures data[..|a|] + mid' + data[|a| + |mid|..] == a + (mid' + c)
  {
    assert data[..|a|] == a && data[|a| + |mid|..] == c;
  }

  lemma {:induction false} KeyPart(front: Bytes, d: Draft)
    ensures front + Encode(d) ==
            (front + [0]) + (d.key + ([d.t.Number()] + Be32(d.notBefore) + Be32(d.notAfter) + Numbers(d) + Issuer(d)))
  {
  }

  lemma {:induction false} NotBeforePart(front: Bytes, d: Draft)
    ensures front + Encode(d) ==
            (front + [0] + d.key + [d.t.Number()]) + (Be32(d.notBefore) + (Be32(d.notAfter) + Numbers(d) + Issuer(d)))
  {
  }

  lemma {:induction false} NotAfterPart(front: Bytes, d: Draft)
    ensures front + Encode(d) ==
            (front + [0] + d.key + [d.t.Number()] + Be32(d.notBefore)) + (Be32(d.notAfter) + (Numbers(d) + Issuer(d)))
  {
  }

  lemma {:induction false} MaxClientsPart(front: Bytes, d: Draft)
    requires d.t == Intermediate || d.t == Server
    ensures front + Encode(d) ==
            (front + Head(d) + (if d.t == Server then [d.licenseType] else [])) + (Be32(d.maxClients) + Issuer(d))
  {
  }

  lemma {:induction false} LicenseTypePart(front: Bytes, d: Draft)
    requires d.t == Server
    ensures front + Encode(d) == (front + Head(d)) + ([d.licenseType] + (Be32(d.maxClients) + Issuer(d)))
  {
  }

  lemma {:induction false} IssuerPart(front: Bytes, d: Draft)
    requires d.t == Intermediate || d.t == Server
    ensures front + Encode(d) == (front + Head(d) + Numbers(d)) + (d.issuer + [0])
  {
  }

  lemma {:induction false} EncodeOneMore(drafts: seq<Draft>, draft: Draft)
    ensures EncodeAll(drafts + [draft]) == EncodeAll(drafts) + Encode(draft)
    decreases |drafts|
  {
    if drafts == [] {
      assert drafts + [draft] == [draft] && [draft][1..] == [];
    } else {
      var all := drafts + [draft];
      EncodeOneMore(drafts[1..], draft);
      assert all[0] == drafts[0] && all[1..] == drafts[1..] + [draft];
      Assoc(Encode(drafts[0]), EncodeAll(drafts[1..]), Encode(draft));
    }
  }

  ghost function NewDraft(t: BlockType): Draft {
    Draft(t, Zeros(32), 0, 0, 0, 0, [])
  }

  lemma {:induction false} ZeroBytes()
    ensures Be32(0) == Zeros(4)
  {
    var z := Zeros(4);
    assert z[..3][..2][..1][..0] == [];
    assert ReadBe(z[..3][..2][..1]) == 0 && ReadBe(z[..3][..2]) == 0 && ReadBe(z[..3]) == 0;
    ReadBeInjective(Be32(0), z);
  }

  /** A new block holds zeros but for its type. */
  lemma {:induction false} EmptyBlock(t: BlockType)
    requires t == Intermediate || t == Server || t == Ephemeral
    ensures Encode(NewDraft(t)) == Zeros(t.MinLength())[BLOCK_TYPE_OFFSET := t.Number()]
  {
    ZeroBytes();
    assert |Encode(NewDraft(t))| == t.MinLength();
  }

  /** Closing a block: what was in front of it, and the block, are the blocks so far. */
  lemma {:induction false} CloseBlock(base: Bytes, closed: seq<Draft>, open: Draft, block: Bytes)
    requires block == Encode(open)
    ensures base + EncodeAll(closed + [open]) == (base + EncodeAll(closed)) + block
  {
    EncodeOneMore(closed, open);
    Assoc(base, EncodeAll(closed), block);
  }

  lemma {:induction false} IssuerWritten(front: Bytes, d: Draft, issuer: Bytes, data: Bytes)
    requires d.t == Intermediate || d.t == Server
    requires d.issuer == [] && data == front + Encode(d)
    ensures |data| > 0 && data[..|data| - 1] + issuer + [0] == front + Encode(d.(issuer := issuer))
  {
    var d' := d.(issuer := issuer);
    IssuerPart(front, d);
    IssuerPart(front, d');
    SplitLast(data, front + Head(d) + Numbers(d), issuer);
  }

  lemma {:induction false} SplitLast(data: Bytes, a: Bytes, issuer: Bytes)
    requires data == a + ([] + [0])
    ensures |data| > 0 && data[..|data| - 1] + issuer + [0] == a + (issuer + [0])
  {
    assert data[..|data| - 1] == a;
  }

  lemma {:induction false} NoIssuerYet(d: Draft)
    requires |d.key| == 32 && (d.t == Intermediate || d.t == Server)
    ensures |Encode(d)| == d.t.MinLength() <==> d.issuer == []
  {
  }

  lemma {:induction false} NewBlockWritten(data: Bytes, t: BlockType)
    requires t == Intermediate || t == Server || t == Ephemeral
    ensures (data + Zeros(t.MinLength()))[|data| + BLOCK_TYPE_OFFSET := t.Number()] == data + Encode(NewDraft(t))
    ensures IsDraft(NewDraft(t)) && NewDraft(t).t == t
  {
    EmptyBlock(t);
    var block := Zeros(t.MinLength())[BLOCK_TYPE_OFFSET := t.Number()];
    assert (data + Zeros(t.MinLength()))[|data| + BLOCK_TYPE_OFFSET := t.Number()] == data + block;
  }

  /** Adds blocks behind `base`. What was set in the closed blocks and in the open one is kept in
      ghost fields; `front` is the data in front of the open block. */
  class LicenseBuilder {
    const base: Bytes
    var data: Bytes
    var offset: nat
    var typ: BlockType
    ghost var front: Bytes
    ghost var closed: seq<Draft>
    ghost var open: Option<Draft>

    ghost predicate Valid()
      reads this
    {
      && AreDrafts(closed) && front == base + EncodeAll(closed)
      && match open
         case None => data == front
         case Some(draft) => IsDraft(draft) && data == front + Encode(draft) && offset == |front| && typ == draft.t
    }

    ghost function Drafts(): seq<Draft>
      reads this
    {
      match open
      case None => closed
      case Some(draft) => closed + [draft]
    }

    constructor (base: Bytes)
      ensures Valid() && this.base == base && Drafts() == []
    {
      this.base, data, offset, typ := base, base, 0, Intermediate;
      front, closed, open := base, [], None;
      new;
      assert base + [] == base;
    }

    /** All blocks stand behind the base. */
    lemma {:induction false} Contents()
      requires Valid()
      ensures AreDrafts(Drafts()) && data == base + EncodeAll(Drafts())
    {
      match open
      case None =>
      case Some(draft) => CloseBlock(base, closed, draft, Encode(draft));
    }

    /** No block is being filled in any more. */
    ghost method Close()
      requires Valid()
      modifies this`front, this`closed, this`open
      ensures Valid() && closed == old(Drafts()) && open == None && front == data
    {
      Contents();
      front, closed, open := data, Drafts(), None;
    }

    /** Adds the zeros of a block and sets its type. */
    method Append(t: BlockType)
      requires t == Intermediate || t == Server || t == Ephemeral
      modifies this`data
      ensures data == old(data) + Encode(NewDraft(t))
    {
      NewBlockWritten(data, t);
      var len := |data|;
      data := data + Zeros(t.MinLength());
      data := data[len + BLOCK_TYPE_OFFSET := t.Number()];
    }

    method AddBlock(t: BlockType)
      requires Valid() && (t == Intermediate || t == Server || t == Ephemeral)
      modifies this
      ensures Valid() && closed == old(Drafts()) && open == Some(NewDraft(t))
    {
      Close();
      offset, typ := |data|, t;
      NewBlockWritten(data, t);
      Append(t);
      open := Some(NewDraft(t));
    }

    /** Overwrites `mid` in the data. */
    method WriteAt(o: nat, bytes: Bytes, ghost a: Bytes, ghost mid: Bytes, ghost c: Bytes)
      requires o == |a| && |mid| == |bytes| && data == a + (mid + c)
      modifies this`data
      ensures data == a + (bytes + c)
    {
      Overwrite(data, a, mid, c, bytes);
      data := data[..o] + bytes + data[o + |bytes|..];
    }

    method PublicKey(key: Bytes)
      requires Valid() && open.Some? && |key| == 32
      modifies this`data, this`open
      ensures Valid() && open == Some(old(open).value.(key := key))
    {
      ghost var d, d' := open.value, open.value.(key := key);
      KeyPart(front, d);
      KeyPart(front, d');
      WriteAt(offset + 1, key, front + [0], d.key,
              [d.t.Number()] + Be32(d.notBefore) + Be32(d.notAfter) + Numbers(d) + Issuer(d));
      open := Some(d');
    }

    method NotValidBefore(time: int)
      requires Valid() && open.Some?
      modifies this`data, this`open
      ensures Valid() && open == Some(old(open).value.(notBefore := Stored(time)))
    {
      ghost var d, d' := open.value, open.value.(notBefore := Stored(time));
      NotBeforePart(front, d);
      NotBeforePart(front, d');
      WriteBe32(Stored(time));
      WriteAt(offset + NOT_VALID_BEFORE_OFFSET, WriteBe(Stored(time), 4),
              front + [0] + d.key + [d.t.Number()], Be32(d.notBefore),
              Be32(d.notAfter) + Numbers(d) + Issuer(d));
      open := Some(d');
    }

    method NotValidAfter(time: int)
      requires Valid() && open.Some?
      modifies this`data, this`open
      ensures Valid() && open == Some(old(open).value.(notAfter := Stored(time)))
    {
      ghost var d, d' := open.value, open.value.(notAfter := Stored(time));
      NotAfterPart(front, d);
      NotAfterPart(front, d');
      WriteBe32(Stored(time));
      WriteAt(offset + NOT_VALID_AFTER_OFFSET, WriteBe(Stored(time), 4),
              front + [0] + d.key + [d.t.Number()] + Be32(d.notBefore), Be32(d.notAfter), Numbers(d) + Issuer(d));
      open := Some(d');
    }

    /** Only for server blocks. */
    method ServerLicenseType(licenseType: byte)
      requires Valid() && open.Some? && typ == Server
      modifies this`data, this`open
      ensures Valid() && open == Some(old(open).value.(licenseType := licenseType))
    {
      ghost var d, d' := open.value, open.value.(licenseType := licenseType);
      LicenseTypePart(front, d);
      LicenseTypePart(front, d');
      WriteAt(offset + BLOCK_MIN_LEN, [licenseType], front + Head(d), [d.licenseType], Be32(d.maxClients) + Issuer(d));
      open := Some(d');
    }

    /** Only for intermediate and server blocks. */
    method MaxClients(maxClients: u32)
      requires Valid() && open.Some? && (typ == Intermediate || typ == Server)
      modifies this`data, this`open
      ensures Valid() && open == Some(old(open).value.(maxClients := maxClients))
    {
      ghost var d, d' := open.value, open.value.(maxClients := maxClients);
      MaxClientsPart(front, d);
      MaxClientsPart(front, d');
      WriteBe32(maxClients);
      WriteAt(offset + BLOCK_MIN_LEN + if typ == Server then 1 else 0, WriteBe(maxClients, 4),
              front + Head(d) + (if d.t == Server then [d.licenseType] else []), Be32(d.maxClients), Issuer(d));
      open := Some(d');
    }

    /** Only for intermediate and server blocks that have none yet; it holds no zero bytes. */
    method SetIssuer(issuer: Bytes)
      requires Valid() && open.Some? && (typ == Intermediate || typ == Server)
      requires 0 !in issuer && |data| - offset == typ.MinLength()
      modifies this`data, this`open
      ensures Valid() && open == Some(old(open).value.(issuer := issuer))
    {
      NoIssuerYet(open.value);
      IssuerWritten(front, open.value, issuer, data);
      open := Some(open.value.(issuer := issuer));
      data := data[..|data| - 1] + issuer + [0];
    }
  }

  // ----- Build

  function LastValidity(licenses: Licenses): Option<Bounds>
    requires licenses.blocks != [] ==> BLOCK_MIN_LEN <= licenses.blocks[|licenses.blocks| - 1].len <= |licenses.data|
  {
    if licenses.blocks == [] then None
    else Some(Validity(licenses.data, |licenses.data| - licenses.blocks[|licenses.blocks| - 1].len))
  }

  /** Parse the blocks that a builder has put behind a license. */
  method Build(licenses: Licenses, data: Bytes, now: int) returns (r: Result<seq<License>, Error>)
    requires licenses.blocks != [] ==> BLOCK_MIN_LEN <= licenses.blocks[|licenses.blocks| - 1].len <= |licenses.data|
    requires |licenses.data| <= |data|
    ensures r == Prepend(licenses.blocks,
                         ParseFrom(TableOf(data), |licenses.data|, |licenses.blocks|, Clock(false, now),
                                   LastValidity(licenses)))
  {
    r := ReadBlocks(data, TableOf(data), |licenses.data|, licenses.blocks, Clock(false, now), LastValidity(licenses));
  }

  lemma {:induction false} PrependExactly(known: seq<License>, r: Result<seq<License>, Error>, more: seq<License>)
    ensures Prepend(known, r) == Success(known + more) <==> r == Success(more)
  {
    if r.Success? && known + r.value == known + more {
      assert r.value == (known + r.value)[|known|..] == more;
    }
  }

  /** Building gives back the blocks that were built exactly when there are at most 8 in all and
      each is valid only within the validity of all before it. */
  lemma {:induction false} BuildGivesBack(
      licenses: Licenses, drafts: seq<Draft>, now: int, outer: Option<Bounds>, data: Bytes)
    requires AreDrafts(drafts) && data == licenses.data + EncodeAll(drafts) && |licenses.blocks| <= MAX_BLOCKS
    ensures var more := ParseFrom(TableOf(data), |licenses.data|, |licenses.blocks|, Clock(false, now), outer);
            Prepend(licenses.blocks, more) == Success(licenses.blocks + LicensesOf(drafts)) <==>
            |licenses.blocks| + |drafts| <= MAX_BLOCKS && IsChain(AllPromised(drafts), outer, Clock(false, now))
  {
    BuildSucceedsExactly(licenses.data, |licenses.blocks|, outer, now, drafts, data);
    var more := ParseFrom(TableOf(data), |licenses.data|, |licenses.blocks|, Clock(false, now), outer);
    PrependExactly(licenses.blocks, more, LicensesOf(drafts));
  }
}

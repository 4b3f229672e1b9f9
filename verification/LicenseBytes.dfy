/** What parsing and building licenses mean for the bytes. */
module LicenseBytes {
  import opened Wrappers
  import opened PacketIds
  import opened BigEndian
  import opened License

  // ----- One block

  /** The first zero from `from` on is the last byte before `end`. */
  ghost predicate EndsAtZero(data: Bytes, from: nat, end: nat) {
    from < end <= |data| && data[end - 1] == 0 && forall j :: from <= j < end - 1 ==> data[j] != 0
  }

  ghost predicate IsCut(data: Bytes, cuts: seq<nat>, i: nat)
    requires i + 1 < |cuts|
  {
    cuts[i] < |data| && cuts[i + 1] == cuts[i] + 1 + data[cuts[i]] < |data|
  }

  /** Properties, each behind a byte that holds its length, with at least one byte behind each. */
  ghost predicate AreProperties(data: Bytes, from: nat, count: nat, end: nat, cuts: seq<nat>) {
    && |cuts| == count + 1 && cuts[0] == from && cuts[count] == end
    && forall i :: 0 <= i < count ==> IsCut(data, cuts, i)
  }

  ghost predicate HasProperties(data: Bytes, from: nat, count: nat, end: nat) {
    exists cuts :: AreProperties(data, from, count, end, cuts)
  }

  /** A block of `len` bytes begins at `at`: of an intermediate license, a server, a TeamSpeak 5 server, or an
      ephemeral one. */
  ghost predicate IsBlock(data: Bytes, at: nat, len: nat) {
    && at + 42 <= at + len <= |data| && data[at] == 0
    && match data[at + 33]
       case 0 => EndsAtZero(data, at + 46, at + len)
       case 2 => EndsAtZero(data, at + 47, at + len)
       case 8 => len >= 44 && HasProperties(data, at + 44, data[at + 43], at + len)
       case 32 => len == 42
       case _ => false
  }

  lemma {:induction false} ZeroIsFirst(data: Bytes, from: nat, end: nat)
    ensures FirstZero(data, from) == Some(end - 1) <==> EndsAtZero(data, from, end)
  {
    if EndsAtZero(data, from, end) {
      FirstZeroIs(data, from, end - 1);
    }
    if FirstZero(data, from) == Some(end - 1) {
      var k: nat :| IsFirstZero(data, from, k);
      FirstZeroIs(data, from, k);
    }
  }

  lemma {:induction false} SkipsExactly(data: Bytes, from: nat, count: nat, len: nat, end: nat, cuts: seq<nat>)
    requires AreProperties(data, from, count, end, cuts)
    ensures SkipProperties(data, from, count, len) == Success(end)
    decreases count
  {
    if count > 0 {
      var rest := cuts[1..];
      assert IsCut(data, cuts, 0);
      forall i | 0 <= i < count - 1
        ensures IsCut(data, rest, i)
      {
        assert IsCut(data, cuts, i + 1);
      }
      SkipsExactly(data, cuts[1], count - 1, len, end, rest);
    }
  }

  lemma {:induction false} SkippedAreProperties(data: Bytes, from: nat, count: nat, len: nat) returns (cuts: seq<nat>)
    requires SkipProperties(data, from, count, len).Success?
    ensures AreProperties(data, from, count, SkipProperties(data, from, count, len).value, cuts)
    decreases count
  {
    cuts := [from];
    if count > 0 {
      var rest := SkippedAreProperties(data, from + 1 + data[from], count - 1, len);
      cuts := [from] + rest;
      forall i | 0 <= i < count
        ensures IsCut(data, cuts, i)
      {
        assert i > 0 ==> IsCut(data, rest, i - 1);
      }
    }
  }

  lemma {:induction false} SkipsPropertiesExactly(data: Bytes, from: nat, count: nat, len: nat, end: nat)
    ensures SkipProperties(data, from, count, len) == Success(end) <==> HasProperties(data, from, count, end)
  {
    if SkipProperties(data, from, count, len).Success? {
      var cuts := SkippedAreProperties(data, from, count, len);
    }
    if HasProperties(data, from, count, end) {
      var cuts :| AreProperties(data, from, count, end, cuts);
      SkipsExactly(data, from, count, len, end, cuts);
    }
  }

  lemma {:induction false} StringEndsExactly(data: Bytes, at: nat, min: nat, end: nat)
    requires min > 42 && at <= |data|
    ensures StringEnd(data, at, min) == Success(end) <==> EndsAtZero(data, at + min - 1, end)
  {
    if end > 0 {
      ZeroIsFirst(data, at + min - 1, end);
    }
  }

  lemma {:induction false} BlockEndsExactly(data: Bytes, at: nat, len: nat, t: BlockType)
    requires at + 42 <= |data| && data[at] == 0 && FromNumber(data[at + 33]) == Some(t)
    ensures BlockEnd(t, data, at) == Success(at + len) <==> IsBlock(data, at, len)
  {
    StringEndsExactly(data, at, 47, at + len);
    StringEndsExactly(data, at, 48, at + len);
    if at + 44 <= |data| {
      SkipsPropertiesExactly(data, at + 44, data[at + 43], |data| - at, at + len);
    }
  }

  /** The parser finds a block of this length exactly when one begins here. */
  lemma {:induction false} ParsesBlockExactly(data: Bytes, at: nat, len: nat)
    requires at <= |data|
    ensures ParseLicense(data, at) == Success(License(len)) <==> IsBlock(data, at, len)
  {
    if at + 42 <= |data| && data[at] == 0 && FromNumber(data[at + 33]).Some? {
      BlockEndsExactly(data, at, len, FromNumber(data[at + 33]).value);
    }
  }

  /** Why no block can be read. */
  lemma {:induction false} RejectsBlockFor(data: Bytes, at: nat)
    requires at <= |data|
    ensures var n, r := |data| - at, ParseLicense(data, at);
            if n < 42 then r == Failure(TooShort(n))
            else if data[at] != 0 then r == Failure(WrongKeyKind(data[at]))
            else
              match data[at + 33]
              case 0 => if n < 47 then r == Failure(TooShort(n)) else r.Failure? ==> r.error == NonterminatedString
              case 2 => if n < 48 then r == Failure(TooShort(n)) else r.Failure? ==> r.error == NonterminatedString
              case 8 => if n < 44 then r == Failure(TooShort(n)) else r.Failure? ==> r.error.TooShort?
              case 32 => r == Success(License(42))
              case t => r == Failure(UnknownBlockType(t))
  {
    if at + 44 <= |data| && data[at + 33] == 8 {
      SkipFailsShort(data, at + 44, data[at + 43], |data| - at);
    }
  }

  lemma {:induction false} SkipFailsShort(data: Bytes, pos: nat, count: nat, len: nat)
    ensures SkipProperties(data, pos, count, len).Failure? ==> SkipProperties(data, pos, count, len).error.TooShort?
    decreases count
  {
    if count > 0 && pos < |data| {
      SkipFailsShort(data, pos + 1 + data[pos], count - 1, len);
    }
  }

  // ----- A whole license, by what is found at each position

  /** Where block `k` begins. */
  ghost function Offset(at: nat, licenses: seq<License>, k: nat): nat
    requires k <= |licenses|
    decreases k
  {
    if k == 0 then at else Offset(at, licenses, k - 1) + licenses[k - 1].len
  }

  ghost predicate IsFound(table: Table, at: nat, license: License) {
    at < |table| && table[at].Success? && table[at].value.0 == license
  }

  ghost predicate Inside(table: Table, at: nat, outer: Option<Bounds>)
    requires at < |table| && table[at].Success?
  {
    outer.Some? ==> outer.value.start <= table[at].value.1.start && table[at].value.1.end <= outer.value.end
  }

  ghost predicate InTime(table: Table, at: nat, clock: Clock)
    requires at < |table| && table[at].Success?
  {
    clock.checkExpired ==> table[at].value.1.start <= clock.now <= table[at].value.1.end
  }

  /** The validity of the block before block `k`. */
  ghost function Around(table: Table, at: nat, outer: Option<Bounds>, licenses: seq<License>, k: nat): Option<Bounds>
    requires k <= |licenses|
  {
    if k == 0 then outer
    else
      var p := Offset(at, licenses, k - 1);
      if p < |table| && table[p].Success? then Some(table[p].value.1) else None
  }

  /** Block `k` is found, in time and inside the validity of the one before it. */
  ghost predicate Fits(table: Table, at: nat, clock: Clock, outer: Option<Bounds>, licenses: seq<License>, k: nat)
    requires k < |licenses|
  {
    var o := Offset(at, licenses, k);
    IsFound(table, o, licenses[k]) && InTime(table, o, clock) &&
    Inside(table, o, Around(table, at, outer, licenses, k))
  }

  ghost predicate AllFit(table: Table, at: nat, clock: Clock, outer: Option<Bounds>, licenses: seq<License>) {
    forall k :: 0 <= k < |licenses| ==> Fits(table, at, clock, outer, licenses, k)
  }

  lemma {:induction false} OffsetOfRest(at: nat, licenses: seq<License>, k: nat)
    requires 0 < k <= |licenses|
    ensures Offset(at, licenses, k) == Offset(at + licenses[0].len, licenses[1..], k - 1)
    decreases k
  {
    if k > 1 {
      OffsetOfRest(at, licenses, k - 1);
    }
  }

  lemma {:induction false} FitsInRest(
      table: Table, at: nat, clock: Clock, outer: Option<Bounds>, licenses: seq<License>, rest: seq<License>, k: nat)
    requires 0 < k < |licenses| && rest == licenses[1..] && IsFound(table, at, licenses[0])
    ensures Fits(table, at, clock, outer, licenses, k) <==>
            Fits(table, at + licenses[0].len, clock, Some(table[at].value.1), rest, k - 1)
  {
    OffsetOfRest(at, licenses, k);
    if k > 1 {
      OffsetOfRest(at, licenses, k - 1);
    }
  }

  /** Blocks fit when the first one does and the others fit behind it. */
  lemma {:induction false} AllFitUnfolds(
      table: Table, at: nat, clock: Clock, outer: Option<Bounds>, licenses: seq<License>, rest: seq<License>)
    requires licenses != [] && rest == licenses[1..] && IsFound(table, at, licenses[0])
    ensures AllFit(table, at, clock, outer, licenses) <==>
            Fits(table, at, clock, outer, licenses, 0) &&
            AllFit(table, at + licenses[0].len, clock, Some(table[at].value.1), rest)
  {
    var next, bounds := at + licenses[0].len, Some(table[at].value.1);
    forall k | 0 <= k < |rest|
      ensures Fits(table, next, clock, bounds, rest, k) <==> Fits(table, at, clock, outer, licenses, k + 1)
    {
      FitsInRest(table, at, clock, outer, licenses, rest, k + 1);
    }
    if Fits(table, at, clock, outer, licenses, 0) && AllFit(table, next, clock, bounds, rest) {
      forall k | 0 <= k < |licenses|
        ensures Fits(table, at, clock, outer, licenses, k)
      {
        assert k > 0 ==> Fits(table, next, clock, bounds, rest, k - 1);
      }
    }
  }

  lemma {:induction false} ParseUnfolds(
      table: Table, at: nat, count: nat, clock: Clock, outer: Option<Bounds>, first: License, rest: seq<License>)
    requires Sane(table) && at < |table| - 1 && count < 8 && IsFound(table, at, first)
    ensures ParseFrom(table, at, count, clock, outer) == Success([first] + rest) <==>
            InTime(table, at, clock) && Inside(table, at, outer) &&
            ParseFrom(table, at + first.len, count + 1, clock, Some(table[at].value.1)) == Success(rest)
  {
    assert ([first] + rest)[1..] == rest;
  }

  /** The blocks fit, and reach to the end. */
  ghost predicate Covers(table: Table, at: nat, clock: Clock, outer: Option<Bounds>, licenses: seq<License>) {
    Offset(at, licenses, |licenses|) == |table| - 1 && AllFit(table, at, clock, outer, licenses)
  }

  lemma {:induction false} CoversUnfolds(
      table: Table, at: nat, clock: Clock, outer: Option<Bounds>, licenses: seq<License>, first: License,
      rest: seq<License>)
    requires licenses == [first] + rest && IsFound(table, at, first)
    ensures Covers(table, at, clock, outer, licenses) <==>
            InTime(table, at, clock) && Inside(table, at, outer) &&
            Covers(table, at + first.len, clock, Some(table[at].value.1), rest)
  {
    AllFitUnfolds(table, at, clock, outer, licenses, rest);
    OffsetOfRest(at, licenses, |licenses|);
  }

  lemma {:induction false} NotParsed(
      table: Table, at: nat, count: nat, clock: Clock, outer: Option<Bounds>, licenses: seq<License>)
    requires at < |table| && count <= 8 && Sane(table) && licenses != []
    requires at == |table| - 1 || count == 8 || !IsFound(table, at, licenses[0])
    ensures ParseFrom(table, at, count, clock, outer) != Success(licenses)
    ensures count == 8 || !Covers(table, at, clock, outer, licenses)
  {
    if AllFit(table, at, clock, outer, licenses) {
      assert Fits(table, at, clock, outer, licenses, 0);
    }
  }

  lemma {:induction false} ParsesFittingExactly(
      table: Table, at: nat, count: nat, clock: Clock, outer: Option<Bounds>, licenses: seq<License>)
    requires at < |table| && count <= 8 && Sane(table)
    ensures ParseFrom(table, at, count, clock, outer) == Success(licenses) <==>
            Covers(table, at, clock, outer, licenses) && count + |licenses| <= 8
    decreases |table| - at
  {
    if licenses == [] {
    } else if at == |table| - 1 || count == 8 || !IsFound(table, at, licenses[0]) {
      NotParsed(table, at, count, clock, outer, licenses);
    } else {
      var first, rest := licenses[0], licenses[1..];
      assert licenses == [first] + rest;
      CoversUnfolds(table, at, clock, outer, licenses, first, rest);
      ParseUnfolds(table, at, count, clock, outer, first, rest);
      ParsesFittingExactly(table, at + first.len, count + 1, clock, Some(table[at].value.1), rest);
    }
  }

  /** Why parsing stops at a block, if it does. */
  ghost function Complaint(table: Table, at: nat, clock: Clock, outer: Option<Bounds>): Option<Error>
    requires at < |table| && table[at].Success?
  {
    if !InTime(table, at, clock) then Some(Expired(table[at].value.1))
    else if !Inside(table, at, outer) then Some(OutOfBounds(outer.value, table[at].value.1))
    else None
  }

  /** What fails behind blocks that fit, fails with them in front. */
  lemma {:induction false} FailsBehind(
      table: Table, at: nat, count: nat, clock: Clock, outer: Option<Bounds>, good: seq<License>, o: nat,
      around: Option<Bounds>, error: Error)
    requires Sane(table) && count + |good| <= 8 && AllFit(table, at, clock, outer, good)
    requires o == Offset(at, good, |good|) < |table| - 1 && around == Around(table, at, outer, good, |good|)
    requires ParseFrom(table, o, count + |good|, clock, around) == Failure(error)
    ensures at < |table| && ParseFrom(table, at, count, clock, outer) == Failure(error)
    decreases |good|
  {
    if good != [] {
      var rest := good[1..];
      assert Fits(table, at, clock, outer, good, 0);
      AllFitUnfolds(table, at, clock, outer, good, rest);
      OffsetOfRest(at, good, |good|);
      if rest != [] {
        OffsetOfRest(at, good, |good| - 1);
      }
      FailsBehind(table, at + good[0].len, count + 1, clock, Some(table[at].value.1), rest, o, around, error);
    }
  }

  // ----- The same on bytes

  /** Seconds since 1970. */
  ghost function StartOf(data: Bytes, at: nat): int
    requires at + 42 <= |data|
  {
    ReadBe(data[at + 34..at + 38]) + 0x50e2_2700
  }

  ghost function EndOf(data: Bytes, at: nat): int
    requires at + 42 <= |data|
  {
    ReadBe(data[at + 38..at + 42]) + 0x50e2_2700
  }

  /** Block `k` is one, is valid now if that is checked, and only while the one before it is. */
  ghost predicate Holds(data: Bytes, clock: Clock, licenses: seq<License>, k: nat)
    requires k < |licenses|
  {
    var o := Offset(1, licenses, k);
    && IsBlock(data, o, licenses[k].len)
    && (clock.checkExpired ==> StartOf(data, o) <= clock.now <= EndOf(data, o))
    && (k > 0 ==>
          var p := Offset(1, licenses, k - 1);
          IsBlock(data, p, licenses[k - 1].len) ==>
            StartOf(data, p) <= StartOf(data, o) && EndOf(data, o) <= EndOf(data, p))
  }

  ghost predicate AllHold(data: Bytes, clock: Clock, licenses: seq<License>) {
    forall k :: 0 <= k < |licenses| ==> Holds(data, clock, licenses, k)
  }

  lemma {:induction false} FoundIsBlock(data: Bytes, table: Table, at: nat, license: License)
    requires Tabulates(data, table)
    ensures IsFound(table, at, license) <==> IsBlock(data, at, license.len)
    ensures IsFound(table, at, license) ==> table[at].value.1 == Bounds(StartOf(data, at), EndOf(data, at))
  {
    if at <= |data| {
      ParsesBlockExactly(data, at, license.len);
      assert table[at] == Find(data, at);
    }
  }

  lemma {:induction false} HoldsIsFits(data: Bytes, table: Table, clock: Clock, licenses: seq<License>, k: nat)
    requires Tabulates(data, table) && k < |licenses|
    requires k > 0 ==> IsFound(table, Offset(1, licenses, k - 1), licenses[k - 1])
    ensures Holds(data, clock, licenses, k) <==> Fits(table, 1, clock, None, licenses, k)
  {
    FoundIsBlock(data, table, Offset(1, licenses, k), licenses[k]);
    if k > 0 {
      FoundIsBlock(data, table, Offset(1, licenses, k - 1), licenses[k - 1]);
    }
  }

  lemma {:induction false} AllHoldIsAllFit(data: Bytes, table: Table, clock: Clock, licenses: seq<License>, n: nat)
    requires Tabulates(data, table) && n <= |licenses|
    ensures (forall k :: 0 <= k < n ==> Holds(data, clock, licenses, k)) <==>
            (forall k :: 0 <= k < n ==> Fits(table, 1, clock, None, licenses, k))
    decreases n
  {
    if n > 0 {
      AllHoldIsAllFit(data, table, clock, licenses, n - 1);
      if forall k :: 0 <= k < n - 1 ==> Holds(data, clock, licenses, k) {
        assert n > 1 ==> Fits(table, 1, clock, None, licenses, n - 2);
        HoldsIsFits(data, table, clock, licenses, n - 1);
      }
    }
  }

  /** A license parses exactly when, behind a version of 0 or 1, its bytes are at most 8 blocks up to the end, each
      valid now, if that is checked, and no longer than the one before it. */
  lemma {:induction false} ParsesBytesExactly(data: Bytes, clock: Clock, licenses: seq<License>)
    requires data != []
    ensures Parse(data, clock) == Success(Licenses(data, licenses)) <==>
            data[0] <= 1 && |licenses| <= 8 && Offset(1, licenses, |licenses|) == |data| &&
            AllHold(data, clock, licenses)
  {
    var table := TableOf(data);
    ParsesFittingExactly(table, 1, 0, clock, None, licenses);
    AllHoldIsAllFit(data, table, clock, licenses, |licenses|);
  }

  lemma {:induction false} ParseStops(data: Bytes, table: Table, clock: Clock, good: seq<License>, o: nat, error: Error)
    requires data != [] && data[0] <= 1 && |good| < 8 && AllFit(table, 1, clock, None, good) && table == TableOf(data)
    requires o == Offset(1, good, |good|) < |table| - 1 && table[o].Success?
    requires Complaint(table, o, clock, Around(table, 1, None, good, |good|)) == Some(error)
    ensures Parse(data, clock) == Failure(error)
  {
    FailsBehind(table, 1, 0, clock, None, good, o, Around(table, 1, None, good, |good|), error);
  }

  /** An unknown version, a ninth block, and behind good blocks one that cannot be read. */
  lemma {:induction false} RefusesOther(data: Bytes, clock: Clock, good: seq<License>, o: nat)
    requires data != [] && |good| <= 8 && AllHold(data, clock, good) && o == Offset(1, good, |good|) < |data|
    ensures data[0] > 1 ==> Parse(data, clock) == Failure(UnsupportedVersion(data[0]))
    ensures data[0] <= 1 && |good| == 8 ==> Parse(data, clock) == Failure(TooManyBlocks(8))
    ensures data[0] <= 1 && |good| < 8 && ParseLicense(data, o).Failure? ==>
              Parse(data, clock) == Failure(ParseLicense(data, o).error)
  {
    var table := TableOf(data);
    var around := Around(table, 1, None, good, |good|);
    AllHoldIsAllFit(data, table, clock, good, |good|);
    assert table[o] == Find(data, o);
    if data[0] <= 1 && |good| == 8 {
      FailsBehind(table, 1, 0, clock, None, good, o, around, TooManyBlocks(8));
    } else if data[0] <= 1 && ParseLicense(data, o).Failure? {
      FailsBehind(table, 1, 0, clock, None, good, o, around, ParseLicense(data, o).error);
    }
  }

  lemma {:induction false} LastOfGood(data: Bytes, table: Table, clock: Clock, good: seq<License>, p: nat)
    requires good != [] && AllHold(data, clock, good) && Tabulates(data, table)
    requires p == Offset(1, good, |good| - 1)
    ensures AllFit(table, 1, clock, None, good) && p + 42 <= |data|
    ensures Around(table, 1, None, good, |good|) == Some(Bounds(StartOf(data, p), EndOf(data, p)))
  {
    AllHoldIsAllFit(data, table, clock, good, |good|);
    assert Holds(data, clock, good, |good| - 1);
    FoundIsBlock(data, table, p, good[|good| - 1]);
  }

  /** Behind blocks that hold, a block that is not valid now is refused as expired. */
  lemma {:induction false} RefusesExpired(data: Bytes, clock: Clock, good: seq<License>, o: nat, bad: License)
    requires data != [] && data[0] <= 1 && |good| < 8 && AllHold(data, clock, good)
    requires o == Offset(1, good, |good|) && IsBlock(data, o, bad.len)
    requires clock.checkExpired && (clock.now < StartOf(data, o) || EndOf(data, o) < clock.now)
    ensures Parse(data, clock) == Failure(Expired(Bounds(StartOf(data, o), EndOf(data, o))))
  {
    var table := TableOf(data);
    AllHoldIsAllFit(data, table, clock, good, |good|);
    FoundIsBlock(data, table, o, bad);
    ParseStops(data, table, clock, good, o, Expired(Bounds(StartOf(data, o), EndOf(data, o))));
  }

  /** One that is valid now, but not only while the block before it is, is refused as out of bounds. */
  lemma {:induction false} RefusesOutOfBounds(
      data: Bytes, clock: Clock, good: seq<License>, p: nat, o: nat, bad: License)
    requires data != [] && data[0] <= 1 && 0 < |good| < 8 && AllHold(data, clock, good)
    requires p == Offset(1, good, |good| - 1) && o == p + good[|good| - 1].len && IsBlock(data, o, bad.len)
    requires p + 42 <= |data| && (StartOf(data, o) < StartOf(data, p) || EndOf(data, p) < EndOf(data, o))
    requires clock.checkExpired ==> StartOf(data, o) <= clock.now <= EndOf(data, o)
    ensures Parse(data, clock) == Failure(OutOfBounds(Bounds(StartOf(data, p), EndOf(data, p)),
                                                      Bounds(StartOf(data, o), EndOf(data, o))))
  {
    var table := TableOf(data);
    LastOfGood(data, table, clock, good, p);
    FoundIsBlock(data, table, o, bad);
    ParseStops(data, table, clock, good, o, OutOfBounds(Bounds(StartOf(data, p), EndOf(data, p)),
                                                        Bounds(StartOf(data, o), EndOf(data, o))));
  }

  // ----- What a builder writes

  lemma {:induction false} HeadBytes(draft: Draft, head: Bytes, b: Bytes)
    requires |draft.key| == 32 && head == Head(draft) && head <= b
    ensures |head| == 42 && b[0] == 0 && b[1..33] == draft.key && b[33] == draft.t.Number()
    ensures b[34..38] == Be32(draft.notBefore) && b[38..42] == Be32(draft.notAfter)
  {
    assert head[1..33] == draft.key && head[34..38] == Be32(draft.notBefore) && head[38..42] == Be32(draft.notAfter);
    assert b[1..33] == head[1..33] && b[34..38] == head[34..38] && b[38..42] == head[38..42];
  }

  /** The bytes of a block that was built for an intermediate license, a server, or as ephemeral. */
  lemma {:induction false} BuiltBytes(draft: Draft, b: Bytes)
    requires IsDraft(draft) && b == Encode(draft)
    ensures |b| >= 42 && b[0] == 0 && b[1..33] == draft.key
    ensures b[33] == match draft.t { case Intermediate => 0 case Server => 2 case _ => 32 }
    ensures ReadBe(b[34..38]) == draft.notBefore && ReadBe(b[38..42]) == draft.notAfter
    ensures draft.t == Intermediate ==>
              |b| == 47 + |draft.issuer| && ReadBe(b[42..46]) == draft.maxClients && b[46..] == draft.issuer + [0]
    ensures draft.t == Server ==>
              && |b| == 48 + |draft.issuer| && b[42] == draft.licenseType
              && ReadBe(b[43..47]) == draft.maxClients && b[47..] == draft.issuer + [0]
    ensures draft.t == Ephemeral ==> |b| == 42
  {
    HeadBytes(draft, Head(draft), b);
    TailBytes(draft, Head(draft), b);
  }

  lemma {:induction false} TailBytes(draft: Draft, head: Bytes, b: Bytes)
    requires |head| == 42 && b == head + Numbers(draft) + Issuer(draft)
    requires draft.t == Intermediate || draft.t == Server || draft.t == Ephemeral
    ensures draft.t == Intermediate ==> b[42..46] == Be32(draft.maxClients) && b[46..] == draft.issuer + [0]
    ensures draft.t == Server ==>
              |b| > 47 && b[42] == draft.licenseType && b[43..47] == Be32(draft.maxClients) &&
              b[47..] == draft.issuer + [0]
    ensures draft.t == Ephemeral ==> |b| == 42
  {
  }
}

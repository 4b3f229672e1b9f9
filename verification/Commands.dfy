/** The text format of commands: reading it, and writing it. */
module Commands {
  import opened Wrappers

  const SPACE: byte := 32
  const PIPE: byte := 124
  const EQUALS: byte := 61
  const BACKSLASH: byte := 92

  /** Vertical tab, form feed, tab, carriage return, line feed or space. */
  predicate IsSpace(c: byte) {
    c == 11 || c == 12 || c == 9 || c == 13 || c == 10 || c == SPACE
  }

  predicate EndsName(c: byte) {
    c == SPACE || c == EQUALS || c == PIPE
  }

  predicate EndsValue(c: byte) {
    IsSpace(c) || c == PIPE
  }

  predicate IsAlphanumeric(c: byte) {
    48 <= c <= 57 || 65 <= c <= 90 || 97 <= c <= 122
  }

  // ----- Escapes

  const SLASH: byte := 47

  predicate IsEscaped(c: byte) {
    EndsValue(c) || c == BACKSLASH || c == SLASH
  }

  /** The byte that stands for `c` behind a backslash. */
  function Code(c: byte): byte {
    if c == 11 then 118
    else if c == 12 then 102
    else if c == 9 then 116
    else if c == 13 then 114
    else if c == 10 then 110
    else if c == PIPE then 112
    else if c == SPACE then 115
    else c
  }

  function EscapeByte(c: byte): Bytes {
    if IsEscaped(c) then [BACKSLASH, Code(c)] else [c]
  }

  function Escape(value: Bytes): Bytes
    decreases |value|
  {
    if value == [] then [] else EscapeByte(value[0]) + Escape(value[1..])
  }

  function UnescapeByte(c: byte): byte {
    if c == 118 then 11
    else if c == 102 then 12
    else if c == 116 then 9
    else if c == 114 then 13
    else if c == 110 then 10
    else if c == 112 then PIPE
    else if c == 115 then SPACE
    else c
  }

  /** A lone backslash at the end stands for nothing. */
  function Unescape(raw: Bytes): Bytes
    decreases |raw|
  {
    if raw == [] then []
    else if raw[0] != BACKSLASH then [raw[0]] + Unescape(raw[1..])
    else if |raw| == 1 then []
    else [UnescapeByte(raw[1])] + Unescape(raw[2..])
  }

  function Escapes(raw: Bytes): nat
    decreases |raw|
  {
    if raw == [] then 0
    else if raw[0] != BACKSLASH then Escapes(raw[1..])
    else if |raw| == 1 then 1
    else 1 + Escapes(raw[2..])
  }

  /** Every escape sequence makes the value one byte shorter; without one it stands for itself. */
  lemma {:induction false} UnescapedLength(raw: Bytes)
    ensures |Unescape(raw)| == |raw| - Escapes(raw)
    ensures Escapes(raw) == 0 ==> Unescape(raw) == raw
    decreases |raw|
  {
    if raw != [] {
      if raw[0] != BACKSLASH {
        UnescapedLength(raw[1..]);
      } else if |raw| > 1 {
        UnescapedLength(raw[2..]);
      }
    }
  }

  /** An escaped byte is a harmless byte, or a backslash and a byte that is no separator. */
  lemma {:induction false} EscapedByte(c: byte)
    ensures var e := EscapeByte(c);
            if e == [c] then !EndsValue(c) && c != BACKSLASH
            else e == [BACKSLASH, Code(c)] && UnescapeByte(Code(c)) == c && !EndsValue(Code(c))
  {
  }

  /** The escape sequences: tab, line feed, vertical tab, form feed, carriage return, space, slash, backslash and
      pipe are written as a backslash and t, n, v, f, r, s, themselves and p. */
  lemma {:induction false} EscapeTable(c: byte)
    ensures EscapeByte(c) ==
            match c
            case 9 => [92, 116]
            case 10 => [92, 110]
            case 11 => [92, 118]
            case 12 => [92, 102]
            case 13 => [92, 114]
            case 32 => [92, 115]
            case 47 => [92, 47]
            case 92 => [92, 92]
            case 124 => [92, 112]
            case _ => [c]
    ensures Unescape([92, c]) ==
            match c
            case 116 => [9]
            case 110 => [10]
            case 118 => [11]
            case 102 => [12]
            case 114 => [13]
            case 115 => [32]
            case 112 => [124]
            case _ => [c]
  {
    assert [92, c][2..] == [];
  }

  lemma {:induction false} UnescapeUndoesEscape(value: Bytes)
    ensures Unescape(Escape(value)) == value
    decreases |value|
  {
    if value != [] {
      UnescapeUndoesEscape(value[1..]);
      EscapedByte(value[0]);
      UnescapeOne(EscapeByte(value[0]), value[0], Escape(value[1..]));
      assert value == [value[0]] + value[1..];
    }
  }

  lemma {:induction false} UnescapeOne(e: Bytes, c: byte, rest: Bytes)
    requires if e == [c] then c != BACKSLASH else |e| == 2 && e[0] == BACKSLASH && UnescapeByte(e[1]) == c
    ensures Unescape(e + rest) == [c] + Unescape(rest)
  {
    assert (e + rest)[|e|..] == rest;
  }

  // ----- Reading

  datatype Value = Value(raw: Bytes, escapes: nat) {
    function Meaning(): Bytes {
      if escapes == 0 then raw else Unescape(raw)
    }

    /** Decode the escapes; the slow path. */
    method DoUnescape() returns (r: Bytes)
      ensures r == Unescape(raw)
    {
      r := [];
      var i := 0;
      while i < |raw|
        invariant i <= |raw| && Unescape(raw) == r + Unescape(raw[i..])
      {
        assert raw[i..][1..] == raw[i + 1..];
        if raw[i] == BACKSLASH {
          i := i + 1;
          if i == |raw| {
            return;
          }
          assert raw[i - 1..][2..] == raw[i + 1..];
          r := r + [UnescapeByte(raw[i])];
        } else {
          r := r + [raw[i]];
        }
        i := i + 1;
      }
    }

    /** The value, without copying it when nothing is escaped. */
    method Get() returns (r: Bytes)
      requires escapes == Escapes(raw)
      ensures r == Unescape(raw) && |r| == |raw| - escapes
    {
      UnescapedLength(raw);
      if escapes == 0 {
        r := raw;
      } else {
        r := DoUnescape();
      }
    }
  }

  datatype Item = Argument(name: Bytes, value: Value) | NextCommand

  function Skip(s: Bytes): (r: Bytes)
    ensures |r| <= |s| && (r != [] ==> !IsSpace(r[0]))
    decreases |s|
  {
    if s != [] && IsSpace(s[0]) then Skip(s[1..]) else s
  }

  function NameLength(s: Bytes): (n: nat)
    ensures n <= |s|
    decreases |s|
  {
    if s == [] || EndsName(s[0]) then 0 else 1 + NameLength(s[1..])
  }

  /** A backslash hides the byte after it, but not a separator. */
  function ValueLength(s: Bytes): (n: nat)
    ensures n <= |s|
    decreases |s|
  {
    if s == [] || EndsValue(s[0]) then 0
    else if s[0] != BACKSLASH then 1 + ValueLength(s[1..])
    else if |s| == 1 || EndsValue(s[1]) then 1
    else 2 + ValueLength(s[2..])
  }

  datatype Reading = End | Found(item: Item, rest: Bytes)

  /** The next item of the text; what is left is always shorter. */
  function NextItem(s: Bytes): (r: Reading)
    ensures r.Found? ==> |r.rest| < |s|
  {
    NextOf(Skip(s))
  }

  function NextOf(t: Bytes): (r: Reading)
    requires t != [] ==> !IsSpace(t[0])
    ensures r.Found? ==> |r.rest| < |t|
  {
    if t == [] then End
    else if t[0] == PIPE then Found(NextCommand, t[1..])
    else ArgumentOf(t)
  }

  function ArgumentOf(t: Bytes): (r: Reading)
    requires t != [] && t[0] != PIPE && t[0] != SPACE
    ensures r.Found? && |r.rest| < |t|
  {
    var n := NameLength(t);
    if n == |t| || t[n] != EQUALS then Found(Argument(t[..n], Value([], 0)), t[n..])
    else
      var k := ValueLength(t[n + 1..]);
      Found(Argument(t[..n], Value(t[n + 1..n + 1 + k], Escapes(t[n + 1..n + 1 + k]))), t[n + 1 + k..])
  }

  lemma {:induction false} Shifted(data: Bytes, start: nat, i: nat, j: nat)
    requires start + i <= start + j <= |data|
    ensures data[start..][i..j] == data[start + i..start + j]
    ensures data[start..][i..] == data[start + i..] && data[start..][j..] == data[start + j..]
  {
  }

  lemma {:induction false} NameAt(data: Bytes, start: nat, at: nat)
    requires start < |data| && data[start] != PIPE && data[start] != SPACE
    requires at == start + NameLength(data[start..]) && (at == |data| || data[at] != EQUALS)
    ensures ArgumentOf(data[start..]) == Found(Argument(data[start..at], Value([], 0)), data[at..])
  {
    Shifted(data, start, 0, at - start);
  }

  /** Reading an argument with a value, given where its parts are. */
  lemma {:induction false} ArgumentWithValue(t: Bytes, name: Bytes, tail: Bytes, raw: Bytes, rest: Bytes)
    requires t != [] && t[0] != PIPE && t[0] != SPACE
    requires NameLength(t) == |name| < |t| && t[|name|] == EQUALS && t[..|name|] == name && t[|name| + 1..] == tail
    requires ValueLength(tail) == |raw| <= |tail| && tail[..|raw|] == raw && tail[|raw|..] == rest
    ensures ArgumentOf(t) == Found(Argument(name, Value(raw, Escapes(raw))), rest)
  {
    var n, k := |name|, |raw|;
    Shifted(t, n + 1, 0, k);
  }

  lemma {:induction false} ArgumentAt(data: Bytes, start: nat, at: nat, end: nat)
    requires start < |data| && data[start] != PIPE && data[start] != SPACE
    requires at == start + NameLength(data[start..]) && at < |data| && data[at] == EQUALS
    requires end == at + 1 + ValueLength(data[at + 1..])
    ensures ArgumentOf(data[start..]) ==
            Found(Argument(data[start..at], Value(data[at + 1..end], Escapes(data[at + 1..end]))), data[end..])
  {
    Shifted(data, start, 0, at - start);
    Shifted(data, start, at - start + 1, at - start + 1);
    Shifted(data, at + 1, 0, end - at - 1);
    ArgumentWithValue(data[start..], data[start..at], data[at + 1..], data[at + 1..end], data[end..]);
  }

  // ----- What is read, by position

  /** Tab, line feed, vertical tab, form feed, carriage return and space. */
  predicate White(c: byte) {
    9 <= c <= 13 || c == 32
  }

  lemma {:induction false} SkipsWhite(s: Bytes, i: nat)
    requires i <= |s| && (forall x :: 0 <= x < i ==> White(s[x])) && (i < |s| ==> !White(s[i]))
    ensures Skip(s) == s[i..]
    decreases i
  {
    if i > 0 {
      SkipsWhite(s[1..], i - 1);
    }
  }

  lemma {:induction false} NameEndsAt(s: Bytes, n: nat)
    requires n <= |s| && forall x :: 0 <= x < n ==> s[x] != 32 && s[x] != 61 && s[x] != 124
    requires n < |s| ==> s[n] == 32 || s[n] == 61 || s[n] == 124
    ensures NameLength(s) == n
    decreases n
  {
    if n > 0 {
      NameEndsAt(s[1..], n - 1);
    }
  }

  /** A backslash hides no white space and no pipe, so the first of them ends the value. */
  lemma {:induction false} ValueEndsAt(s: Bytes, n: nat)
    requires n <= |s| && forall x :: 0 <= x < n ==> !White(s[x]) && s[x] != 124
    requires n < |s| ==> White(s[n]) || s[n] == 124
    ensures ValueLength(s) == n
    decreases n
  {
    if n > 0 {
      if s[0] != BACKSLASH || n == 1 {
        ValueEndsAt(s[1..], n - 1);
      } else {
        ValueEndsAt(s[2..], n - 2);
      }
    }
  }

  /** What is left is white, or begins with a pipe behind white space. */
  lemma {:induction false} ReadsEndOrPipe(s: Bytes, i: nat)
    requires i <= |s| && (forall x :: 0 <= x < i ==> White(s[x])) && (i < |s| ==> s[i] == 124)
    ensures NextItem(s) == if i == |s| then End else Found(NextCommand, s[i + 1..])
  {
    SkipsWhite(s, i);
    if i < |s| {
      Shifted(s, i, 1, 1);
    }
  }

  /** An argument from `i` on: its name ends at the first space, equals sign or pipe, at `j`. Without an equals sign
      there it has no value, else the value ends at the first white space or pipe, at `k`. */
  lemma {:induction false} ReadsArgument(s: Bytes, i: nat, j: nat, k: nat)
    requires i < |s| && (forall x :: 0 <= x < i ==> White(s[x])) && !White(s[i]) && s[i] != 124
    requires i <= j <= |s| && (forall x :: i <= x < j ==> s[x] != 32 && s[x] != 61 && s[x] != 124)
    requires j < |s| ==> s[j] == 32 || s[j] == 61 || s[j] == 124
    requires j < |s| && s[j] == 61 ==>
               && j < k <= |s| && (forall x :: j < x < k ==> !White(s[x]) && s[x] != 124)
               && (k < |s| ==> White(s[k]) || s[k] == 124)
    ensures NextItem(s) ==
            if j < |s| && s[j] == 61 then
              Found(Argument(s[i..j], Value(s[j + 1..k], Escapes(s[j + 1..k]))), s[k..])
            else
              Found(Argument(s[i..j], Value([], 0)), s[j..])
  {
    SkipsWhite(s, i);
    NameEndsAt(s[i..], j - i);
    if j < |s| && s[j] == 61 {
      ValueEndsAt(s[j + 1..], k - j - 1);
      ArgumentAt(s, i, j, k);
    } else {
      NameAt(s, i, j);
    }
  }

  function AllItems(s: Bytes): seq<Item>
    decreases |s|
  {
    match NextItem(s)
    case End => []
    case Found(item, rest) => [item] + AllItems(rest)
  }

  /** How long the command name is: letters and digits up to a space or the end, else none. */
  function Letters(s: Bytes): (n: nat)
    ensures n <= |s|
    decreases |s|
  {
    if s == [] || !IsAlphanumeric(s[0]) then 0 else 1 + Letters(s[1..])
  }

  function CommandNameLength(s: Bytes): (n: nat)
    ensures n <= |s|
  {
    var n := Letters(s);
    if n == |s| || s[n] == SPACE then n else 0
  }

  lemma {:induction false} LettersUpTo(s: Bytes, n: nat)
    requires n <= |s| && forall x :: 0 <= x < n ==> IsAlphanumeric(s[x])
    requires n < |s| ==> !IsAlphanumeric(s[n])
    ensures Letters(s) == n
    decreases n
  {
    if n > 0 {
      LettersUpTo(s[1..], n - 1);
    }
  }

  /** The first byte that is neither digit nor letter is a space or nothing, and ends the name; else there is none. */
  lemma {:induction false} CommandNameEndsAt(s: Bytes, n: nat)
    requires n <= |s|
    requires forall x :: 0 <= x < n ==> 48 <= s[x] <= 57 || 65 <= s[x] <= 90 || 97 <= s[x] <= 122
    requires n < |s| ==> !(48 <= s[n] <= 57 || 65 <= s[n] <= 90 || 97 <= s[n] <= 122)
    ensures CommandNameLength(s) == if n == |s| || s[n] == 32 then n else 0
  {
    LettersUpTo(s, n);
  }

  /** No escape sequence is cut off at the end. */
  predicate Closed(raw: Bytes)
    decreases |raw|
  {
    if raw == [] then true
    else if raw[0] != BACKSLASH then Closed(raw[1..])
    else |raw| > 1 && Closed(raw[2..])
  }

  lemma {:induction false} EscapesOfNothing(raw: Bytes)
    requires raw == []
    ensures Escapes(raw) == 0 && Closed(raw)
  {
  }

  lemma {:induction false} EscapesAppend(raw: Bytes, more: Bytes)
    requires Closed(raw)
    ensures Escapes(raw + more) == Escapes(raw) + Escapes(more)
    ensures Closed(more) ==> Closed(raw + more)
    decreases |raw|
  {
    if raw == [] {
      assert raw + more == more;
    } else {
      var n := if raw[0] == BACKSLASH then 2 else 1;
      EscapesAppend(raw[n..], more);
      assert (raw + more)[n..] == raw[n..] + more;
    }
  }

  /** The value from `start` has been read up to `i`, with so many escape sequences. */
  ghost predicate Scanned(data: Bytes, start: nat, i: nat, escapes: nat) {
    && start <= i <= |data|
    && Closed(data[start..i]) && Escapes(data[start..i]) == escapes
    && ValueLength(data[start..]) == i - start + ValueLength(data[i..])
  }

  lemma {:induction false} ScanBegins(data: Bytes, start: nat)
    requires start <= |data|
    ensures Scanned(data, start, start, 0)
  {
    EscapesOfNothing(data[start..start]);
  }

  lemma {:induction false} ScanPlain(data: Bytes, start: nat, i: nat, escapes: nat)
    requires Scanned(data, start, i, escapes) && i < |data| && !EndsValue(data[i]) && data[i] != BACKSLASH
    ensures Scanned(data, start, i + 1, escapes)
  {
    var more := [data[i]];
    EscapesOfNothing(more[1..]);
    assert Escapes(more) == 0 && Closed(more);
    EscapesAppend(data[start..i], more);
    assert data[start..i + 1] == data[start..i] + more;
    assert data[i..][1..] == data[i + 1..];
  }

  lemma {:induction false} ScanEscape(data: Bytes, start: nat, i: nat, escapes: nat, j: nat)
    requires Scanned(data, start, i, escapes) && i < |data| - 1 && data[i] == BACKSLASH && !EndsValue(data[i + 1])
    requires j == i + 2
    ensures Scanned(data, start, j, escapes + 1)
  {
    var more := [BACKSLASH, data[i + 1]];
    EscapesOfNothing(more[2..]);
    assert Escapes(more) == 1 && Closed(more);
    EscapesAppend(data[start..i], more);
    assert data[start..i + 2] == data[start..i] + more;
    assert data[i..][2..] == data[i + 2..];
  }

  lemma {:induction false} ScanLone(data: Bytes, start: nat, i: nat, escapes: nat, j: nat)
    requires Scanned(data, start, i, escapes) && i < |data| && data[i] == BACKSLASH &&
             (i + 1 == |data| || EndsValue(data[i + 1]))
    requires j == i + 1
    ensures j == start + ValueLength(data[start..]) && Escapes(data[start..j]) == escapes + 1
  {
    EscapesAppend(data[start..i], [BACKSLASH]);
    assert data[start..i + 1] == data[start..i] + [BACKSLASH];
  }

  lemma {:induction false} ScanEnd(data: Bytes, start: nat, i: nat, escapes: nat)
    requires Scanned(data, start, i, escapes) && (i == |data| || EndsValue(data[i]))
    ensures i == start + ValueLength(data[start..]) && Escapes(data[start..i]) == escapes
  {
  }

  /** Where the value that starts here ends, and how many escape sequences it has. */
  method ScanValue(data: Bytes, start: nat) returns (end: nat, escapes: nat)
    requires start <= |data|
    ensures end == start + ValueLength(data[start..]) && end <= |data|
    ensures escapes == Escapes(data[start..end])
  {
    end, escapes := start, 0;
    ScanBegins(data, start);
    while end < |data|
      invariant Scanned(data, start, end, escapes)
    {
      if EndsValue(data[end]) {
        break;
      }
      if data[end] == BACKSLASH {
        ghost var i, n := end, escapes;
        escapes := escapes + 1;
        end := end + 1;
        if end == |data| || EndsValue(data[end]) {
          ScanLone(data, start, i, n, end);
          return;
        }
        ScanEscape(data, start, i, n, end + 1);
      } else {
        ScanPlain(data, start, end, escapes);
      }
      end := end + 1;
    }
    ScanEnd(data, start, end, escapes);
  }

  /** Where the name that starts here ends. */
  method ScanName(data: Bytes, start: nat) returns (end: nat)
    requires start <= |data|
    ensures end == start + NameLength(data[start..]) && end <= |data|
  {
    end := start;
    while end < |data| && !EndsName(data[end])
      invariant start <= end <= |data| && NameLength(data[start..]) == end - start + NameLength(data[end..])
    {
      assert data[end..][1..] == data[end + 1..];
      end := end + 1;
    }
  }

  /** The argument that starts here, and where it ends. */
  method ScanArgument(data: Bytes, start: nat) returns (item: Item, end: nat)
    requires start < |data| && data[start] != PIPE && data[start] != SPACE
    ensures end <= |data| && ArgumentOf(data[start..]) == Found(item, data[end..])
  {
    var at := ScanName(data, start);
    if at == |data| || data[at] != EQUALS {
      NameAt(data, start, at);
      return Argument(data[start..at], Value([], 0)), at;
    }
    var escapes;
    end, escapes := ScanValue(data, at + 1);
    ArgumentAt(data, start, at, end);
    item := Argument(data[start..at], Value(data[at + 1..end], escapes));
  }

  class CommandParser {
    const data: Bytes
    var index: nat

    predicate Valid()
      reads this
    {
      index <= |data|
    }

    /** The parser stands behind the command name. */
    constructor (data: Bytes)
      ensures this.data == data && Valid() && index == CommandNameLength(data)
    {
      this.data := data;
      var nameEnd := 0;
      while nameEnd < |data|
        invariant nameEnd <= |data| && Letters(data) == nameEnd + Letters(data[nameEnd..])
      {
        if !IsAlphanumeric(data[nameEnd]) {
          if data[nameEnd] == SPACE {
            break;
          }
          nameEnd := 0;
          break;
        }
        assert data[nameEnd..][1..] == data[nameEnd + 1..];
        nameEnd := nameEnd + 1;
      }
      index := nameEnd;
    }

    method SkipSpace()
      requires Valid()
      modifies this
      ensures Valid() && data[index..] == Skip(data[old(index)..])
    {
      while index < |data| && IsSpace(data[index])
        invariant Valid() && Skip(data[index..]) == Skip(data[old(index)..])
      {
        assert data[index..][1..] == data[index + 1..];
        index := index + 1;
      }
    }

    /** The next argument or separator. */
    method Next() returns (item: Option<Item>)
      requires Valid()
      modifies this
      ensures Valid()
      ensures match NextItem(data[old(index)..])
              case End => item == None
              case Found(next, rest) => item == Some(next) && data[index..] == rest
    {
      SkipSpace();
      if index == |data| {
        return None;
      }
      if data[index] == PIPE {
        assert data[index..][1..] == data[index + 1..];
        index := index + 1;
        return Some(NextCommand);
      }
      assert data[index..][0] == data[index];
      var argument, end := ScanArgument(data, index);
      index := end;
      item := Some(argument);
    }
  }

  // ----- Writing

  /** What is written: an argument with any value, or the start of a new part. */
  datatype OutItem = OutArgument(name: Bytes, value: Bytes) | NewPart

  function ArgumentText(name: Bytes, value: Bytes): Bytes {
    if value == [] then name else name + [EQUALS] + Escape(value)
  }

  /** Arguments are separated by a space, except behind a pipe and at the very beginning. */
  function Separator(content: Bytes): Bytes {
    if content != [] && content[|content| - 1] != PIPE then [SPACE] else []
  }

  function Append(content: Bytes, item: OutItem): Bytes {
    match item
    case NewPart => content + [PIPE]
    case OutArgument(name, value) => content + Separator(content) + ArgumentText(name, value)
  }

  lemma {:induction false} TextAppended(start: Bytes, name: Bytes, value: Bytes)
    ensures start + ArgumentText(name, value) ==
            if value == [] then start + name else start + name + [EQUALS] + Escape(value)
  {
  }

  /** The text after the name and the first `n` items have been written. */
  function Written(name: Bytes, items: seq<OutItem>, n: nat): Bytes
    requires n <= |items|
    decreases n
  {
    if n == 0 then name else Append(Written(name, items, n - 1), items[n - 1])
  }

  class OutCommand {
    var content: Bytes

    constructor (name: Bytes)
      ensures content == Written(name, [], 0)
    {
      content := name;
    }

    method WriteEscaped(buf: Bytes)
      modifies this
      ensures content == old(content) + Escape(buf)
    {
      var i := 0;
      while i < |buf|
        invariant i <= |buf| && content + Escape(buf[i..]) == old(content) + Escape(buf)
      {
        assert buf[i..][1..] == buf[i + 1..];
        content := content + EscapeByte(buf[i]);
        i := i + 1;
      }
    }

    method WriteSeparator()
      modifies this
      ensures content == old(content) + Separator(old(content))
    {
      if (content == [] || content[|content| - 1] != PIPE) && content != [] {
        content := content + [SPACE];
      }
    }

    method WriteBinArg(name: Bytes, value: Bytes)
      modifies this
      ensures content == Append(old(content), OutArgument(name, value))
      ensures var start := if old(content) == [] || old(content)[|old(content)| - 1] == 124 then [] else [32];
              content == old(content) + start + name + if value == [] then [] else [61] + Escape(value)
    {
      WriteSeparator();
      ghost var start := content;
      content := content + name;
      if value != [] {
        content := content + [EQUALS];
        WriteEscaped(value);
      }
      TextAppended(start, name, value);
    }

    /** `value` is the text of the formatted value. */
    method WriteArg(name: Bytes, value: Bytes)
      modifies this
      ensures content == Append(old(content), OutArgument(name, value))
    {
      WriteSeparator();
      ghost var start := content;
      content := content + name + [EQUALS];
      var len := |content|;
      WriteEscaped(value);
      EscapeLength(value);
      if |content| == len {
        content := content[..len - 1];
        assert content == start + name;
      }
      TextAppended(start, name, value);
    }

    method StartNewPart()
      modifies this
      ensures content == Append(old(content), NewPart) == old(content) + [124]
    {
      content := content + [PIPE];
    }
  }

  lemma {:induction false} EscapeLength(value: Bytes)
    ensures |Escape(value)| >= |value|
    decreases |value|
  {
    if value != [] {
      EscapeLength(value[1..]);
    }
  }

  // ----- Reading what was written

  /** A name the format can express: without space, equals sign and pipe, and not beginning with
      white space. An argument without a name needs a value. */
  ghost predicate Expressible(item: OutItem) {
    item.OutArgument? ==>
      && (forall k :: 0 <= k < |item.name| ==> !EndsName(item.name[k]))
      && (item.name != [] ==> !IsSpace(item.name[0]))
      && (item.name != [] || item.value != [])
  }

  /** What the reader makes of an item. */
  function AsRead(item: OutItem): Item {
    match item
    case NewPart => NextCommand
    case OutArgument(name, value) => Argument(name, Value(Escape(value), Escapes(Escape(value))))
  }

  function FirstText(item: OutItem, first: bool): Bytes {
    match item
    case NewPart => [PIPE]
    case OutArgument(name, value) => (if first then [] else [SPACE]) + ArgumentText(name, value)
  }

  /** The text of the items behind the command name, or behind a pipe. */
  function Texts(items: seq<OutItem>, first: bool): Bytes
    decreases |items|
  {
    if items == [] then [] else FirstText(items[0], first) + Texts(items[1..], items[0].NewPart?)
  }

  lemma {:induction false} NameStops(name: Bytes, rest: Bytes)
    requires forall k :: 0 <= k < |name| ==> !EndsName(name[k])
    requires rest != [] ==> EndsName(rest[0])
    ensures NameLength(name + rest) == |name|
    decreases |name|
  {
    if name == [] {
      assert name + rest == rest;
    } else {
      NameStops(name[1..], rest);
      assert (name + rest)[1..] == name[1..] + rest;
    }
  }

  lemma {:induction false} ValueStops(value: Bytes, rest: Bytes)
    requires rest != [] ==> EndsValue(rest[0])
    ensures ValueLength(Escape(value) + rest) == |Escape(value)|
    decreases |value|
  {
    if value == [] {
      assert Escape(value) + rest == rest;
    } else {
      EscapedByte(value[0]);
      ValueStops(value[1..], rest);
      var one, more := EscapeByte(value[0]), Escape(value[1..]);
      ValueOne(one, value[0], more + rest);
      Assoc(one, more, rest);
    }
  }

  lemma {:induction false} ValueOne(e: Bytes, c: byte, rest: Bytes)
    requires if e == [c] then !EndsValue(c) && c != BACKSLASH else |e| == 2 && e[0] == BACKSLASH && !EndsValue(e[1])
    ensures ValueLength(e + rest) == |e| + ValueLength(rest)
  {
    assert (e + rest)[|e|..] == rest;
  }

  /** An argument is read as it was written, up to the separator behind it. */
  lemma {:induction false} ReadArgument(item: OutItem, rest: Bytes)
    requires item.OutArgument? && Expressible(item) && (rest != [] ==> rest[0] == SPACE || rest[0] == PIPE)
    ensures var text := ArgumentText(item.name, item.value);
            text != [] && !IsSpace((text + rest)[0]) && NextOf(text + rest) == Found(AsRead(item), rest)
  {
    var name, value := item.name, item.value;
    var text := ArgumentText(name, value) + rest;
    assert text[0..] == text && (name != [] ==> text[0] == name[0]);
    if value == [] {
      NameStops(name, rest);
      assert text[0..|name|] == name && text[|name|..] == rest;
      NameAt(text, 0, |name|);
    } else {
      ReadValue(name, Escape(value), rest, value, text);
    }
  }

  lemma {:induction false} ReadValue(name: Bytes, raw: Bytes, rest: Bytes, value: Bytes, text: Bytes)
    requires raw == Escape(value) && text == name + [EQUALS] + raw + rest && text[0] != PIPE && text[0] != SPACE
    requires forall k :: 0 <= k < |name| ==> !EndsName(name[k])
    requires rest != [] ==> rest[0] == SPACE || rest[0] == PIPE
    ensures ArgumentOf(text) == Found(Argument(name, Value(raw, Escapes(raw))), rest)
  {
    var tail := raw + rest;
    assert text == name + ([EQUALS] + tail);
    NameStops(name, [EQUALS] + tail);
    ValueStops(value, rest);
    ArgumentWithValue(text, name, tail, raw, rest);
  }

  lemma {:induction false} TextsBegin(items: seq<OutItem>)
    ensures Texts(items, false) != [] ==> Texts(items, false)[0] == SPACE || Texts(items, false)[0] == PIPE
  {
  }

  function AsReadAll(items: seq<OutItem>): (r: seq<Item>)
    ensures |r| == |items| && forall k :: 0 <= k < |items| ==> r[k] == AsRead(items[k])
  {
    seq(|items|, k requires 0 <= k < |items| => AsRead(items[k]))
  }

  lemma {:induction false} SkipOne(t: Bytes, first: bool)
    requires t != [] && !IsSpace(t[0])
    ensures NextItem((if first then [] else [SPACE]) + t) == NextOf(t)
  {
    if first {
      assert [] + t == t;
    } else {
      assert ([SPACE] + t)[1..] == t;
      assert Skip([SPACE] + t) == Skip(t);
    }
  }

  /** The first item of the text is read, and what is left is the text of the others. */
  lemma {:induction false} ReadFirst(item: OutItem, first: bool, rest: Bytes, text: Bytes)
    requires Expressible(item) && (item.OutArgument? && rest != [] ==> rest[0] == SPACE || rest[0] == PIPE)
    requires text == FirstText(item, first) + rest
    ensures NextItem(text) == Found(AsRead(item), rest)
  {
    if item.NewPart? {
      ReadPart(text, rest);
    } else {
      var argument := ArgumentText(item.name, item.value);
      ReadArgument(item, rest);
      Assoc(if first then [] else [SPACE], argument, rest);
      SkipOne(argument + rest, first);
    }
  }

  lemma {:induction false} ReadPart(text: Bytes, rest: Bytes)
    requires text == [PIPE] + rest
    ensures NextItem(text) == Found(NextCommand, rest)
  {
    assert text[1..] == rest;
  }

  lemma {:induction false} ReadTexts(items: seq<OutItem>, first: bool)
    requires forall k :: 0 <= k < |items| ==> Expressible(items[k])
    ensures AllItems(Texts(items, first)) == AsReadAll(items)
    decreases |items|
  {
    if items != [] {
      var rest := Texts(items[1..], items[0].NewPart?);
      ReadTexts(items[1..], items[0].NewPart?);
      TextsBegin(items[1..]);
      ReadFirst(items[0], first, rest, Texts(items, first));
      assert AsReadAll(items) == [AsRead(items[0])] + AsReadAll(items[1..]);
    }
  }

  // ----- Whole commands

  /** For every argument of every text, the value read without unescaping where nothing is
      escaped is the unescaped one, and it is one byte shorter for every escape sequence. */
  lemma {:induction false} FastPathAgrees(s: Bytes, k: nat)
    requires k < |AllItems(s)| && AllItems(s)[k].Argument?
    ensures var value := AllItems(s)[k].value;
            value.Meaning() == Unescape(value.raw) && |Unescape(value.raw)| == |value.raw| - value.escapes
    decreases |s|
  {
    match NextItem(s)
    case Found(item, rest) =>
      if k > 0 {
        FastPathAgrees(rest, k - 1);
      } else {
        var t := Skip(s);
        assert item == ArgumentOf(t).item;
        UnescapedLength(item.value.raw);
        EscapesOfNothing([]);
      }
  }

  /** What is read stands for what was written. */
  lemma {:induction false} ReadMeansWritten(item: OutItem)
    requires item.OutArgument?
    ensures AsRead(item).name == item.name && AsRead(item).value.Meaning() == item.value
  {
    UnescapeUndoesEscape(item.value);
    UnescapedLength(Escape(item.value));
  }

  lemma {:induction false} TextsOneMore(items: seq<OutItem>, item: OutItem, first: bool, text: Bytes)
    requires text == FirstText(item, if items == [] then first else items[|items| - 1].NewPart?)
    ensures Texts(items + [item], first) == Texts(items, first) + text
    decreases |items|
  {
    var all := items + [item];
    if items == [] {
      assert all == [item] && all[1..] == [];
      assert text + [] == text && [] + text == text;
    } else {
      var rest := items[1..];
      assert all[0] == items[0] && all[1..] == rest + [item];
      TextsOneMore(rest, item, items[0].NewPart?, text);
      Assoc(FirstText(items[0], first), Texts(rest, items[0].NewPart?), text);
    }
  }

  lemma {:induction false} EscapeEndsPlain(value: Bytes)
    requires value != []
    ensures Escape(value) != [] && Escape(value)[|Escape(value)| - 1] != PIPE
    decreases |value|
  {
    EscapedByte(value[0]);
    if |value| > 1 {
      EscapeEndsPlain(value[1..]);
    }
  }

  /** What is written ends in a pipe exactly behind a new part. */
  lemma {:induction false} AppendEnds(content: Bytes, item: OutItem)
    requires content != [] && Expressible(item)
    ensures var r := Append(content, item); r != [] && (r[|r| - 1] == PIPE <==> item.NewPart?)
  {
    if item.OutArgument? && item.value != [] {
      EscapeEndsPlain(item.value);
    }
  }

  lemma {:induction false} AppendIsText(content: Bytes, item: OutItem, first: bool)
    requires content != [] && (content[|content| - 1] == PIPE <==> first)
    ensures Append(content, item) == content + FirstText(item, first)
  {
    if item.OutArgument? {
      Assoc(content, Separator(content), ArgumentText(item.name, item.value));
    }
  }

  /** The text ends in a pipe exactly behind a new part. */
  ghost predicate EndsRight(content: Bytes, items: seq<OutItem>, n: nat)
    requires n <= |items|
  {
    content != [] && (content[|content| - 1] == PIPE <==> n > 0 && items[n - 1].NewPart?)
  }

  lemma {:induction false} WrittenEndsRight(name: Bytes, items: seq<OutItem>, n: nat)
    requires name != [] && name[|name| - 1] != PIPE && n <= |items|
    requires forall k :: 0 <= k < |items| ==> Expressible(items[k])
    ensures EndsRight(Written(name, items, n), items, n)
    decreases n
  {
    if n > 0 {
      WrittenEndsRight(name, items, n - 1);
      AppendEnds(Written(name, items, n - 1), items[n - 1]);
    }
  }

  lemma {:induction false} TextsUpTo(items: seq<OutItem>, n: nat, text: Bytes)
    requires n < |items| && text == FirstText(items[n], n > 0 && items[n - 1].NewPart?)
    ensures Texts(items[..n + 1], false) == Texts(items[..n], false) + text
  {
    assert items[..n + 1] == items[..n] + [items[n]];
    TextsOneMore(items[..n], items[n], false, text);
  }

  /** One more item written is one more item in the text. */
  lemma {:induction false} OneMoreWritten(name: Bytes, items: seq<OutItem>, n: nat, content: Bytes)
    requires n < |items| && EndsRight(content, items, n) && content == name + Texts(items[..n], false)
    ensures Append(content, items[n]) == name + Texts(items[..n + 1], false)
  {
    var first := n > 0 && items[n - 1].NewPart?;
    var text := FirstText(items[n], first);
    AppendIsText(content, items[n], first);
    TextsUpTo(items, n, text);
    Assoc(name, Texts(items[..n], false), text);
  }

  lemma {:induction false} WrittenIsTexts(name: Bytes, items: seq<OutItem>, n: nat)
    requires name != [] && n <= |items| && forall k: nat :: k <= n ==> EndsRight(Written(name, items, k), items, k)
    ensures Written(name, items, n) == name + Texts(items[..n], false)
    decreases n
  {
    if n == 0 {
      assert name + [] == name;
    } else {
      WrittenIsTexts(name, items, n - 1);
      OneMoreWritten(name, items, n - 1, Written(name, items, n - 1));
    }
  }

  lemma {:induction false} LettersStop(name: Bytes, rest: Bytes)
    requires (forall k :: 0 <= k < |name| ==> IsAlphanumeric(name[k])) && (rest != [] ==> !IsAlphanumeric(rest[0]))
    ensures Letters(name + rest) == |name|
    decreases |name|
  {
    if name == [] {
      assert name + rest == rest;
    } else {
      LettersStop(name[1..], rest);
      assert (name + rest)[1..] == name[1..] + rest;
    }
  }

  /** Reading a written command gives back its name exactly when the command does not begin with
      a new part; then it gives back its items as well. */
  lemma {:induction false} RoundTrip(name: Bytes, items: seq<OutItem>)
    requires name != [] && forall k :: 0 <= k < |name| ==> IsAlphanumeric(name[k])
    requires forall k :: 0 <= k < |items| ==> Expressible(items[k])
    ensures var text := Written(name, items, |items|);
            && (text[..CommandNameLength(text)] == name <==> items == [] || items[0].OutArgument?)
            && (items == [] || items[0].OutArgument? ==> AllItems(text[CommandNameLength(text)..]) == AsReadAll(items))
  {
    var text, rest := Written(name, items, |items|), Texts(items, false);
    forall n: nat | n <= |items|
      ensures EndsRight(Written(name, items, n), items, n)
    {
      WrittenEndsRight(name, items, n);
    }
    WrittenIsTexts(name, items, |items|);
    assert items[..|items|] == items;
    TextsBegin(items);
    LettersStop(name, rest);
    ReadTexts(items, false);
    assert text[..|name|] == name && text[|name|..] == rest;
    if items != [] {
      assert rest[0] == FirstText(items[0], false)[0];
    }
  }
}

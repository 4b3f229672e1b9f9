/** Numbers in network byte order. */
module BigEndian {
  import opened Wrappers
  import opened PacketIds

  type u64 = x: int | 0 <= x < 0x1_0000_0000_0000_0000

  function Pow256(n: nat): nat
    decreases n
  {
    if n == 0 then 1 else Pow256(n - 1) * 0x100
  }

  function WriteBe(x: nat, n: nat): (r: Bytes)
    ensures |r| == n
    decreases n
  {
    if n == 0 then [] else WriteBe(x / 0x100, n - 1) + [x % 0x100]
  }

  function ReadBe(s: Bytes): nat
    decreases |s|
  {
    if s == [] then 0 else ReadBe(s[..|s| - 1]) * 0x100 + s[|s| - 1]
  }

  lemma {:induction false} BeRoundTrip(x: nat, n: nat)
    requires x < Pow256(n)
    ensures ReadBe(WriteBe(x, n)) == x
    decreases n
  {
    if n > 0 {
      BeRoundTrip(x / 0x100, n - 1);
      var s := WriteBe(x, n);
      assert s[..n - 1] == WriteBe(x / 0x100, n - 1);
    }
  }

  /** The first byte counts most. */
  lemma {:induction false} FirstCountsMost(a: byte, s: Bytes)
    ensures ReadBe([a] + s) == a * Pow256(|s|) + ReadBe(s)
    decreases |s|
  {
    var t := [a] + s;
    if s == [] {
      assert t[..0] == [];
    } else {
      var n := |s| - 1;
      assert t[..n + 1] == [a] + s[..n];
      FirstCountsMost(a, s[..n]);
      Distributes(a, Pow256(n), ReadBe(s[..n]), s[n]);
    }
  }

  lemma {:induction false} Distributes(a: byte, p: nat, r: nat, last: byte)
    ensures (a * p + r) * 0x100 + last == a * (p * 0x100) + (r * 0x100 + last)
  {
  }

  lemma {:induction false} ReadPushed(s: Bytes, last: byte)
    ensures ReadBe(s + [last]) == ReadBe(s) * 0x100 + last
  {
    assert (s + [last])[..|s|] == s;
  }

  lemma {:induction false} ReadFour(a: byte, b: byte, c: byte, d: byte)
    ensures ReadBe([a, b, c, d]) == a * 0x100_0000 + b * 0x1_0000 + c * 0x100 + d
    ensures ReadBe([a, b]) == a * 0x100 + b
  {
    ReadPushed([], a);
    ReadPushed([a], b);
    ReadPushed([a, b], c);
    ReadPushed([a, b, c], d);
    assert [] + [a] == [a] && [a] + [b] == [a, b];
    assert [a, b] + [c] == [a, b, c] && [a, b, c] + [d] == [a, b, c, d];
  }

  lemma {:induction false} Pow256Of8()
    ensures Pow256(8) == 0x1_0000_0000_0000_0000
  {
    assert Pow256(2) == 0x1_0000 && Pow256(4) == 0x1_0000_0000;
    assert Pow256(6) == 0x1_0000_0000_0000;
  }

  lemma {:induction false} ReadInRange(s: Bytes)
    ensures ReadBe(s) < Pow256(|s|)
    decreases |s|
  {
    if s != [] {
      ReadInRange(s[..|s| - 1]);
    }
  }

  function Read16(s: Bytes): u16
    requires |s| >= 2
  {
    ReadInRange(s[..2]);
    assert Pow256(1) == 0x100;
    ReadBe(s[..2])
  }

  function Read64(s: Bytes): u64
    requires |s| >= 8
  {
    ReadInRange(s[..8]);
    Pow256Of8();
    ReadBe(s[..8])
  }

  lemma {:induction false} ReadBeInjective(a: Bytes, b: Bytes)
    requires |a| == |b| && ReadBe(a) == ReadBe(b)
    ensures a == b
    decreases |a|
  {
    if a != [] {
      var n := |a| - 1;
      ReadBeInjective(a[..n], b[..n]);
      assert a == a[..n] + [a[n]] && b == b[..n] + [b[n]];
    }
  }

  lemma {:induction false} WriteBe16(x: u16)
    ensures WriteBe(x, 2) == Be16(x)
  {
    assert Pow256(1) == 0x100;
    BeRoundTrip(x, 2);
    ReadBeInjective(WriteBe(x, 2), Be16(x));
  }

  lemma {:induction false} WriteBe64(x: u64)
    ensures WriteBe(x, 8) == Be64(x)
  {
    Pow256Of8();
    BeRoundTrip(x, 8);
    ReadBeInjective(WriteBe(x, 8), Be64(x));
  }

  lemma {:induction false} Be16Exists(x: u16)
    ensures exists r: Bytes :: |r| == 2 && ReadBe(r) == x
  {
    assert Pow256(1) == 0x100;
    BeRoundTrip(x, 2);
  }

  lemma {:induction false} Be64Exists(x: u64)
    ensures exists r: Bytes :: |r| == 8 && ReadBe(r) == x
  {
    Pow256Of8();
    BeRoundTrip(x, 8);
  }

  /** The two bytes that stand for a number. */
  ghost function Be16(x: u16): (r: Bytes)
    ensures |r| == 2 && ReadBe(r) == x
  {
    Be16Exists(x);
    var r: Bytes :| |r| == 2 && ReadBe(r) == x;
    r
  }

  ghost function Be64(x: u64): (r: Bytes)
    ensures |r| == 8 && ReadBe(r) == x
  {
    Be64Exists(x);
    var r: Bytes :| |r| == 8 && ReadBe(r) == x;
    r
  }

  lemma {:induction false} Be16Bytes(x: u16)
    ensures Be16(x) == [x / 0x100, x % 0x100]
  {
    ReadFour(0, 0, x / 0x100, x % 0x100);
    ReadFour(x / 0x100, x % 0x100, 0, 0);
    ReadBeInjective(Be16(x), [x / 0x100, x % 0x100]);
  }

  lemma {:induction false} Read16Written(x: u16, rest: Bytes)
    ensures Read16(Be16(x) + rest) == x
  {
    assert (Be16(x) + rest)[..2] == Be16(x);
  }

  lemma {:induction false} Read64Written(x: u64, rest: Bytes)
    ensures Read64(Be64(x) + rest) == x
  {
    assert (Be64(x) + rest)[..8] == Be64(x);
  }

  lemma {:induction false} Pow256Of4()
    ensures Pow256(4) == 0x1_0000_0000
  {
    assert Pow256(2) == 0x1_0000;
  }

  lemma {:induction false} WriteBe32(x: u32)
    ensures WriteBe(x, 4) == Be32(x)
  {
    Pow256Of4();
    BeRoundTrip(x, 4);
    ReadBeInjective(WriteBe(x, 4), Be32(x));
  }

  lemma {:induction false} Be32Exists(x: u32)
    ensures exists r: Bytes :: |r| == 4 && ReadBe(r) == x
  {
    Pow256Of4();
    BeRoundTrip(x, 4);
  }

  ghost function Be32(x: u32): (r: Bytes)
    ensures |r| == 4 && ReadBe(r) == x
  {
    Be32Exists(x);
    var r: Bytes :| |r| == 4 && ReadBe(r) == x;
    r
  }

  function Read32(s: Bytes, i: nat): u32
    requires i + 4 <= |s|
  {
    ReadInRange(s[i..i + 4]);
    Pow256Of4();
    ReadBe(s[i..i + 4])
  }
}

/** Packet keys, cached per packet type, direction and generation. */
module KeyCache {
  import opened PacketIds
  import opened Wrappers
  import opened BigEndian

  type Half = k: seq<byte> | |k| == 16 witness seq(16, _ => 0)
  type SharedIv = v: seq<byte> | |v| == 64 witness seq(64, _ => 0)

  datatype KeyNonce = KeyNonce(key: Half, nonce: Half)

  /** The two halves of a SHA-256 digest. */
  type Hash = seq<byte> -> KeyNonce

  datatype CachedKey = CachedKey(generation: u32, pair: KeyNonce)

  const RESERVED: u32 := 0xffff_ffff

  const ZEROS: Half := [0, 0, 0, 0, 0, 0, 0, 0, 0, 0, 0, 0, 0, 0, 0, 0]

  /** What a slot holds before its first use: the generation `u32::MAX` and a key of zeros. */
  const UNUSED := CachedKey(RESERVED, KeyNonce(ZEROS, ZEROS))

  /** The bytes hashed into a key: direction, packet type, generation (big-endian), shared iv. */
  function Message(c2s: bool, packetType: byte, generation: u32, iv: SharedIv): seq<byte> {
    [if c2s then 0x31 else 0x30, packetType,
     generation / 0x100_0000, generation / 0x1_0000 % 0x100, generation / 0x100 % 0x100, generation % 0x100] + iv
  }

  lemma {:induction false} FourDigits(x: u32)
    ensures x / 0x100_0000 * 0x100_0000 + x / 0x1_0000 % 0x100 * 0x1_0000 + x / 0x100 % 0x100 * 0x100 + x % 0x100 == x
  {
    assert x / 0x1_0000 == x / 0x100 / 0x100 && x / 0x100_0000 == x / 0x1_0000 / 0x100;
  }

  /** The bytes of the message: '1' from the client and '0' from the server, the packet type, four bytes of
      generation and 64 of iv. */
  lemma {:induction false} MessageBytes(c2s: bool, packetType: byte, generation: u32, iv: SharedIv)
    ensures var m := Message(c2s, packetType, generation, iv);
            && |m| == 70 && m[0] == (if c2s then 0x31 else 0x30) && m[1] == packetType
            && ReadBe(m[2..6]) == generation && m[6..] == iv
  {
    var m := Message(c2s, packetType, generation, iv);
    FourDigits(generation);
    ReadFour(m[2], m[3], m[4], m[5]);
    assert m[2..6] == [m[2], m[3], m[4], m[5]];
  }

  /** No two packets with a different direction, type, generation or iv share the hashed message. */
  lemma {:induction false} MessageInjective(
      c2s: bool, packetType: byte, generation: u32, iv: SharedIv,
      c2s': bool, packetType': byte, generation': u32, iv': SharedIv)
    ensures Message(c2s, packetType, generation, iv) == Message(c2s', packetType', generation', iv') <==>
            c2s == c2s' && packetType == packetType' && generation == generation' && iv == iv'
  {
    MessageBytes(c2s, packetType, generation, iv);
    MessageBytes(c2s', packetType', generation', iv');
  }

  function Pow2(bits: nat): nat
    decreases bits
  {
    if bits == 0 then 1 else Pow2(bits - 1) * 2
  }

  /** The exclusive or of the lowest bits. */
  function XorBits(a: nat, b: nat, bits: nat): (r: nat)
    ensures r < Pow2(bits)
    decreases bits
  {
    if bits == 0 then 0 else XorBits(a / 2, b / 2, bits - 1) * 2 + (a + b) % 2
  }

  function Xor(a: byte, b: byte): byte {
    assert Pow2(4) == 16 && Pow2(8) == 256;
    XorBits(a, b, 8)
  }

  /** The packet id goes into the first two bytes of the key. */
  function MixId(pair: KeyNonce, id: u16): KeyNonce {
    pair.(key := [Xor(pair.key[0], id / 0x100), Xor(pair.key[1], id % 0x100)] + pair.key[2..])
  }

  lemma {:induction false} Bit(a: nat, b: nat, rest: nat, r: nat)
    requires r == rest * 2 + (a + b) % 2
    ensures r / 2 == rest && (a + r) % 2 == b % 2
  {
  }

  lemma {:induction false} XorBitsUndone(a: nat, b: nat, bits: nat)
    requires b < Pow2(bits)
    ensures XorBits(a, XorBits(a, b, bits), bits) == b
    decreases bits
  {
    if bits > 0 {
      XorBitsUndone(a / 2, b / 2, bits - 1);
      Bit(a, b, XorBits(a / 2, b / 2, bits - 1), XorBits(a, b, bits));
    }
  }

  lemma {:induction false} XorUndone(a: byte, b: byte)
    ensures Xor(a, Xor(a, b)) == b
  {
    assert Pow2(4) == 16 && Pow2(8) == 256;
    XorBitsUndone(a, b, 8);
  }

  /** Bytes 0 and 1 of the key are xored with the high and the low byte of the id, the others and the nonce stay.
      Under one hash no two ids have the same key. */
  lemma {:induction false} MixIdBytes(pair: KeyNonce, id: u16, other: u16)
    ensures var r := MixId(pair, id);
            && Xor(pair.key[0], r.key[0]) == id / 256 && Xor(pair.key[1], r.key[1]) == id % 256
            && (forall k :: 2 <= k < 16 ==> r.key[k] == pair.key[k]) && r.nonce == pair.nonce
    ensures MixId(pair, id).key == MixId(pair, other).key <==> id == other
  {
    var a, b := MixId(pair, id), MixId(pair, other);
    XorUndone(pair.key[0], id / 256);
    XorUndone(pair.key[1], id % 256);
    XorUndone(pair.key[0], other / 256);
    XorUndone(pair.key[1], other % 256);
    assert a.key == b.key ==> a.key[0] == b.key[0] && a.key[1] == b.key[1];
  }

  /** The slot after a lookup. */
  function Lookup(hash: Hash, iv: SharedIv, packetType: byte, c2s: bool, slot: CachedKey, generation: u32): CachedKey {
    if slot.generation == generation then slot
    else CachedKey(generation, hash(Message(c2s, packetType, generation, iv)))
  }

  function LookupAll(
      hash: Hash, iv: SharedIv, packetType: byte, c2s: bool, slot: CachedKey, generations: seq<u32>): CachedKey
    decreases |generations|
  {
    if generations == [] then slot
    else
      LookupAll(hash, iv, packetType, c2s,
                Lookup(hash, iv, packetType, c2s, slot, generations[0]), generations[1..])
  }

  /** The slot holds the key of its generation. */
  ghost predicate Filled(hash: Hash, iv: SharedIv, packetType: byte, c2s: bool, slot: CachedKey) {
    slot.pair == hash(Message(c2s, packetType, slot.generation, iv))
  }

  ghost predicate SlotCorrect(hash: Hash, iv: SharedIv, packetType: byte, c2s: bool, slot: CachedKey) {
    slot == UNUSED || Filled(hash, iv, packetType, c2s, slot)
  }

  ghost predicate OnlyReserved(generations: seq<u32>) {
    forall i :: 0 <= i < |generations| ==> generations[i] == RESERVED
  }

  /** In every run of lookups from a fresh slot the last one yields the uncached key, except
      in a run that never leaves the generation marking a slot as unused: it yields zeros. */
  lemma {:induction false} CacheIsTransparent(
    hash: Hash, iv: SharedIv, packetType: byte, c2s: bool, slot: CachedKey, generations: seq<u32>)
    requires generations != [] && SlotCorrect(hash, iv, packetType, c2s, slot)
    ensures var last := LookupAll(hash, iv, packetType, c2s, slot, generations);
            && last.generation == generations[|generations| - 1]
            && (Filled(hash, iv, packetType, c2s, slot) || !OnlyReserved(generations) ==>
               Filled(hash, iv, packetType, c2s, last))
            && (slot == UNUSED && OnlyReserved(generations) ==> last == UNUSED)
    decreases |generations|
  {
    var first, rest := generations[0], generations[1..];
    var slot' := Lookup(hash, iv, packetType, c2s, slot, first);
    assert OnlyReserved(generations) <==> first == RESERVED && OnlyReserved(rest) by {
      assert forall i :: 0 <= i < |rest| ==> rest[i] == generations[i + 1];
    }
    if rest != [] {
      CacheIsTransparent(hash, iv, packetType, c2s, slot', rest);
    }
  }

  /** Both ends use the same key and nonce for a packet, whatever either looked up before,
      when the receiver's next expected id is close enough to recover the generation. */
  lemma {:induction false} KeyAgreement(
    hash: Hash, iv: SharedIv, packetType: byte, c2s: bool,
    sent: seq<u32>, received: seq<u32>, next: PartialPacketId, id: PartialPacketId)
    requires next.Full() - 32769 <= id.Full() < next.Full() + 32767 && id.generation < RESERVED
    ensures var atSender := LookupAll(hash, iv, packetType, c2s, UNUSED, sent + [id.generation]);
            var recovered := InReceiveWindow(next, id.packet).generation;
            var atReceiver := LookupAll(hash, iv, packetType, c2s, UNUSED, received + [recovered]);
            MixId(atSender.pair, id.packet) == MixId(atReceiver.pair, id.packet)
  {
    var g := id.generation;
    WindowRecovers(next, id);
    assert !OnlyReserved(sent + [g]) by { assert (sent + [g])[|sent|] == g; }
    assert !OnlyReserved(received + [g]) by { assert (received + [g])[|received|] == g; }
    CacheIsTransparent(hash, iv, packetType, c2s, UNUSED, sent + [g]);
    CacheIsTransparent(hash, iv, packetType, c2s, UNUSED, received + [g]);
  }

  /** The cache of one connection: eight packet types, two directions. */
  class Cache {
    const hash: Hash
    const iv: SharedIv
    const slots: array2<CachedKey>

    ghost predicate Valid()
      reads slots
    {
      slots.Length0 == 8 && slots.Length1 == 2 &&
      forall t, d :: 0 <= t < 8 && 0 <= d < 2 ==> SlotCorrect(hash, iv, t, d == 1, slots[t, d])
    }

    constructor (hash: Hash, iv: SharedIv)
      ensures Valid() && fresh(slots) && this.hash == hash && this.iv == iv
      ensures forall t, d :: 0 <= t < 8 && 0 <= d < 2 ==> slots[t, d] == UNUSED && slots[t, d].generation == 0xffff_ffff
    {
      this.hash, this.iv := hash, iv;
      slots := new CachedKey[8, 2]((t, d) => UNUSED);
    }

    method CreateKeyNonce(packetType: nat, c2s: bool, id: u16, generation: u32) returns (r: KeyNonce)
      requires Valid() && packetType < 8
      modifies slots
      ensures Valid()
      ensures generation != 0xffff_ffff ==> r == MixId(hash(Message(c2s, packetType, generation, iv)), id)
      ensures var d := if c2s then 1 else 0;
              && slots[packetType, d] == Lookup(hash, iv, packetType, c2s, old(slots[packetType, d]), generation)
              && r == MixId(slots[packetType, d].pair, id)
              && forall t, e :: 0 <= t < 8 && 0 <= e < 2 && (t != packetType || e != d) ==>
                 slots[t, e] == old(slots[t, e])
    {
      var d := if c2s then 1 else 0;
      if slots[packetType, d].generation != generation {
        slots[packetType, d] := CachedKey(generation, hash(Message(c2s, packetType, generation, iv)));
      }
      r := MixId(slots[packetType, d].pair, id);
    }
  }
}

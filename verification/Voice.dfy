/** Voice packets: their header byte, printing and parsing. */
module Voice {
  import opened Wrappers
  import opened PacketIds
  import opened BigEndian

  type PacketType = t: int | 0 <= t < 9
  const VOICE: PacketType := 0
  const VOICE_WHISPER: PacketType := 1

  type CodecType = c: int | 0 <= c < 6

  // ----- The header

  datatype Flags = Flags(unencrypted: bool, compressed: bool, newProtocol: bool, fragmented: bool) {
    function Bits(): byte {
      (if unencrypted then 0x80 else 0) + (if compressed then 0x40 else 0) +
      (if newProtocol then 0x20 else 0) + (if fragmented then 0x10 else 0)
    }
  }

  const NO_FLAGS := Flags(false, false, false, false)

  /** The byte without its highest bit, if that is `bit`. */
  function Clear(b: int, bit: int): int {
    if b >= bit then b - bit else b
  }

  /** The flags in the upper half of a byte. */
  function FromBits(b: byte): Flags {
    Flags(b >= 0x80, Clear(b, 0x80) >= 0x40, Clear(Clear(b, 0x80), 0x40) >= 0x20,
        Clear(Clear(Clear(b, 0x80), 0x40), 0x20) >= 0x10)
  }

  /** The lower half of a byte. */
  function Low(b: byte): (r: byte)
    ensures r < 0x10
  {
    Clear(Clear(Clear(Clear(b, 0x80), 0x40), 0x20), 0x10)
  }

  /** The offset of the byte that holds flags and type. */
  function HeaderOffset(dir: Direction): nat {
    if dir == S2C then 10 else 12
  }

  /** Flags in the upper half of the byte, the type in the lower one. */
  lemma {:induction false} HeaderByteRoundTrip(flags: Flags, t: PacketType)
    ensures 0 <= flags.Bits() + t < 0x100
    ensures FromBits(flags.Bits() + t) == flags && Low(flags.Bits() + t) == t
  {
  }

  /** Bits 7 to 4 are the flags, bits 3 to 0 the type. */
  lemma {:induction false} HeaderByteBits(flags: Flags, t: PacketType)
    ensures var b := flags.Bits() + t;
            && 0 <= b < 256 && b % 16 == t
            && (b / 128 == 1 <==> flags.unencrypted) && (b / 64 % 2 == 1 <==> flags.compressed)
            && (b / 32 % 2 == 1 <==> flags.newProtocol) && (b / 16 % 2 == 1 <==> flags.fragmented)
  {
  }

  class OutPacket {
    const dir: Direction
    var data: Bytes

    predicate Valid()
      reads this
    {
      |data| > HeaderOffset(dir)
    }

    /** What the header byte says. */
    function GetFlags(): Flags
      requires Valid()
      reads this
    {
      FromBits(data[HeaderOffset(dir)])
    }

    function GetPacketType(): int
      requires Valid()
      reads this
    {
      Low(data[HeaderOffset(dir)])
    }

    constructor (dir: Direction, flags: Flags, t: PacketType)
      ensures this.dir == dir && data == Zeros(HeaderOffset(dir)) + [flags.Bits() + t]
      ensures Valid() && GetFlags() == flags && GetPacketType() == t
    {
      this.dir := dir;
      data := Zeros(HeaderOffset(dir) + 1);
      new;
      SetFlags(flags);
      SetPacketType(t);
      HeaderByteRoundTrip(flags, t);
    }

    /** The rest of the packet stays, and so does the type. */
    method SetFlags(flags: Flags)
      requires Valid()
      modifies this
      ensures Valid() && data == old(data)[HeaderOffset(dir) := Low(old(data)[HeaderOffset(dir)]) + flags.Bits()]
      ensures GetFlags() == flags && GetPacketType() == old(GetPacketType())
    {
      var off := HeaderOffset(dir);
      FlagBitsAreHigh(flags, Low(data[off]));
      data := data[off := Low(data[off]) + flags.Bits()];
    }

    method SetPacketType(t: PacketType)
      requires Valid()
      modifies this
      ensures var at, before := HeaderOffset(dir), old(data);
              Valid() && data == before[at := before[at] - Low(before[at]) + t]
      ensures GetFlags() == old(GetFlags()) && GetPacketType() == t
    {
      var off := HeaderOffset(dir);
      TypeIsLow(data[off], t);
      data := data[off := data[off] - Low(data[off]) + t];
    }

    method SetPacketId(id: u16)
      requires Valid()
      modifies this
      ensures Valid() && data == old(data)[..8] + Be16(id) + old(data)[10..]
      ensures |data| > 10 && data[8] == id / 256 && data[9] == id % 256
      ensures Read16(data[8..]) == id && GetFlags() == old(GetFlags()) && GetPacketType() == old(GetPacketType())
    {
      Read16Written(id, data[10..]);
      ghost var before := data;
      WriteBe16(id);
      data := data[..8] + WriteBe(id, 2) + data[10..];
      assert data[8..] == Be16(id) + before[10..];
      Be16Bytes(id);
    }

    method Push(bytes: Bytes)
      requires Valid()
      modifies this
      ensures Valid() && data == old(data) + bytes
    {
      data := data + bytes;
    }

    method Push16(x: u16)
      requires Valid()
      modifies this
      ensures Valid() && data == old(data) + Be16(x)
    {
      WriteBe16(x);
      data := data + WriteBe(x, 2);
    }

    method Push64(x: u64)
      requires Valid()
      modifies this
      ensures Valid() && data == old(data) + Be64(x)
    {
      WriteBe64(x);
      data := data + WriteBe(x, 8);
    }
  }

  lemma {:induction false} FlagBitsAreHigh(flags: Flags, low: int)
    requires 0 <= low < 0x10
    ensures 0 <= low + flags.Bits() < 0x100 && FromBits(low + flags.Bits()) == flags && Low(low + flags.Bits()) == low
  {
  }

  lemma {:induction false} TypeIsLow(b: byte, t: PacketType)
    ensures 0 <= b - Low(b) + t < 0x100 && FromBits(b - Low(b) + t) == FromBits(b) && Low(b - Low(b) + t) == t
  {
  }

  // ----- Voice data

  datatype AudioData =
    | C2SVoice(id: u16, codec: CodecType, data: Bytes)
    | C2SWhisper(id: u16, codec: CodecType, channels: seq<u64>, clients: seq<u16>, data: Bytes)
    | C2SWhisperNew(id: u16, codec: CodecType, whisperType: byte, target: byte, targetId: u64, data: Bytes)
    | S2CVoice(id: u16, from: u16, codec: CodecType, data: Bytes)
    | S2CWhisper(id: u16, from: u16, codec: CodecType, data: Bytes)
  {
    function Direction(): Direction {
      if S2CVoice? || S2CWhisper? then S2C else C2S
    }

    function PacketType(): PacketType {
      if C2SVoice? || S2CVoice? then VOICE else VOICE_WHISPER
    }

    function Flags(): Flags {
      if C2SWhisperNew? then NO_FLAGS.(newProtocol := true) else NO_FLAGS
    }
  }

  ghost function WriteAll64(xs: seq<u64>): (r: Bytes)
    ensures |r| == |xs| * 8
    decreases |xs|
  {
    if xs == [] then [] else Be64(xs[0]) + WriteAll64(xs[1..])
  }

  ghost function WriteAll16(xs: seq<u16>): (r: Bytes)
    ensures |r| == |xs| * 2
    decreases |xs|
  {
    if xs == [] then [] else Be16(xs[0]) + WriteAll16(xs[1..])
  }

  /** The content of a voice packet; the lengths of the lists are cut off to a byte. */
  ghost function Content(audio: AudioData): Bytes {
    Be16(audio.id) +
    match audio
    case C2SVoice(_, codec, data) => [codec] + data
    case C2SWhisper(_, codec, channels, clients, data) =>
      [codec, |channels| % 0x100, |clients| % 0x100] + (WriteAll64(channels) + (WriteAll16(clients) + data))
    case C2SWhisperNew(_, codec, whisperType, target, targetId, data) =>
      [codec, whisperType, target] + (Be64(targetId) + data)
    case S2CVoice(_, from, codec, data) => Be16(from) + ([codec] + data)
    case S2CWhisper(_, from, codec, data) => Be16(from) + ([codec] + data)
  }

  datatype Error =
    | Io
    | PacketTooShort(len: nat)
    | UnknownPacketType(t: int)
    | PacketContentTooShort(len: nat)
    | InvalidCodec(codec: byte)

  datatype Parsed = Audio(audio: AudioData) | Rejected(error: Error) | Panic

  function ReadAll64(s: Bytes, count: nat): seq<u64>
    requires count * 8 <= |s|
    decreases count
  {
    if count == 0 then [] else [Read64(s)] + ReadAll64(s[8..], count - 1)
  }

  function ReadAll16(s: Bytes, count: nat): seq<u16>
    requires count * 2 <= |s|
    decreases count
  {
    if count == 0 then [] else [Read16(s)] + ReadAll16(s[2..], count - 1)
  }

  /** Reporting an invalid codec looks at byte 4, which a short packet does not have. */
  function BadCodec(content: Bytes): Parsed {
    if |content| > 4 then Rejected(InvalidCodec(content[4])) else Panic
  }

  function ParseContent(t: PacketType, newProtocol: bool, dir: Direction, content: Bytes): Parsed {
    if |content| < 2 then Rejected(Io)
    else
      var id := Read16(content);
      if dir == S2C then
        if |content| < 5 then Rejected(PacketContentTooShort(|content|))
        else if content[4] >= 6 then Rejected(InvalidCodec(content[4]))
        else
          var from := Read16(content[2..]);
          Audio(if t == VOICE then S2CVoice(id, from, content[4], content[5..])
              else S2CWhisper(id, from, content[4], content[5..]))
      else if |content| < 3 then Rejected(PacketContentTooShort(|content|))
      else if content[2] >= 6 then BadCodec(content)
      else if t == VOICE then Audio(C2SVoice(id, content[2], content[3..]))
      else if newProtocol then ParseNewWhisper(id, content)
      else ParseWhisper(id, content)
  }

  function ParseNewWhisper(id: u16, content: Bytes): Parsed
    requires |content| >= 3 && content[2] < 6
  {
    if |content| < 14 then Rejected(PacketContentTooShort(|content|))
    else Audio(C2SWhisperNew(id, content[2], content[3], content[4], Read64(content[5..]), content[13..]))
  }

  function ParseWhisper(id: u16, content: Bytes): Parsed
    requires |content| >= 3 && content[2] < 6
  {
    if |content| < 5 then Rejected(PacketContentTooShort(|content|))
    else
      var channelCount: nat, clientCount: nat := content[3], content[4];
      var clientOff := 5 + channelCount * 8;
      var off := clientOff + clientCount * 2;
      if |content| < off then Rejected(PacketContentTooShort(|content|))
      else Audio(C2SWhisper(id, content[2], ReadAll64(content[5..], channelCount),
          ReadAll16(content[clientOff..], clientCount), content[off..]))
  }

  /** A whole packet: the checks of the header, then the content by what the header says. */
  function ParsePacket(dir: Direction, packet: Bytes): Parsed {
    var off := HeaderOffset(dir);
    if |packet| < off + 1 then Rejected(PacketTooShort(|packet|))
    else if Low(packet[off]) > 8 then Rejected(UnknownPacketType(Low(packet[off])))
    else ParseContent(Low(packet[off]), FromBits(packet[off]).newProtocol, dir, packet[off + 1..])
  }

  // ----- Printing

  /** The packet of some voice data, with the fields of the header that are filled in later. */
  method OutAudio(audio: AudioData) returns (packet: OutPacket)
    ensures fresh(packet) && packet.Valid() && packet.dir == audio.Direction()
    ensures packet.data == Zeros(HeaderOffset(audio.Direction())) + [audio.Flags().Bits() + audio.PacketType()] +
            Content(audio)
    ensures var at := if audio.S2CVoice? || audio.S2CWhisper? then 10 else 12;
            && |packet.data| > at && packet.data[at + 1..] == Content(audio)
            && packet.data[at] == if audio.C2SVoice? || audio.S2CVoice? then 0
                                  else if audio.C2SWhisperNew? then 33 else 1
  {
    packet := new OutPacket(audio.Direction(), audio.Flags(), audio.PacketType());
    packet.Push16(audio.id);
    match audio
    case C2SVoice(_, codec, data) =>
      PushVoice(packet, codec, data);
    case C2SWhisper(_, codec, channels, clients, data) =>
      PushWhisper(packet, codec, channels, clients, data);
    case C2SWhisperNew(_, codec, whisperType, target, targetId, data) =>
      PushNewWhisper(packet, codec, whisperType, target, targetId, data);
    case S2CVoice(_, from, codec, data) =>
      packet.Push16(from);
      PushVoice(packet, codec, data);
    case S2CWhisper(_, from, codec, data) =>
      packet.Push16(from);
      PushVoice(packet, codec, data);
  }

  method PushVoice(packet: OutPacket, codec: CodecType, data: Bytes)
    requires packet.Valid()
    modifies packet
    ensures packet.Valid() && packet.data == old(packet.data) + ([codec] + data)
  {
    packet.Push([codec]);
    packet.Push(data);
  }

  method PushWhisper(packet: OutPacket, codec: CodecType, channels: seq<u64>, clients: seq<u16>, data: Bytes)
    requires packet.Valid()
    modifies packet
    ensures packet.Valid()
    ensures packet.data == old(packet.data) +
                           ([codec, |channels| % 0x100, |clients| % 0x100] +
                               (WriteAll64(channels) + (WriteAll16(clients) + data)))
  {
    packet.Push([codec]);
    packet.Push([|channels| % 0x100]);
    packet.Push([|clients| % 0x100]);
    assert packet.data == old(packet.data) + [codec, |channels| % 0x100, |clients| % 0x100];
    PushAll64(packet, channels);
    PushAll16(packet, clients);
    packet.Push(data);
  }

  method PushNewWhisper(
      packet: OutPacket, codec: CodecType, whisperType: byte, target: byte, targetId: u64, data: Bytes)
    requires packet.Valid()
    modifies packet
    ensures packet.Valid() && packet.data == old(packet.data) + ([codec, whisperType, target] + (Be64(targetId) + data))
  {
    packet.Push([codec]);
    packet.Push([whisperType]);
    packet.Push([target]);
    assert packet.data == old(packet.data) + [codec, whisperType, target];
    packet.Push64(targetId);
    packet.Push(data);
  }

  method PushAll64(packet: OutPacket, xs: seq<u64>)
    requires packet.Valid()
    modifies packet
    ensures packet.Valid() && packet.data == old(packet.data) + WriteAll64(xs)
  {
    for i := 0 to |xs|
      invariant packet.Valid() && packet.data + WriteAll64(xs[i..]) == old(packet.data) + WriteAll64(xs)
    {
      assert xs[i..][1..] == xs[i + 1..];
      packet.Push64(xs[i]);
    }
  }

  method PushAll16(packet: OutPacket, xs: seq<u16>)
    requires packet.Valid()
    modifies packet
    ensures packet.Valid() && packet.data == old(packet.data) + WriteAll16(xs)
  {
    for i := 0 to |xs|
      invariant packet.Valid() && packet.data + WriteAll16(xs[i..]) == old(packet.data) + WriteAll16(xs)
    {
      assert xs[i..][1..] == xs[i + 1..];
      packet.Push16(xs[i]);
    }
  }

  // ----- Parsing what was printed

  lemma {:induction false} ReadAll64Written(xs: seq<u64>, rest: Bytes)
    ensures ReadAll64(WriteAll64(xs) + rest, |xs|) == xs
    decreases |xs|
  {
    if xs != [] {
      var tail := WriteAll64(xs[1..]) + rest;
      var s := WriteAll64(xs) + rest;
      assert s == Be64(xs[0]) + tail && s[8..] == tail;
      Read64Written(xs[0], tail);
      ReadAll64Written(xs[1..], rest);
    }
  }

  lemma {:induction false} ReadAll16Written(xs: seq<u16>, rest: Bytes)
    ensures ReadAll16(WriteAll16(xs) + rest, |xs|) == xs
    decreases |xs|
  {
    if xs != [] {
      var tail := WriteAll16(xs[1..]) + rest;
      var s := WriteAll16(xs) + rest;
      assert s == Be16(xs[0]) + tail && s[2..] == tail;
      Read16Written(xs[0], tail);
      ReadAll16Written(xs[1..], rest);
    }
  }

  lemma {:induction false} ReadAllLengths(s: Bytes, count: nat)
    ensures count * 8 <= |s| ==> |ReadAll64(s, count)| == count
    ensures count * 2 <= |s| ==> |ReadAll16(s, count)| == count
    decreases count
  {
    if count > 0 {
      if count * 8 <= |s| { ReadAllLengths(s[8..], count - 1); }
      if count * 2 <= |s| { ReadAllLengths(s[2..], count - 1); }
    }
  }

  /** What the format can carry: lists of at most 255 entries, and the new whisper form only with
      data, because the parser asks for 14 bytes. */
  predicate Carried(audio: AudioData) {
    match audio
    case C2SWhisper(_, _, channels, clients, _) => |channels| < 0x100 && |clients| < 0x100
    case C2SWhisperNew(_, _, _, _, _, data) => data != []
    case _ => true
  }

  function Parse(audio: AudioData, content: Bytes): Parsed {
    ParseContent(audio.PacketType(), audio.Flags().newProtocol, audio.Direction(), content)
  }

  lemma {:induction false} ServerForms(audio: AudioData)
    requires audio.S2CVoice? || audio.S2CWhisper?
    ensures Parse(audio, Content(audio)) == Audio(audio)
  {
    var tail := Be16(audio.from) + ([audio.codec] + audio.data);
    var content := Be16(audio.id) + tail;
    assert Content(audio) == content;
    Read16Written(audio.id, tail);
    assert content[2..] == tail;
    Read16Written(audio.from, [audio.codec] + audio.data);
    assert content[4] == audio.codec && content[5..] == audio.data;
  }

  lemma {:induction false} ClientForm(audio: AudioData)
    requires audio.C2SVoice?
    ensures Parse(audio, Content(audio)) == Audio(audio)
  {
    var tail := [audio.codec] + audio.data;
    var content := Be16(audio.id) + tail;
    assert Content(audio) == content;
    Read16Written(audio.id, tail);
    assert content[2] == audio.codec && content[3..] == audio.data;
  }

  lemma {:induction false} NewWhisperForm(audio: AudioData)
    requires audio.C2SWhisperNew?
    ensures Parse(audio, Content(audio)) == Audio(audio) <==> Carried(audio)
  {
    var target := Be64(audio.targetId) + audio.data;
    var tail := [audio.codec, audio.whisperType, audio.target] + target;
    var content := Be16(audio.id) + tail;
    assert Content(audio) == content && |content| == 13 + |audio.data|;
    Read16Written(audio.id, tail);
    assert content[2] == audio.codec && content[3] == audio.whisperType && content[4] == audio.target;
    assert content[5..] == target && content[13..] == audio.data;
    Read64Written(audio.targetId, audio.data);
  }

  lemma {:induction false} WhisperForm(audio: AudioData)
    requires audio.C2SWhisper?
    ensures Parse(audio, Content(audio)) == Audio(audio) <==> Carried(audio)
  {
    var clients := WriteAll16(audio.clients) + audio.data;
    var lists := WriteAll64(audio.channels) + clients;
    var counts: Bytes := [audio.codec, |audio.channels| % 0x100, |audio.clients| % 0x100];
    var content := Be16(audio.id) + (counts + lists);
    assert Content(audio) == content;
    Read16Written(audio.id, counts + lists);
    assert content[2] == counts[0] && content[3] == counts[1] && content[4] == counts[2];
    assert content[5..] == lists;
    if Carried(audio) {
      WhisperCarried(audio, content, lists, clients);
    } else {
      WhisperCutOff(audio, content);
    }
  }

  lemma {:induction false} WhisperCarried(audio: AudioData, content: Bytes, lists: Bytes, clients: Bytes)
    requires audio.C2SWhisper? && Carried(audio)
    requires clients == WriteAll16(audio.clients) + audio.data && lists == WriteAll64(audio.channels) + clients
    requires |content| >= 5 && content[2] == audio.codec && content[3] == |audio.channels| &&
             content[4] == |audio.clients| && content[5..] == lists
    ensures ParseWhisper(audio.id, content) == Audio(audio)
  {
    var n := |audio.channels| * 8;
    assert content[5 + n..] == lists[n..] == clients;
    assert content[5 + n + |audio.clients| * 2..] == clients[|audio.clients| * 2..] == audio.data;
    ReadAll64Written(audio.channels, clients);
    ReadAll16Written(audio.clients, audio.data);
  }

  /** A count that does not fit a byte is cut off, so that another number of entries is read. */
  lemma {:induction false} WhisperCutOff(audio: AudioData, content: Bytes)
    requires audio.C2SWhisper? && !Carried(audio) && |content| >= 5 && content[2] < 6
    requires content[3] == |audio.channels| % 0x100 && content[4] == |audio.clients| % 0x100
    ensures ParseWhisper(audio.id, content) != Audio(audio)
  {
    var channelCount: nat, clientCount: nat := content[3], content[4];
    ReadAllLengths(content[5..], channelCount);
    if 5 + channelCount * 8 <= |content| {
      ReadAllLengths(content[5 + channelCount * 8..], clientCount);
    }
  }

  // ----- What is on the wire

  /** The header says of the content what the value says. */
  ghost predicate Announces(t: PacketType, newProtocol: bool, dir: Direction, audio: AudioData) {
    && (dir == S2C <==> audio.S2CVoice? || audio.S2CWhisper?)
    && (t == 0 <==> audio.C2SVoice? || audio.S2CVoice?)
    && (dir == C2S && t != 0 ==> (newProtocol <==> audio.C2SWhisperNew?))
  }

  /** The id, then from the server the sender, then codec and data; a whisper has the numbers of channels and clients
      and then these, or in its new form a type, a target and the id of the target. */
  lemma {:induction false} ContentBytes(audio: AudioData)
    ensures var c := Content(audio);
            && |c| >= 3 && c[0] == audio.id / 256 && c[1] == audio.id % 256
            && match audio
               case C2SVoice(_, codec, data) => c[2] == codec && c[3..] == data
               case C2SWhisper(_, codec, channels, clients, data) =>
                 var n, m := |channels|, |clients|;
                 && |c| == 5 + 8 * n + 2 * m + |data|
                 && c[2] == codec && c[3] == n % 256 && c[4] == m % 256
                 && c[5..5 + 8 * n] == WriteAll64(channels)
                 && c[5 + 8 * n..5 + 8 * n + 2 * m] == WriteAll16(clients) && c[5 + 8 * n + 2 * m..] == data
               case C2SWhisperNew(_, codec, whisperType, target, targetId, data) =>
                 && |c| == 13 + |data| && c[2] == codec && c[3] == whisperType && c[4] == target
                 && ReadBe(c[5..13]) == targetId && c[13..] == data
               case S2CVoice(_, from, codec, data) =>
                 |c| >= 5 && c[2] == from / 256 && c[3] == from % 256 && c[4] == codec && c[5..] == data
               case S2CWhisper(_, from, codec, data) =>
                 |c| >= 5 && c[2] == from / 256 && c[3] == from % 256 && c[4] == codec && c[5..] == data
  {
    Be16Bytes(audio.id);
    match audio
    case C2SVoice(_, _, _) =>
    case C2SWhisper(_, _, channels, clients, data) => WhisperBytes(audio, Content(audio));
    case C2SWhisperNew(_, _, _, _, targetId, data) => assert Content(audio)[5..13] == Be64(targetId);
    case S2CVoice(_, from, _, _) => Be16Bytes(from);
    case S2CWhisper(_, from, _, _) => Be16Bytes(from);
  }

  lemma {:induction false} WhisperBytes(audio: AudioData, c: Bytes)
    requires audio.C2SWhisper? && c == Content(audio)
    ensures var n, m := |audio.channels|, |audio.clients|;
            && |c| == 5 + 8 * n + 2 * m + |audio.data|
            && c[2] == audio.codec && c[3] == n % 256 && c[4] == m % 256
            && c[5..5 + 8 * n] == WriteAll64(audio.channels)
            && c[5 + 8 * n..5 + 8 * n + 2 * m] == WriteAll16(audio.clients)
            && c[5 + 8 * n + 2 * m..] == audio.data
  {
  }

  /** Entry `k` of a list is eight bytes. */
  lemma {:induction false} ListBytes64(xs: seq<u64>, k: nat)
    requires k < |xs|
    ensures ReadBe(WriteAll64(xs)[8 * k..8 * k + 8]) == xs[k]
    decreases |xs|
  {
    if k == 0 {
      assert WriteAll64(xs)[0..8] == Be64(xs[0]);
    } else {
      ListBytes64(xs[1..], k - 1);
      assert WriteAll64(xs)[8 * k..8 * k + 8] == WriteAll64(xs[1..])[8 * (k - 1)..8 * (k - 1) + 8];
    }
  }

  lemma {:induction false} ListBytes16(xs: seq<u16>, k: nat)
    requires k < |xs|
    ensures ReadBe(WriteAll16(xs)[2 * k..2 * k + 2]) == xs[k]
    decreases |xs|
  {
    if k == 0 {
      assert WriteAll16(xs)[0..2] == Be16(xs[0]);
    } else {
      ListBytes16(xs[1..], k - 1);
      assert WriteAll16(xs)[2 * k..2 * k + 2] == WriteAll16(xs[1..])[2 * (k - 1)..2 * (k - 1) + 2];
    }
  }

  lemma {:induction false} ReadIsWritten16(s: Bytes)
    requires |s| >= 2
    ensures s[..2] == Be16(Read16(s))
  {
    ReadBeInjective(s[..2], Be16(Read16(s)));
  }

  lemma {:induction false} ReadIsWritten64(s: Bytes)
    requires |s| >= 8
    ensures s[..8] == Be64(Read64(s))
  {
    ReadBeInjective(s[..8], Be64(Read64(s)));
  }

  lemma {:induction false} ReadAllIsWritten64(s: Bytes, count: nat)
    requires count * 8 <= |s|
    ensures |ReadAll64(s, count)| == count && WriteAll64(ReadAll64(s, count)) == s[..count * 8]
    decreases count
  {
    if count > 0 {
      ReadIsWritten64(s);
      ReadAllIsWritten64(s[8..], count - 1);
      assert s[..count * 8] == s[..8] + s[8..][..(count - 1) * 8];
    }
  }

  lemma {:induction false} ReadAllIsWritten16(s: Bytes, count: nat)
    requires count * 2 <= |s|
    ensures |ReadAll16(s, count)| == count && WriteAll16(ReadAll16(s, count)) == s[..count * 2]
    decreases count
  {
    if count > 0 {
      ReadIsWritten16(s);
      ReadAllIsWritten16(s[2..], count - 1);
      assert s[..count * 2] == s[..2] + s[2..][..(count - 1) * 2];
    }
  }

  lemma {:induction false} FiveParts(s: Bytes, i: nat, j: nat)
    requires 5 <= i <= j <= |s|
    ensures s == s[..2] + ([s[2], s[3], s[4]] + (s[5..i] + (s[i..j] + s[j..])))
    ensures s[5..][..i - 5] == s[5..i] && s[i..][..j - i] == s[i..j]
  {
  }

  lemma {:induction false} WhisperOf(
      audio: AudioData, content: Bytes, i: nat, j: nat, channels: seq<u64>, clients: seq<u16>)
    requires 5 <= i <= j <= |content| && content[2] < 6 && content[3] == |channels| && content[4] == |clients|
    requires audio == C2SWhisper(Read16(content), content[2], channels, clients, content[j..])
    requires WriteAll64(channels) == content[5..i] && WriteAll16(clients) == content[i..j]
    ensures Content(audio) == content
  {
    ReadIsWritten16(content);
    FiveParts(content, i, j);
  }

  lemma {:induction false} ParsedWhisperIsPrinted(id: u16, content: Bytes, audio: AudioData)
    requires |content| >= 3 && content[2] < 6 && id == Read16(content) && ParseWhisper(id, content) == Audio(audio)
    ensures audio.C2SWhisper? && Content(audio) == content && Carried(audio)
  {
    var n: nat, m: nat := content[3], content[4];
    var i, j := 5 + n * 8, 5 + n * 8 + m * 2;
    ReadAllIsWritten64(content[5..], n);
    ReadAllIsWritten16(content[i..], m);
    FiveParts(content, i, j);
    WhisperOf(audio, content, i, j, ReadAll64(content[5..], n), ReadAll16(content[i..], m));
  }

  lemma {:induction false} ParsedNewWhisperIsPrinted(id: u16, content: Bytes, audio: AudioData)
    requires |content| >= 3 && content[2] < 6 && id == Read16(content) && ParseNewWhisper(id, content) == Audio(audio)
    ensures audio.C2SWhisperNew? && Content(audio) == content && Carried(audio)
  {
    ReadIsWritten16(content);
    ReadIsWritten64(content[5..]);
    assert content[5..][..8] == content[5..13];
    assert content == content[..2] + (content[2..5] + (content[5..13] + content[13..]));
  }

  lemma {:induction false} ParsedVoiceIsPrinted(content: Bytes, audio: AudioData)
    requires !audio.C2SWhisper? && !audio.C2SWhisperNew? && |content| >= 2 && audio.id == Read16(content)
    requires if audio.C2SVoice? then |content| >= 3 && content[2] == audio.codec && content[3..] == audio.data
             else |content| >= 5 && audio.from == Read16(content[2..]) && content[4] == audio.codec &&
                  content[5..] == audio.data
    ensures Content(audio) == content
  {
    ReadIsWritten16(content);
    if audio.C2SVoice? {
      assert content == content[..2] + ([content[2]] + content[3..]);
    } else {
      ReadIsWritten16(content[2..]);
      assert content[2..][..2] == content[2..4];
      assert content == content[..2] + (content[2..4] + ([content[4]] + content[5..]));
    }
  }

  /** The parser accepts exactly what is printed: the content of a value that the format can carry, under a header
      that announces it. */
  lemma {:induction false} AcceptsExactlyPrinted(
      t: PacketType, newProtocol: bool, dir: Direction, content: Bytes, audio: AudioData)
    ensures ParseContent(t, newProtocol, dir, content) == Audio(audio) <==>
            Announces(t, newProtocol, dir, audio) && Carried(audio) && Content(audio) == content
  {
    if ParseContent(t, newProtocol, dir, content) == Audio(audio) {
      if dir == S2C || t == VOICE {
        ParsedVoiceIsPrinted(content, audio);
      } else if newProtocol {
        ParsedNewWhisperIsPrinted(Read16(content), content, audio);
      } else {
        ParsedWhisperIsPrinted(Read16(content), content, audio);
      }
    }
    if Announces(t, newProtocol, dir, audio) && Carried(audio) && Content(audio) == content {
      PrintedIsParsed(t, newProtocol, dir, audio);
    }
  }

  /** The lists do not fit. */
  predicate CutOff(c: Bytes, channels: nat, clients: nat) {
    |c| < 5 + 8 * channels + 2 * clients
  }

  /** Why content is rejected. */
  lemma {:induction false} RejectedFor(t: PacketType, newProtocol: bool, dir: Direction, c: Bytes, error: Error)
    ensures ParseContent(t, newProtocol, dir, c) == Rejected(error) <==>
            match error
            case Io => |c| < 2
            case InvalidCodec(codec) =>
              |c| > 4 && codec == c[4] && (if dir == S2C then c[4] else c[2]) >= 6
            case PacketContentTooShort(len) =>
              && len == |c| >= 2
              && if dir == S2C then |c| < 5
                 else |c| < 3 || (c[2] < 6 && t != 0 &&
                                  if newProtocol then |c| < 14 else |c| < 5 || CutOff(c, c[3], c[4]))
            case _ => false
  {
  }

  /** The header is looked at first: a byte at 10 or 12, with one of nine types. */
  lemma {:induction false} HeaderRejectedFor(dir: Direction, packet: Bytes)
    ensures var at := if dir == S2C then 10 else 12;
            if |packet| <= at then ParsePacket(dir, packet) == Rejected(PacketTooShort(|packet|))
            else
              Low(packet[at]) == packet[at] % 16 &&
              (packet[at] % 16 > 8 ==> ParsePacket(dir, packet) == Rejected(UnknownPacketType(packet[at] % 16)))
  {
  }

  lemma {:induction false} PrintedIsParsed(t: PacketType, newProtocol: bool, dir: Direction, audio: AudioData)
    requires Announces(t, newProtocol, dir, audio) && Carried(audio)
    ensures ParseContent(t, newProtocol, dir, Content(audio)) == Audio(audio)
  {
    match audio
    case C2SVoice(_, _, _) => ClientForm(audio);
    case C2SWhisper(_, _, _, _, _) => WhisperForm(audio);
    case C2SWhisperNew(_, _, _, _, _, _) => NewWhisperForm(audio);
    case S2CVoice(_, _, _, _) => ServerForms(audio);
    case S2CWhisper(_, _, _, _) => ServerForms(audio);
  }

  /** For every form of voice data, whatever else the header holds, reading direction, type and
      flags back from the header byte and parsing gives the same value, exactly when the format
      can carry it. */
  lemma {:induction false} VoiceRoundTrip(audio: AudioData, header: Bytes, flags: Flags)
    requires |header| == HeaderOffset(audio.Direction()) && flags.newProtocol == audio.Flags().newProtocol
    ensures 0 <= flags.Bits() + audio.PacketType() < 0x100
    ensures var parsed := ParsePacket(audio.Direction(), header + [flags.Bits() + audio.PacketType()] + Content(audio));
            parsed == Audio(audio) <==> Carried(audio)
  {
    HeaderByteRoundTrip(flags, audio.PacketType());
    var b: byte := flags.Bits() + audio.PacketType();
    var packet := header + [b] + Content(audio);
    assert packet[|header|] == b && packet[|header| + 1..] == Content(audio);
    match audio
    case C2SVoice(_, _, _) => ClientForm(audio);
    case C2SWhisper(_, _, _, _, _) => WhisperForm(audio);
    case C2SWhisperNew(_, _, _, _, _, _) => NewWhisperForm(audio);
    case S2CVoice(_, _, _, _) => ServerForms(audio);
    case S2CWhisper(_, _, _, _) => ServerForms(audio);
  }

  /** A client voice packet with a bad codec and no more than two bytes behind it panics. */
  lemma {:induction false} BadCodecPanics(t: PacketType, newProtocol: bool, dir: Direction, content: Bytes)
    ensures ParseContent(t, newProtocol, dir, content) == Panic <==>
            dir == C2S && 3 <= |content| <= 4 && content[2] >= 6
  {
  }
}

/**
 The Wayland wire format (sommelier/src/wire.rs and the argument readers and
 writers emitted by wayland_codegen/src/generator.rs; Wayland specification,
 section 4.3 "Wire Format").

 The format is native-endian, so the byte order is a parameter throughout.
 */
module Wire {
  import opened Prelude

  datatype ByteOrder = LittleEndian | BigEndian

  datatype WireError =
    | InsufficientData
    | InvalidString
    | MissingFd
    | MessageTooLarge(length: nat)
    | InvalidMessageLength(length: nat)

  // ---- words ----

  function U32Bytes(order: ByteOrder, v: u32): (bytes: seq<byte>)
    ensures |bytes| == 4
  {
    var b0, b1, b2, b3 := v % 0x100, v / 0x100 % 0x100, v / 0x1_0000 % 0x100, v / 0x100_0000;
    if order.LittleEndian? then [b0, b1, b2, b3] else [b3, b2, b1, b0]
  }

  /** The word with the given bytes, least significant first. */
  function Word(b0: int, b1: int, b2: int, b3: int): int {
    b0 + 0x100 * b1 + 0x1_0000 * b2 + 0x100_0000 * b3
  }

  function BytesU32(order: ByteOrder, bytes: seq<byte>): u32
    requires |bytes| == 4
  {
    if order.LittleEndian? then Word(bytes[0], bytes[1], bytes[2], bytes[3])
    else Word(bytes[3], bytes[2], bytes[1], bytes[0])
  }

  function U16Bytes(order: ByteOrder, v: u16): (bytes: seq<byte>)
    ensures |bytes| == 2
  {
    if order.LittleEndian? then [v % 0x100, v / 0x100] else [v / 0x100, v % 0x100]
  }

  function BytesU16(order: ByteOrder, bytes: seq<byte>): u16
    requires |bytes| == 2
  {
    if order.LittleEndian? then Word(bytes[0], bytes[1], 0, 0) else Word(bytes[1], bytes[0], 0, 0)
  }

  /** `as u32` and `as i32`. */
  function Unsigned(v: i32): u32 {
    if v < 0 then v + 0x1_0000_0000 else v
  }

  function Signed(v: u32): i32 {
    if v >= 0x8000_0000 then v - 0x1_0000_0000 else v
  }

  lemma U32RoundTrip(order: ByteOrder, v: u32)
    ensures BytesU32(order, U32Bytes(order, v)) == v
    ensures var low := U32Bytes(LittleEndian, v);
            && low[0] as int + 0x100 * low[1] as int + 0x1_0000 * low[2] as int + 0x100_0000 * low[3] as int == v
            && U32Bytes(BigEndian, v) == [low[3], low[2], low[1], low[0]]
  {
    assert v / 0x100 / 0x100 == v / 0x1_0000 && v / 0x1_0000 / 0x100 == v / 0x100_0000;
  }

  /** No two byte strings are the same word. */
  lemma WordRoundTrip(order: ByteOrder, bytes: seq<byte>)
    requires |bytes| == 4
    ensures U32Bytes(order, BytesU32(order, bytes)) == bytes
  {
    var b0, b1, b2, b3 := if order.LittleEndian? then bytes[0] else bytes[3], if order.LittleEndian? then bytes[1] else bytes[2],
                          if order.LittleEndian? then bytes[2] else bytes[1], if order.LittleEndian? then bytes[3] else bytes[0];
    Digits(b0, b1, b2, b3);
  }

  lemma LowDigit(digit: byte, rest: nat)
    ensures (digit + 0x100 * rest) % 0x100 == digit && (digit + 0x100 * rest) / 0x100 == rest
  {
  }

  lemma NestedQuotients(v: nat)
    ensures v / 0x100 / 0x100 == v / 0x1_0000 && v / 0x1_0000 / 0x100 == v / 0x100_0000
  {
  }

  lemma Digits(b0: byte, b1: byte, b2: byte, b3: byte)
    ensures var v := Word(b0, b1, b2, b3);
            v % 0x100 == b0 && v / 0x100 % 0x100 == b1 && v / 0x1_0000 % 0x100 == b2 && v / 0x100_0000 == b3
  {
    var q2: nat := b2 as int + 0x100 * b3 as int;
    var q1: nat := b1 as int + 0x100 * q2;
    var v := Word(b0, b1, b2, b3);
    assert v == b0 as int + 0x100 * q1;
    LowDigit(b0, q1);
    LowDigit(b1, q2);
    LowDigit(b2, b3);
    NestedQuotients(v);
  }

  lemma U16RoundTrip(order: ByteOrder, v: u16)
    ensures BytesU16(order, U16Bytes(order, v)) == v
  {
  }

  function U64Bytes(order: ByteOrder, v: u64): (bytes: seq<byte>)
    ensures |bytes| == 8
  {
    var low, high := v % 0x1_0000_0000, v / 0x1_0000_0000;
    if order.LittleEndian? then U32Bytes(order, low) + U32Bytes(order, high) else U32Bytes(order, high) + U32Bytes(order, low)
  }

  function BytesU64(order: ByteOrder, bytes: seq<byte>): u64
    requires |bytes| == 8
  {
    var first, second := BytesU32(order, bytes[..4]), BytesU32(order, bytes[4..]);
    if order.LittleEndian? then first + 0x1_0000_0000 * second else second + 0x1_0000_0000 * first
  }

  lemma U64RoundTrip(order: ByteOrder, v: u64)
    ensures BytesU64(order, U64Bytes(order, v)) == v
  {
    var low, high := v % 0x1_0000_0000, v / 0x1_0000_0000;
    U32RoundTrip(order, low);
    U32RoundTrip(order, high);
    var bytes := U64Bytes(order, v);
    assert bytes[..4] == if order.LittleEndian? then U32Bytes(order, low) else U32Bytes(order, high);
    assert bytes[4..] == if order.LittleEndian? then U32Bytes(order, high) else U32Bytes(order, low);
    hide U32Bytes, BytesU32;
  }

  // ---- text ----

  predicate IsContinuation(b: byte) {
    0x80 <= b < 0xc0
  }

  /** The length of the well-formed UTF-8 sequence at the front, 0 if there is none. */
  function CharLength(s: seq<byte>): (n: nat)
    ensures n <= |s| && n <= 4
    ensures n > 1 ==> forall i | 0 <= i < n :: s[i] != 0
  {
    if s == [] then 0
    else if s[0] < 0x80 then 1
    else if 0xc2 <= s[0] < 0xe0 && |s| >= 2 && IsContinuation(s[1]) then 2
    else if 0xe0 <= s[0] < 0xf0 && |s| >= 3 && IsContinuation(s[1]) && IsContinuation(s[2])
            && (s[0] == 0xe0 ==> s[1] >= 0xa0) && (s[0] == 0xed ==> s[1] < 0xa0) then 3
    else if 0xf0 <= s[0] < 0xf5 && |s| >= 4 && IsContinuation(s[1]) && IsContinuation(s[2]) && IsContinuation(s[3])
            && (s[0] == 0xf0 ==> s[1] >= 0x90) && (s[0] == 0xf4 ==> s[1] < 0x90) then 4
    else 0
  }

  /** `str::from_utf8` accepts the bytes. */
  predicate IsUtf8(s: seq<byte>)
    decreases |s|
  {
    s == [] || (CharLength(s) > 0 && IsUtf8(s[CharLength(s)..]))
  }

  /** The position of the first NUL, or the length. */
  function FirstNul(s: seq<byte>): (n: nat)
    ensures n <= |s|
    ensures forall i | 0 <= i < n :: s[i] != 0
    ensures n < |s| ==> s[n] == 0
  {
    if s == [] || s[0] == 0 then 0 else 1 + FirstNul(s[1..])
  }

  lemma FirstNulIs(s: seq<byte>, n: nat)
    requires n < |s| && s[n] == 0 && forall i | 0 <= i < n :: s[i] != 0
    ensures FirstNul(s) == n
  {
  }

  lemma CharHasNoNul(s: seq<byte>)
    ensures CharLength(s) <= |s| && forall j | 0 < j < CharLength(s) :: s[j] != 0
  {
  }

  lemma CharIsPrefix(s: seq<byte>, n: nat)
    requires 0 < CharLength(s) <= n <= |s|
    ensures CharLength(s[..n]) == CharLength(s)
  {
  }

  /** Cutting text at a NUL leaves text. */
  lemma {:induction false} Utf8BeforeNul(s: seq<byte>, n: nat)
    requires IsUtf8(s) && n <= |s| && (n < |s| ==> s[n] == 0)
    ensures IsUtf8(s[..n])
    decreases |s|
  {
    if 0 < n {
      var k := CharLength(s);
      CharHasNoNul(s);
      CharIsPrefix(s, n);
      hide CharLength;
      assert s[k..][..n - k] == s[..n][k..];
      Utf8BeforeNul(s[k..], n - k);
    }
  }

  // ---- UTF-8 by code points (RFC 3629, section 3) ----

  predicate IsScalar(c: nat) {
    c < 0xd800 || 0xe000 <= c < 0x11_0000
  }

  /** The shortest form that holds the code point, six bits to each byte after the first. */
  function CodePointBytes(c: nat): (bytes: seq<byte>)
    requires IsScalar(c)
  {
    if c < 0x80 then [c]
    else if c < 0x800 then [0xc0 + c / 0x40, 0x80 + c % 0x40]
    else if c < 0x1_0000 then [0xe0 + c / 0x1000, 0x80 + c / 0x40 % 0x40, 0x80 + c % 0x40]
    else [0xf0 + c / 0x4_0000, 0x80 + c / 0x1000 % 0x40, 0x80 + c / 0x40 % 0x40, 0x80 + c % 0x40]
  }

  ghost predicate IsText(text: seq<nat>) {
    forall i | 0 <= i < |text| :: IsScalar(text[i])
  }

  ghost function TextBytes(text: seq<nat>): seq<byte>
    requires IsText(text)
  {
    if text == [] then [] else CodePointBytes(text[0]) + TextBytes(text[1..])
  }

  lemma CodePointIsChar(c: nat, rest: seq<byte>)
    requires IsScalar(c)
    ensures CharLength(CodePointBytes(c) + rest) == |CodePointBytes(c)| > 0
  {
  }

  /** The six bits a continuation byte carries. */
  function Low(b: byte): int {
    b as int - 0x80
  }

  function CodePoint2(lead: byte, b: byte): int { 0x40 * (lead as int - 0xc0) + Low(b) }

  function CodePoint3(lead: byte, b: byte, c: byte): int { 0x1000 * (lead as int - 0xe0) + 0x40 * Low(b) + Low(c) }

  function CodePoint4(lead: byte, b: byte, c: byte, d: byte): int {
    0x4_0000 * (lead as int - 0xf0) + 0x1000 * Low(b) + 0x40 * Low(c) + Low(d)
  }

  lemma TwoBytes(lead: byte, b: byte)
    requires 0xc2 <= lead < 0xe0 && IsContinuation(b)
    ensures CodePoint2(lead, b) >= 0x80 && IsScalar(CodePoint2(lead, b))
    ensures CodePointBytes(CodePoint2(lead, b)) == [lead, b]
  {
  }

  lemma ThreeBytes(lead: byte, b: byte, c: byte)
    requires 0xe0 <= lead < 0xf0 && IsContinuation(b) && IsContinuation(c)
    requires (lead == 0xe0 ==> b >= 0xa0) && (lead == 0xed ==> b < 0xa0)
    ensures CodePoint3(lead, b, c) >= 0x800 && IsScalar(CodePoint3(lead, b, c))
    ensures CodePointBytes(CodePoint3(lead, b, c)) == [lead, b, c]
  {
    var p := CodePoint3(lead, b, c);
    assert p / 0x40 == 0x40 * (lead as int - 0xe0) + Low(b) && p % 0x40 == Low(c);
    assert p / 0x1000 == lead as int - 0xe0 && p / 0x40 % 0x40 == Low(b);
  }

  lemma FourBytes(lead: byte, b: byte, c: byte, d: byte)
    requires 0xf0 <= lead < 0xf5 && IsContinuation(b) && IsContinuation(c) && IsContinuation(d)
    requires (lead == 0xf0 ==> b >= 0x90) && (lead == 0xf4 ==> b < 0x90)
    ensures CodePoint4(lead, b, c, d) >= 0x1_0000 && IsScalar(CodePoint4(lead, b, c, d))
    ensures CodePointBytes(CodePoint4(lead, b, c, d)) == [lead, b, c, d]
  {
    var p := CodePoint4(lead, b, c, d);
    assert p / 0x40 == 0x1000 * (lead as int - 0xf0) + 0x40 * Low(b) + Low(c) && p % 0x40 == Low(d);
    assert p / 0x1000 == 0x40 * (lead as int - 0xf0) + Low(b) && p / 0x40 % 0x40 == Low(c);
    assert p / 0x4_0000 == lead as int - 0xf0 && p / 0x1000 % 0x40 == Low(b);
  }

  /** The code point of the character at the front. */
  lemma FirstCodePoint(s: seq<byte>) returns (c: nat)
    requires CharLength(s) > 0
    ensures IsScalar(c) && CodePointBytes(c) == s[..CharLength(s)]
  {
    hide CodePointBytes, CodePoint2, CodePoint3, CodePoint4, IsScalar;
    var n := CharLength(s);
    if n == 1 {
      c := OneByte(s[0]);
    } else if n == 2 {
      TwoBytes(s[0], s[1]);
      c := CodePoint2(s[0], s[1]);
    } else if n == 3 {
      ThreeBytes(s[0], s[1], s[2]);
      c := CodePoint3(s[0], s[1], s[2]);
    } else {
      FourBytes(s[0], s[1], s[2], s[3]);
      c := CodePoint4(s[0], s[1], s[2], s[3]);
    }
  }

  lemma OneByte(lead: byte) returns (c: nat)
    requires lead < 0x80
    ensures IsScalar(c) && CodePointBytes(c) == [lead]
  {
    c := lead;
  }

  lemma {:induction false} TextIsUtf8(text: seq<nat>)
    requires IsText(text)
    ensures IsUtf8(TextBytes(text))
  {
    if text != [] {
      var rest := TextBytes(text[1..]);
      CodePointIsChar(text[0], rest);
      TextIsUtf8(text[1..]);
      assert (CodePointBytes(text[0]) + rest)[|CodePointBytes(text[0])|..] == rest;
    }
  }

  lemma {:induction false} Utf8IsText(s: seq<byte>) returns (text: seq<nat>)
    requires IsUtf8(s)
    ensures IsText(text) && TextBytes(text) == s
    decreases |s|
  {
    hide CharLength, CodePointBytes, IsScalar;
    if s == [] {
      text := [];
    } else {
      var n := CharLength(s);
      var rest := Utf8IsText(s[n..]);
      var first := FirstCodePoint(s);
      text := Prepended(first, rest);
      assert s == s[..n] + s[n..];
    }
  }

  lemma Prepended(first: nat, rest: seq<nat>) returns (text: seq<nat>)
    requires IsScalar(first) && IsText(rest)
    ensures IsText(text) && TextBytes(text) == CodePointBytes(first) + TextBytes(rest)
  {
    text := [first] + rest;
    assert text[1..] == rest;
  }

  /** The accepted bytes are exactly the encodings of sequences of code points. */
  lemma Utf8Iff(s: seq<byte>)
    ensures IsUtf8(s) <==> exists text :: IsText(text) && TextBytes(text) == s
  {
    if IsUtf8(s) {
      var text := Utf8IsText(s);
    }
    if text :| IsText(text) && TextBytes(text) == s {
      TextIsUtf8(text);
    }
  }

  // ---- blocks: a length word, the bytes, and zeros up to a word boundary ----

  function Padding(length: nat): (n: nat)
    ensures n < 4 && (length + n) % 4 == 0
  {
    (4 - length % 4) % 4
  }

  function Zeros(n: nat): (z: seq<byte>)
    ensures |z| == n
  {
    seq(n, _ => 0)
  }

  function Block(order: ByteOrder, bytes: seq<byte>): seq<byte> {
    U32Bytes(order, |bytes| % 0x1_0000_0000) + bytes + Zeros(Padding(|bytes|))
  }

  /** A length word, the bytes, and fewer than four zeros up to a word boundary. */
  lemma BlockLayout(order: ByteOrder, bytes: seq<byte>)
    requires |bytes| < 0x1_0000_0000
    ensures var block := Block(order, bytes);
            && |block| % 4 == 0 && 4 + |bytes| <= |block| < 8 + |bytes|
            && BytesU32(order, block[..4]) == |bytes|
            && block[4..4 + |bytes|] == bytes
            && forall k | 4 + |bytes| <= k < |block| :: block[k] == 0
  {
    hide U32Bytes, BytesU32, Padding, Zeros;
    U32RoundTrip(order, |bytes|);
    SmallWord(|bytes|);
    var head, tail := U32Bytes(order, |bytes|), Zeros(Padding(|bytes|));
    assert Block(order, bytes) == head + bytes + tail;
    assert (head + bytes + tail)[..4] == head && (head + bytes + tail)[4..4 + |bytes|] == bytes;
    AllZeros(Padding(|bytes|));
    assert (head + bytes + tail)[4 + |bytes|..] == tail;
    WholeWords(|bytes|, Padding(|bytes|));
  }

  lemma SmallWord(n: nat)
    requires n < 0x1_0000_0000
    ensures n % 0x1_0000_0000 == n
  {
  }

  lemma AllZeros(n: nat)
    ensures forall k | 0 <= k < n :: Zeros(n)[k] == 0
  {
  }

  lemma WholeWords(length: nat, padding: nat)
    requires (length + padding) % 4 == 0
    ensures (4 + length + padding) % 4 == 0
  {
  }

  // ---- writing ----

  class MessageBuilder {
    const order: ByteOrder
    var payload: seq<byte>
    var fds: seq<Fd>

    constructor (order: ByteOrder)
      ensures this.order == order && payload == [] && fds == []
    {
      this.order := order;
      payload, fds := [], [];
    }

    method WriteU32(v: u32)
      modifies this`payload
      ensures payload == old(payload) + U32Bytes(order, v)
    {
      payload := payload + U32Bytes(order, v);
    }

    method WriteI32(v: i32)
      modifies this`payload
      ensures payload == old(payload) + U32Bytes(order, Unsigned(v))
    {
      WriteU32(Unsigned(v));
    }

    method WriteArray(bytes: seq<byte>)
      modifies this`payload
      ensures payload == old(payload) + Block(order, bytes)
    {
      WriteU32(|bytes| % 0x1_0000_0000);
      payload := payload + bytes;
      payload := payload + Zeros(Padding(|bytes|));
    }

    /** The terminating NUL is part of the block. */
    method WriteString(text: seq<byte>)
      modifies this`payload
      ensures payload == old(payload) + Block(order, text + [0])
    {
      WriteU32((|text| + 1) % 0x1_0000_0000);
      payload := payload + text;
      payload := payload + [0];
      payload := payload + Zeros(Padding(|text| + 1));
      assert payload
          == old(payload) + (U32Bytes(order, |text + [0]| % 0x1_0000_0000) + (text + [0]) + Zeros(Padding(|text + [0]|)));
    }

    method WriteFd(fd: Fd)
      modifies this`fds
      ensures fds == old(fds) + [fd]
    {
      fds := fds + [fd];
    }

    method TryBuildMessage(sender: u32, opcode: u16) returns (r: Result<seq<byte>, WireError>)
      ensures r == Build(order, sender, opcode, payload)
    {
      var total := |payload| + 8;
      if total > 0xffff {
        return Err(MessageTooLarge(total));
      }
      if total % 4 != 0 {
        return Err(InvalidMessageLength(total));
      }
      var message := U32Bytes(order, sender);
      message := message + U32Bytes(order, total * 0x1_0000 + opcode);
      message := message + payload;
      r := Ok(message);
    }
  }

  /** A complete message, if its length fits the header's 16 bits and is whole words. */
  function Build(order: ByteOrder, sender: u32, opcode: u16, payload: seq<byte>): Result<seq<byte>, WireError> {
    var total := |payload| + 8;
    if total > 0xffff then Err(MessageTooLarge(total))
    else if total % 4 != 0 then Err(InvalidMessageLength(total))
    else Ok(U32Bytes(order, sender) + U32Bytes(order, total * 0x1_0000 + opcode) + payload)
  }

  // ---- reading ----

  /** A read's result and the offset it leaves, also when it fails. */
  datatype Read<+T> = Read(result: Result<T, WireError>, offset: nat)

  function ReadU32(order: ByteOrder, payload: seq<byte>, offset: nat): Read<u32> {
    if offset + 4 > |payload| then Read(Err(InsufficientData), offset)
    else Read(Ok(BytesU32(order, payload[offset..offset + 4])), offset + 4)
  }

  function ReadArray(order: ByteOrder, payload: seq<byte>, offset: nat): Read<seq<byte>> {
    var length := ReadU32(order, payload, offset);
    match length.result
    case Err(e) => Read(Err(e), length.offset)
    case Ok(n) =>
      var end := length.offset + n + Padding(n);
      if end > |payload| then Read(Err(InsufficientData), length.offset)
      else Read(Ok(payload[length.offset..length.offset + n]), end)
  }

  /** Interior NULs end the text early, as they do for a C reader. */
  function ReadStringValue(order: ByteOrder, payload: seq<byte>, offset: nat, nullable: bool): Read<Option<seq<byte>>> {
    var length := ReadU32(order, payload, offset);
    match length.result
    case Err(e) => Read(Err(e), length.offset)
    case Ok(n) =>
      if n == 0 then Read(if nullable then Ok(None) else Err(InvalidString), length.offset)
      else
        var end := length.offset + n + Padding(n);
        if end > |payload| then Read(Err(InsufficientData), length.offset)
        else
          var bytes := payload[length.offset..length.offset + n];
          if bytes[n - 1] != 0 || !IsUtf8(bytes[..FirstNul(bytes)]) then Read(Err(InvalidString), length.offset)
          else Read(Ok(Some(bytes[..FirstNul(bytes)])), end)
  }

  /** The payload has room for these bytes as a block, and has them; the padding may be anything. */
  predicate HoldsBlock(order: ByteOrder, payload: seq<byte>, offset: nat, bytes: seq<byte>) {
    && |bytes| < 0x1_0000_0000 && offset + 4 + |bytes| + Padding(|bytes|) <= |payload|
    && payload[offset..offset + 4] == U32Bytes(order, |bytes|)
    && payload[offset + 4..offset + 4 + |bytes|] == bytes
  }

  lemma WordIsRead(order: ByteOrder, payload: seq<byte>, offset: nat, word: u32)
    ensures ReadU32(order, payload, offset) == Read(Ok(word), offset + 4) <==>
            offset + 4 <= |payload| && payload[offset..offset + 4] == U32Bytes(order, word)
  {
    U32RoundTrip(order, word);
    if offset + 4 <= |payload| {
      WordRoundTrip(order, payload[offset..offset + 4]);
    }
    hide U32Bytes, BytesU32;
  }

  /** An array is read exactly where it stands as a block, whatever its padding. */
  lemma ArrayAcceptedIff(order: ByteOrder, payload: seq<byte>, offset: nat, bytes: seq<byte>)
    ensures ReadArray(order, payload, offset) == Read(Ok(bytes), offset + 4 + |bytes| + Padding(|bytes|)) <==>
            HoldsBlock(order, payload, offset, bytes)
  {
    hide U32Bytes, BytesU32, Padding, ReadU32;
    if |bytes| < 0x1_0000_0000 {
      WordIsRead(order, payload, offset, |bytes|);
    }
    ReadEnds(order, payload, offset);
  }

  lemma ReadEnds(order: ByteOrder, payload: seq<byte>, offset: nat)
    ensures var r := ReadU32(order, payload, offset);
            if r.result.Ok? then offset + 4 <= |payload| && r.offset == offset + 4 else r.offset == offset
  {
  }

  /** A block that ends in a NUL, and the text up to its first one. */
  predicate HoldsText(order: ByteOrder, payload: seq<byte>, offset: nat, raw: seq<byte>, text: seq<byte>) {
    && HoldsBlock(order, payload, offset, raw) && |raw| > 0 && raw[|raw| - 1] == 0
    && text == raw[..FirstNul(raw)] && IsUtf8(text)
  }

  lemma HeldTextIsRead(order: ByteOrder, payload: seq<byte>, offset: nat, nullable: bool, raw: seq<byte>, text: seq<byte>)
    requires HoldsText(order, payload, offset, raw, text)
    ensures ReadStringValue(order, payload, offset, nullable).result == Ok(Some(text))
  {
    hide U32Bytes, BytesU32, Padding, ReadU32, IsUtf8, FirstNul;
    WordIsRead(order, payload, offset, |raw|);
  }

  lemma ReadTextIsHeld(order: ByteOrder, payload: seq<byte>, offset: nat, nullable: bool, text: seq<byte>)
    returns (raw: seq<byte>)
    requires ReadStringValue(order, payload, offset, nullable).result == Ok(Some(text))
    ensures HoldsText(order, payload, offset, raw, text)
  {
    hide U32Bytes, BytesU32, Padding, ReadU32, IsUtf8, FirstNul;
    ReadEnds(order, payload, offset);
    var n := ReadU32(order, payload, offset).result.value;
    WordIsRead(order, payload, offset, n);
    raw := payload[offset + 4..offset + 4 + n];
  }

  /** Text is read exactly where a block ends in a NUL and is UTF-8 up to its first one; no
      text, exactly where there is a length of zero and it is allowed. */
  lemma TextAcceptedIff(order: ByteOrder, payload: seq<byte>, offset: nat, nullable: bool, text: seq<byte>)
    ensures ReadStringValue(order, payload, offset, nullable).result == Ok(Some(text)) <==>
            exists raw :: HoldsText(order, payload, offset, raw, text)
    ensures ReadStringValue(order, payload, offset, nullable).result == Ok(None) <==>
            nullable && offset + 4 <= |payload| && payload[offset..offset + 4] == U32Bytes(order, 0)
  {
    NoTextIff(order, payload, offset, nullable);
    hide ReadStringValue, HoldsText, U32Bytes;
    if ReadStringValue(order, payload, offset, nullable).result == Ok(Some(text)) {
      var raw := ReadTextIsHeld(order, payload, offset, nullable, text);
    }
    if raw :| HoldsText(order, payload, offset, raw, text) {
      HeldTextIsRead(order, payload, offset, nullable, raw, text);
    }
  }

  lemma NoTextIff(order: ByteOrder, payload: seq<byte>, offset: nat, nullable: bool)
    ensures ReadStringValue(order, payload, offset, nullable).result == Ok(None) <==>
            nullable && offset + 4 <= |payload| && payload[offset..offset + 4] == U32Bytes(order, 0)
  {
    hide U32Bytes, BytesU32, Padding, ReadU32, IsUtf8, FirstNul;
    ReadEnds(order, payload, offset);
    WordIsRead(order, payload, offset, 0);
  }

  class WireMessage {
    const order: ByteOrder
    const payload: seq<byte>
    const fds: seq<Fd>
    var offset: nat
    var fdOffset: nat

    constructor (order: ByteOrder, payload: seq<byte>, fds: seq<Fd>)
      ensures this.order == order && this.payload == payload && this.fds == fds
      ensures offset == 0 && fdOffset == 0
    {
      this.order, this.payload, this.fds := order, payload, fds;
      offset, fdOffset := 0, 0;
    }

    method NextU32() returns (r: Result<u32, WireError>)
      modifies this`offset
      ensures Read(r, offset) == ReadU32(order, payload, old(offset))
    {
      if offset + 4 > |payload| {
        return Err(InsufficientData);
      }
      var bytes := payload[offset..offset + 4];
      offset := offset + 4;
      r := Ok(BytesU32(order, bytes));
    }

    method NextI32() returns (r: Result<i32, WireError>)
      modifies this`offset
      ensures var read := ReadU32(order, payload, old(offset));
              offset == read.offset
              && r == if read.result.Ok? then Ok(Signed(read.result.value)) else Err(read.result.error)
    {
      var word := NextU32();
      r := if word.Ok? then Ok(Signed(word.value)) else Err(word.error);
    }

    method NextArray() returns (r: Result<seq<byte>, WireError>)
      modifies this`offset
      ensures Read(r, offset) == ReadArray(order, payload, old(offset))
    {
      var length := NextU32();
      if length.Err? {
        return Err(length.error);
      }
      var end := offset + length.value + Padding(length.value);
      if end > |payload| {
        return Err(InsufficientData);
      }
      r := Ok(payload[offset..offset + length.value]);
      offset := end;
    }

    method NextStringValue(nullable: bool) returns (r: Result<Option<seq<byte>>, WireError>)
      modifies this`offset
      ensures Read(r, offset) == ReadStringValue(order, payload, old(offset), nullable)
    {
      hide IsUtf8, FirstNul, Padding;
      var length := NextU32();
      if length.Err? {
        return Err(length.error);
      }
      if length.value == 0 {
        return if nullable then Ok(None) else Err(InvalidString);
      }
      var end := offset + length.value + Padding(length.value);
      if end > |payload| {
        return Err(InsufficientData);
      }
      var bytes := payload[offset..offset + length.value];
      if bytes[|bytes| - 1] != 0 {
        return Err(InvalidString);
      }
      var i := 0;
      while bytes[i] != 0
        invariant 0 <= i < |bytes|
        invariant forall j | 0 <= j < i :: bytes[j] != 0
        decreases |bytes| - i
      {
        i := i + 1;
      }
      FirstNulIs(bytes, i);
      if !IsUtf8(bytes[..i]) {
        return Err(InvalidString);
      }
      r := Ok(Some(bytes[..i]));
      offset := end;
    }

    method NextFd() returns (r: Result<Fd, WireError>)
      modifies this`fdOffset
      ensures old(fdOffset) < |fds| ==> r == Ok(fds[old(fdOffset)]) && fdOffset == old(fdOffset) + 1
      ensures old(fdOffset) >= |fds| ==> r == Err(MissingFd) && fdOffset == old(fdOffset)
    {
      if fdOffset < |fds| {
        r := Ok(fds[fdOffset]);
        fdOffset := fdOffset + 1;
      } else {
        r := Err(MissingFd);
      }
    }
  }

  // ---- what a block reads back as, anywhere in a payload ----

  lemma SliceOf(pre: seq<byte>, middle: seq<byte>, post: seq<byte>, a: nat, b: nat)
    requires a <= b <= |middle|
    ensures (pre + middle + post)[|pre| + a..|pre| + b] == middle[a..b]
  {
  }

  lemma WordReadsBack(order: ByteOrder, pre: seq<byte>, v: u32, post: seq<byte>)
    ensures ReadU32(order, pre + U32Bytes(order, v) + post, |pre|) == Read(Ok(v), |pre| + 4)
  {
    SliceOf(pre, U32Bytes(order, v), post, 0, 4);
    U32RoundTrip(order, v);
  }

  lemma BlockParts(order: ByteOrder, pre: seq<byte>, bytes: seq<byte>, post: seq<byte>)
    requires |bytes| < 0x1_0000_0000
    ensures var payload := pre + Block(order, bytes) + post;
            && |Block(order, bytes)| == 4 + |bytes| + Padding(|bytes|)
            && |payload| == |pre| + |Block(order, bytes)| + |post|
            && ReadU32(order, payload, |pre|) == Read(Ok(|bytes|), |pre| + 4)
            && payload[|pre| + 4..|pre| + 4 + |bytes|] == bytes
  {
    hide U32Bytes, ReadU32, Zeros, Padding;
    var word, padding := U32Bytes(order, |bytes|), Zeros(Padding(|bytes|));
    assert Block(order, bytes) == word + bytes + padding;
    Regroup(pre, word, bytes, padding, post);
    WordReadsBack(order, pre, |bytes|, bytes + padding + post);
    hide Block;
  }

  lemma Regroup(pre: seq<byte>, word: seq<byte>, bytes: seq<byte>, padding: seq<byte>, post: seq<byte>)
    ensures var payload := pre + (word + bytes + padding) + post;
            && payload == pre + word + (bytes + padding + post)
            && payload[|pre| + |word|..|pre| + |word| + |bytes|] == bytes
  {
    SliceOf(pre, word + bytes + padding, post, |word|, |word| + |bytes|);
  }

  lemma ArrayReadsBack(order: ByteOrder, pre: seq<byte>, bytes: seq<byte>, post: seq<byte>)
    requires |bytes| < 0x1_0000_0000
    ensures ReadArray(order, pre + Block(order, bytes) + post, |pre|) == Read(Ok(bytes), |pre| + |Block(order, bytes)|)
  {
    hide Block, ReadU32;
    BlockParts(order, pre, bytes, post);
  }

  lemma TextBeforeTerminator(text: seq<byte>)
    requires IsUtf8(text)
    ensures FirstNul(text + [0]) == FirstNul(text)
    ensures (text + [0])[..FirstNul(text)] == text[..FirstNul(text)]
    ensures IsUtf8(text[..FirstNul(text)])
    ensures text[..FirstNul(text)] == text <==> 0 !in text
  {
    FirstNulIs(text + [0], FirstNul(text));
    Utf8BeforeNul(text, FirstNul(text));
  }

  /** Text reads back up to its first NUL; so it reads back whole exactly when it has none. */
  lemma StringReadsBack(order: ByteOrder, pre: seq<byte>, text: seq<byte>, post: seq<byte>, nullable: bool)
    requires IsUtf8(text) && |text| + 1 < 0x1_0000_0000
    ensures ReadStringValue(order, pre + Block(order, text + [0]) + post, |pre|, nullable)
         == Read(Ok(Some(text[..FirstNul(text)])), |pre| + |Block(order, text + [0])|)
    ensures text[..FirstNul(text)] == text <==> 0 !in text
  {
    hide Block, ReadU32, IsUtf8, FirstNul;
    BlockParts(order, pre, text + [0], post);
    TextBeforeTerminator(text);
  }
}

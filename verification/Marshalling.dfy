/**
 Messages as typed argument lists: the readers and writers that
 wayland_codegen/src/generator.rs emits for a protocol description, interpreted
 over the description itself.
 */
module Marshalling {
  import opened Prelude
  import opened ShadowTables
  import opened Wire

  datatype ArgType =
    | Int
    | Uint
    | Fixed
    | String(nullable: bool)
    | Object(interface: Option<Interface>, nullable: bool)
    | NewId(creates: Option<Interface>)
    | Array
    | Descriptor

  datatype Value =
    | IntValue(signed: i32)
    | UintValue(unsigned: u32)
    | FixedValue(raw: i32)
    | TextValue(text: Option<seq<byte>>)
    | ObjectValue(target: u32)
    | NewIdValue(id: u32)
    | UntypedNewIdValue(name: seq<byte>, version: u32, untyped: u32)
    | ArrayValue(bytes: seq<byte>)
    | DescriptorValue(fd: Fd)

  predicate Typed(v: Value, t: ArgType) {
    match t
    case Int => v.IntValue?
    case Uint => v.UintValue?
    case Fixed => v.FixedValue?
    case String(nullable) => v.TextValue? && if v.text.Some? then IsUtf8(v.text.value) else nullable
    case Object(_, _) => v.ObjectValue?
    case NewId(creates) => if creates.Some? then v.NewIdValue? else v.UntypedNewIdValue? && IsUtf8(v.name)
    case Array => v.ArrayValue?
    case Descriptor => v.DescriptorValue?
  }

  predicate TypedAll(vs: seq<Value>, ts: seq<ArgType>) {
    |vs| == |ts| && forall i | 0 <= i < |vs| :: Typed(vs[i], ts[i])
  }

  // ---- writing ----

  function Encode(order: ByteOrder, v: Value): seq<byte> {
    match v
    case IntValue(signed) => U32Bytes(order, Unsigned(signed))
    case UintValue(unsigned) => U32Bytes(order, unsigned)
    case FixedValue(raw) => U32Bytes(order, Unsigned(raw))
    case TextValue(text) => if text.Some? then Block(order, text.value + [0]) else U32Bytes(order, 0)
    case ObjectValue(target) => U32Bytes(order, target)
    case NewIdValue(id) => U32Bytes(order, id)
    case UntypedNewIdValue(name, version, id) =>
      Block(order, name + [0]) + U32Bytes(order, version) + U32Bytes(order, id)
    case ArrayValue(bytes) => Block(order, bytes)
    case DescriptorValue(_) => []
  }

  /** An untyped new ID is its interface's name as text, a version word and the number. */
  lemma UntypedNewIdLayout(order: ByteOrder, name: seq<byte>, version: u32, id: u32)
    requires |name| + 1 < 0x1_0000_0000
    ensures var bytes := Encode(order, UntypedNewIdValue(name, version, id));
            var n := |bytes| - 8;
            && 4 + |name| + 1 <= n < 8 + |name| + 1 && n % 4 == 0
            && BytesU32(order, bytes[..4]) == |name| + 1
            && bytes[4..4 + |name|] == name && (forall k | 4 + |name| <= k < n :: bytes[k] == 0)
            && BytesU32(order, bytes[n..n + 4]) == version && BytesU32(order, bytes[n + 4..]) == id
  {
    hide U32Bytes, BytesU32, Block;
    var bytes, block := Encode(order, UntypedNewIdValue(name, version, id)), Block(order, name + [0]);
    BlockLayout(order, name + [0]);
    U32RoundTrip(order, version);
    U32RoundTrip(order, id);
    var n := |block|;
    assert bytes[..4] == block[..4];
    var text := block[4..4 + (|name| + 1)];
    assert text == name + [0] && text[..|name|] == name && text[|name|] == 0;
    assert bytes[4..4 + |name|] == text[..|name|] && bytes[4 + |name|] == text[|name|];
    assert bytes[n..n + 4] == U32Bytes(order, version) && bytes[n + 4..] == U32Bytes(order, id);
  }

  function EncodeFds(v: Value): seq<Fd> {
    if v.DescriptorValue? then [v.fd] else []
  }

  function EncodeAll(order: ByteOrder, vs: seq<Value>): seq<byte> {
    if vs == [] then [] else Encode(order, vs[0]) + EncodeAll(order, vs[1..])
  }

  function AllFds(vs: seq<Value>): seq<Fd> {
    if vs == [] then [] else EncodeFds(vs[0]) + AllFds(vs[1..])
  }

  lemma EncodeAppend(order: ByteOrder, vs: seq<Value>, v: Value)
    ensures EncodeAll(order, vs + [v]) == EncodeAll(order, vs) + Encode(order, v)
    ensures AllFds(vs + [v]) == AllFds(vs) + EncodeFds(v)
  {
    hide Encode, EncodeFds;
    if vs == [] {
      assert [v][1..] == [];
    } else {
      assert (vs + [v])[1..] == vs[1..] + [v];
      EncodeAppend(order, vs[1..], v);
    }
  }

  method WriteArgument(builder: MessageBuilder, v: Value)
    modifies builder
    ensures builder.payload == old(builder.payload) + Encode(builder.order, v)
    ensures builder.fds == old(builder.fds) + EncodeFds(v)
  {
    match v {
      case IntValue(signed) => builder.WriteI32(signed);
      case UintValue(unsigned) => builder.WriteU32(unsigned);
      case FixedValue(raw) => builder.WriteI32(raw);
      case TextValue(text) =>
        if text.Some? {
          builder.WriteString(text.value);
        } else {
          builder.WriteU32(0);
        }
      case ObjectValue(target) => builder.WriteU32(target);
      case NewIdValue(id) => builder.WriteU32(id);
      case UntypedNewIdValue(name, version, id) =>
        builder.WriteString(name);
        builder.WriteU32(version);
        builder.WriteU32(id);
      case ArrayValue(bytes) => builder.WriteArray(bytes);
      case DescriptorValue(fd) => builder.WriteFd(fd);
    }
  }

  method WriteArguments(builder: MessageBuilder, vs: seq<Value>)
    modifies builder
    ensures builder.payload == old(builder.payload) + EncodeAll(builder.order, vs)
    ensures builder.fds == old(builder.fds) + AllFds(vs)
  {
    hide Encode, EncodeFds;
    var i := 0;
    while i < |vs|
      invariant 0 <= i <= |vs|
      invariant builder.payload == old(builder.payload) + EncodeAll(builder.order, vs[..i])
      invariant builder.fds == old(builder.fds) + AllFds(vs[..i])
    {
      assert vs[..i + 1] == vs[..i] + [vs[i]];
      EncodeAppend(builder.order, vs[..i], vs[i]);
      hide EncodeAll, AllFds;
      WriteArgument(builder, vs[i]);
      i := i + 1;
    }
    assert vs[..|vs|] == vs;
  }

  // ---- reading ----

  /** One argument, or all of a message's, and where the reader stands after it. */
  datatype Argument = Argument(value: Value, offset: nat, fdOffset: nat) | BadArgument(error: WireError)

  datatype Arguments = Arguments(values: seq<Value>, offset: nat, fdOffset: nat) | BadArguments(error: WireError)

  function Advanced<T>(read: Read<T>, fdOffset: nat, wrap: T -> Value): Argument {
    if read.result.Ok? then Argument(wrap(read.result.value), read.offset, fdOffset) else BadArgument(read.result.error)
  }

  function ReadValue(order: ByteOrder, t: ArgType, payload: seq<byte>, offset: nat, fds: seq<Fd>, fdOffset: nat)
    : Argument
  {
    match t
    case Int => Advanced(ReadU32(order, payload, offset), fdOffset, w => IntValue(Signed(w)))
    case Uint => Advanced(ReadU32(order, payload, offset), fdOffset, w => UintValue(w))
    case Fixed => Advanced(ReadU32(order, payload, offset), fdOffset, w => FixedValue(Signed(w)))
    case String(nullable) => Advanced(ReadStringValue(order, payload, offset, nullable), fdOffset, s => TextValue(s))
    case Object(_, _) => Advanced(ReadU32(order, payload, offset), fdOffset, w => ObjectValue(w))
    case NewId(creates) =>
      if creates.Some? then Advanced(ReadU32(order, payload, offset), fdOffset, w => NewIdValue(w))
      else ReadUntypedNewId(order, payload, offset, fdOffset)
    case Array => Advanced(ReadArray(order, payload, offset), fdOffset, b => ArrayValue(b))
    case Descriptor =>
      if fdOffset < |fds| then Argument(DescriptorValue(fds[fdOffset]), offset, fdOffset + 1) else BadArgument(MissingFd)
  }

  function ReadUntypedNewId(order: ByteOrder, payload: seq<byte>, offset: nat, fdOffset: nat): Argument {
    var name := ReadStringValue(order, payload, offset, false);
    if name.result.Err? then BadArgument(name.result.error)
    else if name.result.value.None? then BadArgument(InvalidString)
    else
      var version := ReadU32(order, payload, name.offset);
      if version.result.Err? then BadArgument(version.result.error)
      else
        var id := ReadU32(order, payload, version.offset);
        if id.result.Err? then BadArgument(id.result.error)
        else Argument(UntypedNewIdValue(name.result.value.value, version.result.value, id.result.value), id.offset, fdOffset)
  }

  function ReadAll(order: ByteOrder, ts: seq<ArgType>, payload: seq<byte>, offset: nat, fds: seq<Fd>, fdOffset: nat)
    : Arguments
  {
    if ts == [] then Arguments([], offset, fdOffset)
    else
      match ReadValue(order, ts[0], payload, offset, fds, fdOffset)
      case BadArgument(e) => BadArguments(e)
      case Argument(value, next, nextFd) =>
        match ReadAll(order, ts[1..], payload, next, fds, nextFd)
        case BadArguments(e) => BadArguments(e)
        case Arguments(rest, end, endFd) => Arguments([value] + rest, end, endFd)
  }

  method ReadArgument(msg: WireMessage, t: ArgType) returns (r: Argument)
    modifies msg
    ensures r == ReadValue(msg.order, t, msg.payload, old(msg.offset), msg.fds, old(msg.fdOffset))
    ensures r.Argument? ==> msg.offset == r.offset && msg.fdOffset == r.fdOffset
  {
    match t {
      case Int =>
        var word := msg.NextI32();
        r := if word.Ok? then Argument(IntValue(word.value), msg.offset, msg.fdOffset) else BadArgument(word.error);
      case Uint =>
        var word := msg.NextU32();
        r := if word.Ok? then Argument(UintValue(word.value), msg.offset, msg.fdOffset) else BadArgument(word.error);
      case Fixed =>
        var word := msg.NextI32();
        r := if word.Ok? then Argument(FixedValue(word.value), msg.offset, msg.fdOffset) else BadArgument(word.error);
      case String(nullable) =>
        var text := msg.NextStringValue(nullable);
        r := if text.Ok? then Argument(TextValue(text.value), msg.offset, msg.fdOffset) else BadArgument(text.error);
      case Object(_, _) =>
        var word := msg.NextU32();
        r := if word.Ok? then Argument(ObjectValue(word.value), msg.offset, msg.fdOffset) else BadArgument(word.error);
      case NewId(creates) =>
        if creates.None? {
          r := ReadUntypedId(msg);
        } else {
          var word := msg.NextU32();
          r := if word.Ok? then Argument(NewIdValue(word.value), msg.offset, msg.fdOffset) else BadArgument(word.error);
        }
      case Array =>
        var bytes := msg.NextArray();
        r := if bytes.Ok? then Argument(ArrayValue(bytes.value), msg.offset, msg.fdOffset) else BadArgument(bytes.error);
      case Descriptor =>
        var fd := msg.NextFd();
        r := if fd.Ok? then Argument(DescriptorValue(fd.value), msg.offset, msg.fdOffset) else BadArgument(fd.error);
    }
  }

  method ReadUntypedId(msg: WireMessage) returns (r: Argument)
    modifies msg`offset
    ensures r == ReadUntypedNewId(msg.order, msg.payload, old(msg.offset), msg.fdOffset)
    ensures r.Argument? ==> msg.offset == r.offset && msg.fdOffset == r.fdOffset
  {
    var name := msg.NextStringValue(false);
    if name.Err? {
      return BadArgument(name.error);
    }
    if name.value.None? {
      return BadArgument(InvalidString);
    }
    var version := msg.NextU32();
    if version.Err? {
      return BadArgument(version.error);
    }
    var id := msg.NextU32();
    if id.Err? {
      return BadArgument(id.error);
    }
    r := Argument(UntypedNewIdValue(name.value.value, version.value, id.value), msg.offset, msg.fdOffset);
  }

  function Prepend(vs: seq<Value>, r: Arguments): Arguments {
    if r.Arguments? then Arguments(vs + r.values, r.offset, r.fdOffset) else r
  }

  /** The reading half of an emitted dispatch arm. */
  method ReadArguments(msg: WireMessage, ts: seq<ArgType>) returns (r: Arguments)
    modifies msg
    ensures r == ReadAll(msg.order, ts, msg.payload, old(msg.offset), msg.fds, old(msg.fdOffset))
    ensures r.Arguments? ==> msg.offset == r.offset && msg.fdOffset == r.fdOffset
  {
    var values: seq<Value> := [];
    var i := 0;
    while i < |ts|
      invariant 0 <= i <= |ts|
      invariant Prepend(values, ReadAll(msg.order, ts[i..], msg.payload, msg.offset, msg.fds, msg.fdOffset))
             == ReadAll(msg.order, ts, msg.payload, old(msg.offset), msg.fds, old(msg.fdOffset))
    {
      assert ts[i..][1..] == ts[i + 1..];
      var argument := ReadArgument(msg, ts[i]);
      if argument.BadArgument? {
        return BadArguments(argument.error);
      }
      values := values + [argument.value];
      i := i + 1;
    }
    r := Arguments(values, msg.offset, msg.fdOffset);
  }

  // ---- round trip ----

  function CutText(text: seq<byte>): seq<byte> {
    text[..FirstNul(text)]
  }

  /** What a reader makes of a written value: text ends at its first NUL. */
  function Cut(v: Value): Value {
    match v
    case TextValue(text) => if text.Some? then TextValue(Some(CutText(text.value))) else v
    case UntypedNewIdValue(name, version, id) => UntypedNewIdValue(CutText(name), version, id)
    case _ => v
  }

  predicate NulFree(v: Value) {
    && (v.TextValue? && v.text.Some? ==> 0 !in v.text.value)
    && (v.UntypedNewIdValue? ==> 0 !in v.name)
  }

  lemma CutKeepsIff(v: Value)
    ensures Cut(v) == v <==> NulFree(v)
  {
    match v
    case TextValue(text) =>
      if text.Some? {
        CutTextKeepsIff(text.value);
      }
    case UntypedNewIdValue(name, _, _) => CutTextKeepsIff(name);
    case _ =>
  }

  lemma CutTextKeepsIff(text: seq<byte>)
    ensures CutText(text) == text <==> 0 !in text
  {
  }

  function CutAll(vs: seq<Value>): seq<Value> {
    if vs == [] then [] else [Cut(vs[0])] + CutAll(vs[1..])
  }

  lemma {:induction false} CutAllKeepsIff(vs: seq<Value>)
    ensures |CutAll(vs)| == |vs|
    ensures CutAll(vs) == vs <==> forall i | 0 <= i < |vs| :: NulFree(vs[i])
  {
    hide Cut, NulFree;
    if vs != [] {
      CutKeepsIff(vs[0]);
      CutAllKeepsIff(vs[1..]);
      SameAsFirstAndRest(Cut(vs[0]), CutAll(vs[1..]), vs);
      assert (forall i | 0 <= i < |vs| :: NulFree(vs[i])) ==> forall i | 0 <= i < |vs[1..]| :: NulFree(vs[1..][i]);
      assert forall i | 0 < i < |vs| :: vs[i] == vs[1..][i - 1];
    }
  }

  lemma SameAsFirstAndRest(first: Value, rest: seq<Value>, vs: seq<Value>)
    requires vs != []
    ensures [first] + rest == vs <==> first == vs[0] && rest == vs[1..]
  {
    assert ([first] + rest)[1..] == rest;
  }

  lemma ValueReadsBack(order: ByteOrder, t: ArgType, v: Value, pre: seq<byte>, post: seq<byte>, fpre: seq<Fd>, fpost: seq<Fd>)
    requires Typed(v, t) && |Encode(order, v)| < 0x1_0000_0000
    ensures ReadValue(order, t, pre + Encode(order, v) + post, |pre|, fpre + EncodeFds(v) + fpost, |fpre|)
         == Argument(Cut(v), |pre| + |Encode(order, v)|, |fpre| + |EncodeFds(v)|)
  {
    hide U32Bytes, Block, ReadU32, ReadArray, ReadStringValue, FirstNul, IsUtf8;
    match v
    case IntValue(signed) =>
      WordReadsBack(order, pre, Unsigned(signed), post);
    case UintValue(unsigned) => WordReadsBack(order, pre, unsigned, post);
    case FixedValue(raw) => WordReadsBack(order, pre, Unsigned(raw), post);
    case TextValue(text) =>
      if text.Some? {
        BlockLength(order, text.value + [0]);
        StringReadsBack(order, pre, text.value, post, t.nullable);
      } else {
        NullReadsBack(order, pre, post);
      }
    case ObjectValue(target) => WordReadsBack(order, pre, target, post);
    case NewIdValue(id) => WordReadsBack(order, pre, id, post);
    case UntypedNewIdValue(name, version, id) => UntypedReadsBack(order, name, version, id, pre, post, |fpre|);
    case ArrayValue(bytes) =>
      BlockLength(order, bytes);
      ArrayReadsBack(order, pre, bytes, post);
    case DescriptorValue(fd) =>
      assert (fpre + [fd] + fpost)[|fpre|] == fd;
      assert pre + [] + post == pre + post;
  }

  lemma BlockLength(order: ByteOrder, bytes: seq<byte>)
    ensures |Block(order, bytes)| == 4 + |bytes| + Padding(|bytes|)
  {
  }

  lemma NullReadsBack(order: ByteOrder, pre: seq<byte>, post: seq<byte>)
    ensures ReadStringValue(order, pre + U32Bytes(order, 0) + post, |pre|, true) == Read(Ok(None), |pre| + 4)
  {
    hide ReadU32, U32Bytes;
    WordReadsBack(order, pre, 0, post);
  }

  lemma UntypedReadsBack(order: ByteOrder, name: seq<byte>, version: u32, id: u32, pre: seq<byte>, post: seq<byte>, fdOffset: nat)
    requires IsUtf8(name) && |Block(order, name + [0])| < 0x1_0000_0000
    ensures var bytes := Block(order, name + [0]) + U32Bytes(order, version) + U32Bytes(order, id);
            ReadUntypedNewId(order, pre + bytes + post, |pre|, fdOffset)
              == Argument(UntypedNewIdValue(CutText(name), version, id), |pre| + |bytes|, fdOffset)
  {
    hide U32Bytes, Block, ReadU32, ReadStringValue, FirstNul, IsUtf8;
    var text, v, i := Block(order, name + [0]), U32Bytes(order, version), U32Bytes(order, id);
    var payload := pre + (text + v + i) + post;
    BlockLength(order, name + [0]);
    assert payload == pre + text + (v + i + post);
    StringReadsBack(order, pre, name, v + i + post, false);
    assert payload == (pre + text) + v + (i + post);
    WordReadsBack(order, pre + text, version, i + post);
    assert payload == (pre + text + v) + i + post;
    WordReadsBack(order, pre + text + v, id, post);
  }

  /** `part` is what `whole` holds at `offset`. */
  predicate Holds<T(==)>(whole: seq<T>, offset: nat, part: seq<T>) {
    offset + |part| <= |whole| && whole[offset..offset + |part|] == part
  }

  lemma HoldsBoth<T>(whole: seq<T>, offset: nat, a: seq<T>, b: seq<T>)
    requires Holds(whole, offset, a + b)
    ensures Holds(whole, offset, a) && Holds(whole, offset + |a|, b)
  {
    var middle := whole[offset..offset + |a + b|];
    assert middle[..|a|] == a && middle[|a|..] == b;
  }

  lemma HoldsSplits<T>(whole: seq<T>, offset: nat, part: seq<T>)
    requires Holds(whole, offset, part)
    ensures whole == whole[..offset] + part + whole[offset + |part|..]
  {
  }

  lemma ValueReadsAt(order: ByteOrder, t: ArgType, v: Value, payload: seq<byte>, offset: nat, fds: seq<Fd>, fdOffset: nat)
    requires Typed(v, t) && |Encode(order, v)| < 0x1_0000_0000
    requires Holds(payload, offset, Encode(order, v)) && Holds(fds, fdOffset, EncodeFds(v))
    ensures ReadValue(order, t, payload, offset, fds, fdOffset)
         == Argument(Cut(v), offset + |Encode(order, v)|, fdOffset + |EncodeFds(v)|)
  {
    HoldsSplits(payload, offset, Encode(order, v));
    HoldsSplits(fds, fdOffset, EncodeFds(v));
    ValueReadsBack(order, t, v, payload[..offset], payload[offset + |Encode(order, v)|..],
                   fds[..fdOffset], fds[fdOffset + |EncodeFds(v)|..]);
  }

  /** Written arguments, anywhere in a stream, read back as themselves up to NULs in
      text; the read ends exactly where they end, and takes their descriptors in order. */
  lemma {:induction false} ArgumentsReadBack(order: ByteOrder, ts: seq<ArgType>, vs: seq<Value>,
      payload: seq<byte>, offset: nat, fds: seq<Fd>, fdOffset: nat)
    requires TypedAll(vs, ts) && |EncodeAll(order, vs)| < 0x1_0000_0000
    requires Holds(payload, offset, EncodeAll(order, vs)) && Holds(fds, fdOffset, AllFds(vs))
    ensures ReadAll(order, ts, payload, offset, fds, fdOffset)
         == Arguments(CutAll(vs), offset + |EncodeAll(order, vs)|, fdOffset + |AllFds(vs)|)
    decreases |vs|
  {
    hide *;
    assert |ts| == |vs| by {
      SameLength(ts, vs);
    }
    if vs == [] {
      NoArguments(order, payload, offset, fds, fdOffset);
    } else {
      var v, rest, t, trest := vs[0], vs[1..], ts[0], ts[1..];
      Uncons(order, ts, vs);
      HoldsBoth(payload, offset, Encode(order, v), EncodeAll(order, rest));
      HoldsBoth(fds, fdOffset, EncodeFds(v), AllFds(rest));
      ValueReadsAt(order, t, v, payload, offset, fds, fdOffset);
      var next, nextFd := offset + |Encode(order, v)|, fdOffset + |EncodeFds(v)|;
      ArgumentsReadBack(order, trest, rest, payload, next, fds, nextFd);
      ReadAllStep(order, ts, payload, offset, fds, fdOffset, Cut(v), next, nextFd,
                  CutAll(rest), next + |EncodeAll(order, rest)|, nextFd + |AllFds(rest)|);
    }
  }

  lemma SameLength(ts: seq<ArgType>, vs: seq<Value>)
    requires TypedAll(vs, ts)
    ensures |ts| == |vs|
  {
  }

  lemma NoArguments(order: ByteOrder, payload: seq<byte>, offset: nat, fds: seq<Fd>, fdOffset: nat)
    ensures ReadAll(order, [], payload, offset, fds, fdOffset) == Arguments(CutAll([]), offset, fdOffset)
    ensures EncodeAll(order, []) == [] && AllFds([]) == []
  {
  }

  lemma Uncons(order: ByteOrder, ts: seq<ArgType>, vs: seq<Value>)
    requires TypedAll(vs, ts) && vs != []
    ensures ts != [] && TypedAll(vs[1..], ts[1..]) && Typed(vs[0], ts[0])
    ensures EncodeAll(order, vs) == Encode(order, vs[0]) + EncodeAll(order, vs[1..])
    ensures AllFds(vs) == EncodeFds(vs[0]) + AllFds(vs[1..])
    ensures CutAll(vs) == [Cut(vs[0])] + CutAll(vs[1..])
  {
  }

  lemma ReadAllStep(order: ByteOrder, ts: seq<ArgType>, payload: seq<byte>, offset: nat, fds: seq<Fd>, fdOffset: nat,
      value: Value, next: nat, nextFd: nat, values: seq<Value>, end: nat, endFd: nat)
    requires ts != [] && ReadValue(order, ts[0], payload, offset, fds, fdOffset) == Argument(value, next, nextFd)
    requires ReadAll(order, ts[1..], payload, next, fds, nextFd) == Arguments(values, end, endFd)
    ensures ReadAll(order, ts, payload, offset, fds, fdOffset) == Arguments([value] + values, end, endFd)
  {
  }

  /** Arguments without NULs in text survive writing and reading unchanged, and only those do. */
  lemma RoundTripIff(order: ByteOrder, ts: seq<ArgType>, vs: seq<Value>)
    requires TypedAll(vs, ts) && |EncodeAll(order, vs)| < 0x1_0000_0000
    ensures var read := ReadAll(order, ts, EncodeAll(order, vs), 0, AllFds(vs), 0);
            && read.Arguments? && read.offset == |EncodeAll(order, vs)| && read.fdOffset == |AllFds(vs)|
            && (read.values == vs <==> forall i | 0 <= i < |vs| :: NulFree(vs[i]))
  {
    ArgumentsReadBack(order, ts, vs, EncodeAll(order, vs), 0, AllFds(vs), 0);
    CutAllKeepsIff(vs);
  }
}

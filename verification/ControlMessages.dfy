/**
 Descriptors received over a Unix socket: the ancillary data of one receive, as the
 kernel lays it out on 64-bit systems, and the proxy's own decoder for it
 (sommelier/src/connection.rs).
 */
module ControlMessages {
  import opened Prelude
  import opened Wire
  import opened Closing

  const HEADER_SIZE: nat := 16
  const ALIGNMENT: nat := 8
  const SOL_SOCKET: i32 := 1
  const SCM_RIGHTS: i32 := 1

  function RoundedUp(n: nat): (r: nat)
    ensures n <= r < n + ALIGNMENT && r % ALIGNMENT == 0
  {
    RoundsUp(n);
    (n + ALIGNMENT - 1) / ALIGNMENT * ALIGNMENT
  }

  lemma RoundsUp(n: nat)
    ensures var r := (n + 7) / 8 * 8; n <= r < n + 8 && r % 8 == 0
  {
  }

  // ---- decoding ----

  /** Four-byte descriptor numbers, one after the other. */
  function DescriptorsIn(order: ByteOrder, payload: seq<byte>): (fds: seq<Fd>)
    requires |payload| % 4 == 0
  {
    if payload == [] then [] else [Signed(BytesU32(order, payload[..4]))] + DescriptorsIn(order, payload[4..])
  }

  predicate IsRights(order: ByteOrder, message: seq<byte>)
    requires |message| >= HEADER_SIZE
  {
    && Signed(BytesU32(order, message[8..12])) == SOL_SOCKET
    && Signed(BytesU32(order, message[12..16])) == SCM_RIGHTS
  }

  /** One message: the descriptors it passes, and where the next one begins. */
  datatype Taken = Bad(found: seq<Fd>) | Good(found: seq<Fd>, next: nat)

  /** The message at `offset`. Addresses are 64-bit, and `start` is the buffer's. */
  function Take(order: ByteOrder, start: nat, control: seq<byte>, offset: nat): (t: Taken)
    requires offset <= |control|
    ensures t.Good? ==> offset < t.next
  {
    if |control| - offset < HEADER_SIZE then Bad([])
    else
      var length := BytesU64(order, control[offset..offset + 8]);
      if length < HEADER_SIZE || length > |control| - offset then Bad([])
      else
        var message := control[offset..offset + length];
        if IsRights(order, message) && (length - HEADER_SIZE) % 4 != 0 then Bad([])
        else
          var found := if IsRights(order, message) then DescriptorsIn(order, message[HEADER_SIZE..]) else [];
          var next := offset + RoundedUp(length);
          if length + ALIGNMENT - 1 >= U64_LIMIT || start + next >= U64_LIMIT then Bad(found) else Good(found, next)
  }

  /** The descriptors found, up to the end of the chain or up to something malformed. */
  datatype Decoding = Collected(fds: seq<Fd>) | Malformed(fds: seq<Fd>)

  predicate GoesOn(control: seq<byte>, next: nat) {
    next < |control| && |control| - next >= HEADER_SIZE
  }

  /** The chain from `offset` on. */
  function Decode(order: ByteOrder, start: nat, control: seq<byte>, offset: nat, fds: seq<Fd>): Decoding
    requires offset <= |control|
    decreases |control| - offset
  {
    match Take(order, start, control, offset)
    case Bad(found) => Malformed(fds + found)
    case Good(found, next) =>
      if GoesOn(control, next) then Decode(order, start, control, next, fds + found) else Collected(fds + found)
  }

  /** A buffer too small for one header holds nothing. */
  function DecodeAll(order: ByteOrder, start: nat, control: seq<byte>): Decoding {
    if start + |control| >= U64_LIMIT then Malformed([])
    else if |control| < HEADER_SIZE then Collected([])
    else Decode(order, start, control, 0, [])
  }

  datatype ControlError = BadControlData | TruncatedControlData

  /** The decoder. Every descriptor it comes across is either returned or closed once,
      also when the data is malformed or the kernel reports that it cut it off. */
  method DecodeUnixControlFds(order: ByteOrder, start: nat, control: seq<byte>, truncated: bool)
      returns (r: Result<seq<Fd>, ControlError>, closed: seq<Fd>)
    ensures var d := DecodeAll(order, start, control);
            && (r.Ok? <==> d.Collected? && !truncated)
            && (r.Ok? ==> r.value == d.fds && closed == [])
            && (r.Err? ==> r.error == if d.Malformed? then BadControlData else TruncatedControlData)
            && (r.Err? ==> forall fd :: fd in closed <==> fd in d.fds && fd >= 0)
    ensures forall i, j | 0 <= i < j < |closed| :: closed[i] != closed[j]
  {
    closed := [];
    if start + |control| >= U64_LIMIT {
      return Err(BadControlData), [];
    }
    var fds: seq<Fd> := [];
    var offset := 0;
    var more := |control| >= HEADER_SIZE;
    while more
      invariant offset <= |control|
      invariant DecodeAll(order, start, control)
             == if more then Decode(order, start, control, offset, fds) else Collected(fds)
      decreases more, |control| - offset
    {
      var taken := TakeMessage(order, start, control, offset);
      fds := fds + taken.found;
      if taken.Bad? {
        closed := CloseEach(fds, []);
        return Err(BadControlData), closed;
      }
      more := GoesOn(control, taken.next);
      if more {
        offset := taken.next;
      }
    }
    if truncated {
      closed := CloseEach(fds, []);
      return Err(TruncatedControlData), closed;
    }
    r := Ok(fds);
  }

  lemma DescriptorsStep(order: ByteOrder, payload: seq<byte>, at: nat)
    requires at + 4 <= |payload| && (|payload| - at) % 4 == 0 && (|payload| - at - 4) % 4 == 0
    ensures DescriptorsIn(order, payload[at..])
         == [Signed(BytesU32(order, payload[at..at + 4]))] + DescriptorsIn(order, payload[at + 4..])
  {
    hide BytesU32, Signed;
    assert payload[at..][..4] == payload[at..at + 4] && payload[at..][4..] == payload[at + 4..];
  }

  lemma WholeWords(n: nat)
    ensures (4 * n) % 4 == 0
  {
  }

  lemma DescriptorsMove(order: ByteOrder, payload: seq<byte>, at: nat, fds: seq<Fd>)
    requires at + 4 <= |payload| && (|payload| - at) % 4 == 0 && (|payload| - at - 4) % 4 == 0
    ensures fds + DescriptorsIn(order, payload[at..])
         == fds + [Signed(BytesU32(order, payload[at..at + 4]))] + DescriptorsIn(order, payload[at + 4..])
  {
    DescriptorsStep(order, payload, at);
    hide BytesU32, DescriptorsIn, Signed;
  }

  method ReadDescriptors(order: ByteOrder, payload: seq<byte>) returns (fds: seq<Fd>)
    requires |payload| % 4 == 0
    ensures fds == DescriptorsIn(order, payload)
  {
    var count := |payload| / 4;
    assert |payload| == 4 * count && DescriptorsIn(order, []) == [];
    hide BytesU32, DescriptorsIn, Signed;
    fds := [];
    var i := 0;
    while i < count
      invariant 0 <= i <= count
      invariant (|payload| - 4 * i) % 4 == 0
      invariant fds + DescriptorsIn(order, payload[4 * i..]) == DescriptorsIn(order, payload)
    {
      WholeWords(count - i);
      WholeWords(count - i - 1);
      DescriptorsMove(order, payload, 4 * i, fds);
      fds := fds + [Signed(BytesU32(order, payload[4 * i..4 * i + 4]))];
      i := i + 1;
    }
    assert payload[4 * i..] == [];
  }

  method TakeMessage(order: ByteOrder, start: nat, control: seq<byte>, offset: nat) returns (taken: Taken)
    requires offset <= |control|
    ensures taken == Take(order, start, control, offset)
  {
    hide BytesU64, BytesU32;
    if |control| - offset < HEADER_SIZE {
      return Bad([]);
    }
    var length := BytesU64(order, control[offset..offset + 8]);
    if length < HEADER_SIZE || length > |control| - offset {
      return Bad([]);
    }
    var message := control[offset..offset + length];
    var found: seq<Fd> := [];
    if IsRights(order, message) {
      if (length - HEADER_SIZE) % 4 != 0 {
        return Bad([]);
      }
      found := ReadDescriptors(order, message[HEADER_SIZE..]);
    }
    if length + ALIGNMENT - 1 >= U64_LIMIT || start + offset + RoundedUp(length) >= U64_LIMIT {
      return Bad(found);
    }
    taken := Good(found, offset + RoundedUp(length));
  }

  // ---- what the kernel writes ----

  datatype ControlMessage = Rights(fds: seq<i32>) | OtherMessage(level: i32, kind: i32, payload: seq<byte>)

  predicate Wellformed(m: ControlMessage) {
    match m
    case Rights(fds) => HEADER_SIZE + 4 * |fds| + ALIGNMENT <= U64_LIMIT
    case OtherMessage(level, kind, payload) =>
      (level != SOL_SOCKET || kind != SCM_RIGHTS) && HEADER_SIZE + |payload| + ALIGNMENT <= U64_LIMIT
  }

  function DescriptorBytes(order: ByteOrder, fds: seq<i32>): (bytes: seq<byte>)
    ensures |bytes| == 4 * |fds|
  {
    if fds == [] then [] else U32Bytes(order, Unsigned(fds[0])) + DescriptorBytes(order, fds[1..])
  }

  function EncodedWith(order: ByteOrder, level: i32, kind: i32, payload: seq<byte>): (bytes: seq<byte>)
    requires HEADER_SIZE + |payload| + ALIGNMENT <= U64_LIMIT
    ensures |bytes| == RoundedUp(HEADER_SIZE + |payload|)
  {
    U64Bytes(order, HEADER_SIZE + |payload|) + U32Bytes(order, Unsigned(level)) + U32Bytes(order, Unsigned(kind))
    + payload + Zeros(RoundedUp(HEADER_SIZE + |payload|) - HEADER_SIZE - |payload|)
  }

  function Encoded(order: ByteOrder, m: ControlMessage): (bytes: seq<byte>)
    requires Wellformed(m)
    ensures |bytes| >= HEADER_SIZE
  {
    match m
    case Rights(fds) => EncodedWith(order, SOL_SOCKET, SCM_RIGHTS, DescriptorBytes(order, fds))
    case OtherMessage(level, kind, payload) => EncodedWith(order, level, kind, payload)
  }

  function Chain(order: ByteOrder, ms: seq<ControlMessage>): seq<byte>
    requires forall i | 0 <= i < |ms| :: Wellformed(ms[i])
  {
    if ms == [] then [] else Encoded(order, ms[0]) + Chain(order, ms[1..])
  }

  function PassedBy(m: ControlMessage): seq<Fd> {
    if m.Rights? then m.fds else []
  }

  function Passed(ms: seq<ControlMessage>): seq<Fd> {
    if ms == [] then [] else PassedBy(ms[0]) + Passed(ms[1..])
  }

  lemma {:induction false} DescriptorsReadBack(order: ByteOrder, fds: seq<i32>)
    ensures DescriptorsIn(order, DescriptorBytes(order, fds)) == fds
  {
    if fds != [] {
      var bytes, rest := DescriptorBytes(order, fds), DescriptorBytes(order, fds[1..]);
      U32RoundTrip(order, Unsigned(fds[0]));
      hide U32Bytes, BytesU32;
      DescriptorsReadBack(order, fds[1..]);
      assert bytes[..4] == U32Bytes(order, Unsigned(fds[0])) && bytes[4..] == rest;
    }
  }

  /** The parts of an encoded message, wherever it stands. */
  lemma EncodedParts(order: ByteOrder, pre: seq<byte>, level: i32, kind: i32, payload: seq<byte>, post: seq<byte>)
    requires HEADER_SIZE + |payload| + ALIGNMENT <= U64_LIMIT
    ensures var control := pre + EncodedWith(order, level, kind, payload) + post;
            var length := HEADER_SIZE + |payload|;
            && |control| == |pre| + RoundedUp(length) + |post|
            && BytesU64(order, control[|pre|..|pre| + 8]) == length
            && var message := control[|pre|..|pre| + length];
            && message[HEADER_SIZE..] == payload
            && Signed(BytesU32(order, message[8..12])) == level
            && Signed(BytesU32(order, message[12..16])) == kind
  {
    var length := HEADER_SIZE + |payload|;
    var a, b, c := U64Bytes(order, length), U32Bytes(order, Unsigned(level)), U32Bytes(order, Unsigned(kind));
    U64RoundTrip(order, length);
    U32RoundTrip(order, Unsigned(level));
    U32RoundTrip(order, Unsigned(kind));
    assert Signed(Unsigned(level)) == level && Signed(Unsigned(kind)) == kind;
    hide U64Bytes, U32Bytes, BytesU64, BytesU32, RoundedUp, Zeros, Signed, Unsigned;
    var whole := EncodedWith(order, level, kind, payload);
    assert whole == a + b + c + payload + Zeros(RoundedUp(length) - length);
    FourParts(a, b, c, payload, Zeros(RoundedUp(length) - length));
    hide EncodedWith;
    SliceOf(pre, whole, post, 0, 8);
    SliceOf(pre, whole, post, 0, length);
  }

  lemma FourParts(a: seq<byte>, b: seq<byte>, c: seq<byte>, payload: seq<byte>, zeros: seq<byte>)
    requires |a| == 8 && |b| == 4 && |c| == 4
    ensures var whole := a + b + c + payload + zeros; var message := whole[..16 + |payload|];
            whole[0..8] == a && message[8..12] == b && message[12..16] == c && message[16..] == payload
            && whole[0..16 + |payload|] == message
  {
    var header := a + b + c;
    assert header[..8] == a && header[8..12] == b && header[12..] == c;
    var message := header + payload;
    assert message[..16] == header && message[16..] == payload;
    assert (message + zeros)[..16 + |payload|] == message;
  }

  lemma TakeGood(order: ByteOrder, start: nat, control: seq<byte>, offset: nat, length: nat, found: seq<Fd>)
    requires HEADER_SIZE <= length && offset + length <= |control| && BytesU64(order, control[offset..offset + 8]) == length
    requires var message := control[offset..offset + length];
             if IsRights(order, message)
             then (length - HEADER_SIZE) % 4 == 0 && DescriptorsIn(order, message[HEADER_SIZE..]) == found
             else found == []
    requires length + ALIGNMENT - 1 < U64_LIMIT && start + offset + RoundedUp(length) < U64_LIMIT
    ensures Take(order, start, control, offset) == Good(found, offset + RoundedUp(length))
  {
    hide BytesU64, IsRights, DescriptorsIn, RoundedUp;
  }

  lemma EncodedIsTaken(order: ByteOrder, start: nat, pre: seq<byte>, m: ControlMessage, post: seq<byte>)
    requires Wellformed(m) && start + |pre| + |Encoded(order, m)| < U64_LIMIT
    ensures Take(order, start, pre + Encoded(order, m) + post, |pre|)
         == Good(PassedBy(m), |pre| + |Encoded(order, m)|)
  {
    hide BytesU64, BytesU32, EncodedWith, DescriptorsIn, Take, RoundedUp, DescriptorBytes, Signed, IsRights;
    match m
    case Rights(fds) =>
      var payload := DescriptorBytes(order, fds);
      DescriptorsReadBack(order, fds);
      assert |payload| % 4 == 0;
      EncodedWithIsTaken(order, start, pre, SOL_SOCKET, SCM_RIGHTS, payload, post, DescriptorsIn(order, payload));
    case OtherMessage(level, kind, payload) =>
      EncodedWithIsTaken(order, start, pre, level, kind, payload, post, []);
  }

  lemma EncodedWithIsTaken(order: ByteOrder, start: nat, pre: seq<byte>, level: i32, kind: i32, payload: seq<byte>,
      post: seq<byte>, found: seq<Fd>)
    requires HEADER_SIZE + |payload| + ALIGNMENT <= U64_LIMIT
    requires start + |pre| + RoundedUp(HEADER_SIZE + |payload|) < U64_LIMIT
    requires if level == SOL_SOCKET && kind == SCM_RIGHTS then |payload| % 4 == 0 && DescriptorsIn(order, payload) == found
             else found == []
    ensures Take(order, start, pre + EncodedWith(order, level, kind, payload) + post, |pre|)
         == Good(found, |pre| + RoundedUp(HEADER_SIZE + |payload|))
  {
    hide BytesU64, BytesU32, EncodedWith, DescriptorsIn, Take, RoundedUp, Signed;
    var control := pre + EncodedWith(order, level, kind, payload) + post;
    EncodedParts(order, pre, level, kind, payload, post);
    TakeGood(order, start, control, |pre|, HEADER_SIZE + |payload|, found);
  }

  lemma ChainSplits(order: ByteOrder, ms: seq<ControlMessage>)
    requires ms != [] && forall i | 0 <= i < |ms| :: Wellformed(ms[i])
    ensures forall i | 0 <= i < |ms[1..]| :: Wellformed(ms[1..][i])
    ensures Chain(order, ms) == Encoded(order, ms[0]) + Chain(order, ms[1..])
    ensures Passed(ms) == PassedBy(ms[0]) + Passed(ms[1..])
    ensures if ms[1..] == [] then Chain(order, ms[1..]) == [] && Passed(ms[1..]) == []
            else |Chain(order, ms[1..])| >= HEADER_SIZE
    ensures HEADER_SIZE > 0
  {
    hide Encoded, Wellformed;
  }

  /** Decoding continues behind an encoded message, or ends there. */
  lemma DecodeStep(order: ByteOrder, start: nat, pre: seq<byte>, m: ControlMessage, rest: seq<byte>, fds: seq<Fd>)
    requires Wellformed(m) && start + |pre| + |Encoded(order, m)| < U64_LIMIT
    ensures var control := pre + Encoded(order, m) + rest; var next := |pre| + |Encoded(order, m)|;
            Decode(order, start, control, |pre|, fds)
            == if |rest| >= HEADER_SIZE then Decode(order, start, control, next, fds + PassedBy(m))
               else Collected(fds + PassedBy(m))
  {
    hide *;
    EncodedIsTaken(order, start, pre, m, rest);
    var control, next := pre + Encoded(order, m) + rest, |pre| + |Encoded(order, m)|;
    DecodeGood(order, start, control, |pre|, fds, PassedBy(m), next);
    GoesOnIff(control, next, rest);
  }

  lemma DecodeGood(order: ByteOrder, start: nat, control: seq<byte>, offset: nat, fds: seq<Fd>, found: seq<Fd>, next: nat)
    requires offset <= |control| && Take(order, start, control, offset) == Good(found, next)
    ensures Decode(order, start, control, offset, fds)
         == if GoesOn(control, next) then Decode(order, start, control, next, fds + found) else Collected(fds + found)
  {
  }

  lemma GoesOnIff(control: seq<byte>, next: nat, rest: seq<byte>)
    requires |control| == next + |rest|
    ensures GoesOn(control, next) <==> |rest| >= HEADER_SIZE
  {
  }

  /** Whatever chain of messages the kernel writes, the decoder collects exactly the
      descriptors of its rights messages, in order. */
  lemma {:induction false} ChainIsDecoded(order: ByteOrder, start: nat, pre: seq<byte>, ms: seq<ControlMessage>, fds: seq<Fd>)
    requires ms != [] && forall i | 0 <= i < |ms| :: Wellformed(ms[i])
    requires start + |pre| + |Chain(order, ms)| < U64_LIMIT
    ensures Decode(order, start, pre + Chain(order, ms), |pre|, fds) == Collected(fds + Passed(ms))
    decreases |ms|
  {
    hide *;
    ChainSplits(order, ms);
    var one, rest, passed := Encoded(order, ms[0]), Chain(order, ms[1..]), PassedBy(ms[0]);
    DecodeStep(order, start, pre, ms[0], rest, fds);
    assert pre + Chain(order, ms) == pre + one + rest;
    if ms[1..] != [] {
      ChainIsDecoded(order, start, pre + one, ms[1..], fds + passed);
      assert fds + passed + Passed(ms[1..]) == fds + Passed(ms);
    } else {
      assert fds + passed == fds + Passed(ms);
    }
  }

  /** What one side passes, the other receives, unless the kernel had to cut it off. */
  lemma RightsRoundTrip(order: ByteOrder, start: nat, ms: seq<ControlMessage>)
    requires forall i | 0 <= i < |ms| :: Wellformed(ms[i])
    requires start + |Chain(order, ms)| < U64_LIMIT
    ensures DecodeAll(order, start, Chain(order, ms)) == Collected(Passed(ms))
  {
    hide *;
    NoChain(order);
    if ms == [] {
      DecodesAlone(order, start, []);
    } else {
      ChainSplits(order, ms);
      ChainIsDecoded(order, start, [], ms, []);
      DecodesAlone(order, start, Chain(order, ms));
      assert [] + Chain(order, ms) == Chain(order, ms) && [] + Passed(ms) == Passed(ms);
    }
  }

  lemma {:induction false} DecodeKeeps(order: ByteOrder, start: nat, control: seq<byte>, offset: nat, fds: seq<Fd>)
    requires offset <= |control|
    ensures fds <= Decode(order, start, control, offset, fds).fds
    decreases |control| - offset
  {
    hide Take;
    match Take(order, start, control, offset)
    case Bad(_) =>
    case Good(found, next) =>
      if GoesOn(control, next) {
        DecodeKeeps(order, start, control, next, fds + found);
      }
  }

  /** Whatever follows a chain, well formed or not, its descriptors have been found by then. */
  lemma {:induction false} FoundBeforeFault(order: ByteOrder, start: nat, pre: seq<byte>, ms: seq<ControlMessage>,
      junk: seq<byte>, fds: seq<Fd>)
    requires forall i | 0 <= i < |ms| :: Wellformed(ms[i])
    requires start + |pre| + |Chain(order, ms)| + |junk| < U64_LIMIT
    ensures fds + Passed(ms) <= Decode(order, start, pre + Chain(order, ms) + junk, |pre|, fds).fds
    decreases |ms|
  {
    hide *;
    if ms == [] {
      NoChain(order);
      DecodeKeeps(order, start, pre + Chain(order, ms) + junk, |pre|, fds);
      assert fds + Passed(ms) == fds;
    } else {
      ChainSplits(order, ms);
      var one, rest, passed := Encoded(order, ms[0]), Chain(order, ms[1..]), PassedBy(ms[0]);
      DecodeStep(order, start, pre, ms[0], rest + junk, fds);
      assert pre + Chain(order, ms) + junk == pre + one + (rest + junk) == pre + one + rest + junk;
      FoundBeforeFault(order, start, pre + one, ms[1..], junk, fds + passed);
      assert fds + passed + Passed(ms[1..]) == fds + Passed(ms);
    }
  }

  lemma NoChain(order: ByteOrder)
    ensures Chain(order, []) == [] && Passed([]) == [] && 0 < HEADER_SIZE < U64_LIMIT
  {
  }

  lemma DecodesAlone(order: ByteOrder, start: nat, control: seq<byte>)
    requires start + |control| < U64_LIMIT
    ensures DecodeAll(order, start, control)
         == if |control| < HEADER_SIZE then Collected([]) else Decode(order, start, control, 0, [])
  {
    hide Decode;
  }
}

/**
 The dispatch loop (sommelier/src/proxy.rs): framing, ordered descriptors, bounded
 batches. The protocol handlers are a parameter: a function from the context, one
 message and the descriptors still queued to what the handler did.
 */
module Dispatch {
  import opened Prelude
  import opened Wire

  const MAX_MESSAGES_PER_BATCH: nat := 32

  datatype Direction = ClientToHost | HostToClient

  datatype Message = Message(sender: u32, opcode: u16, payload: seq<byte>)

  datatype Queued = Queued(data: seq<byte>, fds: seq<Fd>)

  datatype Forwarded = Nothing | Translated(data: seq<byte>, fds: seq<Fd>) | ProtocolFailure

  /** What dispatching one message did. `target` is the translated sender, captured
      before the handler ran; `forward` and `reverse` are what the handler queued in
      the message's direction and against it. */
  datatype Reply<C> =
    | UnknownSender
    | Dispatched(
        ctx: C,
        target: Option<u32>,
        payloadConsumed: bool,
        fdsUsed: nat,
        result: Forwarded,
        forward: seq<Queued>,
        reverse: seq<Queued>,
        opens: seq<Fd>,
        closes: seq<Fd>,
        fatal: bool)

  /** The handlers of one direction. The context holds everything their outcome may depend
      on: where that is the kernel's answers too, such as a failing `dup`, the answers yet
      to come are a part of it, and each message takes the first of them with it. */
  datatype Proxy<!C> = Proxy(order: ByteOrder, direction: Direction, dispatch: (C, Message, seq<Fd>) -> Reply<C>)

  // ---- framing ----

  datatype Frame = Incomplete | BadLength(found: nat) | Complete(message: Message, length: nat)

  predicate ValidLength(length: nat) {
    8 <= length <= 0xffff && length % 4 == 0
  }

  /** The message at the front of a byte stream. */
  function NextFrame(order: ByteOrder, buf: seq<byte>): (f: Frame)
    ensures f.Complete? ==> 8 <= f.length <= |buf|
  {
    if |buf| < 8 then Incomplete
    else
      var word := BytesU32(order, buf[4..8]);
      var length := word / 0x1_0000;
      if !ValidLength(length) then BadLength(length)
      else if length > |buf| then Incomplete
      else Complete(Message(BytesU32(order, buf[..4]), word % 0x1_0000, buf[8..length]), length)
  }

  lemma HeaderWord(order: ByteOrder, length: nat, opcode: u16)
    requires length <= 0xffff
    ensures var word := BytesU32(order, U32Bytes(order, length * 0x1_0000 + opcode));
            word / 0x1_0000 == length && word % 0x1_0000 == opcode
  {
    U32RoundTrip(order, length * 0x1_0000 + opcode);
  }

  /** A built message is split off again, whatever follows it. */
  lemma BuiltMessageIsFramed(order: ByteOrder, sender: u32, opcode: u16, payload: seq<byte>, rest: seq<byte>)
    requires Build(order, sender, opcode, payload).Ok?
    ensures var built := Build(order, sender, opcode, payload).value;
            NextFrame(order, built + rest) == Complete(Message(sender, opcode, payload), |built|)
  {
    hide U32Bytes, BytesU32, NextFrame;
    var total := |payload| + 8;
    var header := total * 0x1_0000 + opcode;
    U32RoundTrip(order, sender);
    U32RoundTrip(order, header);
    HeaderWord(order, total, opcode);
    Regrouped(U32Bytes(order, sender), U32Bytes(order, header), payload, rest);
    FrameIs(order, Build(order, sender, opcode, payload).value + rest, total);
  }

  lemma Regrouped(a: seq<byte>, b: seq<byte>, payload: seq<byte>, rest: seq<byte>)
    requires |a| == 4 && |b| == 4
    ensures var buf := a + b + payload + rest;
            buf[..4] == a && buf[4..8] == b && buf[8..|payload| + 8] == payload
  {
  }

  lemma FrameIs(order: ByteOrder, buf: seq<byte>, length: nat)
    requires ValidLength(length) && length <= |buf| && BytesU32(order, buf[4..8]) / 0x1_0000 == length
    ensures NextFrame(order, buf)
         == Complete(Message(BytesU32(order, buf[..4]), BytesU32(order, buf[4..8]) % 0x1_0000, buf[8..length]), length)
  {
    hide BytesU32;
  }

  /** And what is split off is the built form of its message, so nothing else is. */
  lemma FramedIsBuilt(order: ByteOrder, buf: seq<byte>)
    requires NextFrame(order, buf).Complete?
    ensures var f := NextFrame(order, buf);
            Build(order, f.message.sender, f.message.opcode, f.message.payload) == Ok(buf[..f.length])
  {
    var f := NextFrame(order, buf);
    var word := BytesU32(order, buf[4..8]);
    WordRoundTrip(order, buf[..4]);
    WordRoundTrip(order, buf[4..8]);
    hide U32Bytes, BytesU32;
    assert word == f.length * 0x1_0000 + f.message.opcode;
    assert buf[..4] + buf[4..8] + buf[8..f.length] == buf[..f.length];
  }

  /** All messages at the front of a stream, and the bytes of the last, unfinished one. */
  function Split(order: ByteOrder, buf: seq<byte>): (seq<Message>, seq<byte>) {
    match NextFrame(order, buf)
    case Complete(message, length) =>
      var rest := Split(order, buf[length..]);
      ([message] + rest.0, rest.1)
    case _ => ([], buf)
  }

  function Join(order: ByteOrder, messages: seq<Message>): seq<byte>
    requires forall i | 0 <= i < |messages| :: Build(order, messages[i].sender, messages[i].opcode, messages[i].payload).Ok?
  {
    if messages == [] then []
    else Build(order, messages[0].sender, messages[0].opcode, messages[0].payload).value + Join(order, messages[1..])
  }

  lemma SplitsFirst(order: ByteOrder, m: Message, rest: seq<byte>)
    requires Build(order, m.sender, m.opcode, m.payload).Ok?
    ensures var built := Build(order, m.sender, m.opcode, m.payload).value;
            Split(order, built + rest) == ([m] + Split(order, rest).0, Split(order, rest).1)
  {
    var built := Build(order, m.sender, m.opcode, m.payload).value;
    BuiltMessageIsFramed(order, m.sender, m.opcode, m.payload, rest);
    assert (built + rest)[|built|..] == rest;
    hide NextFrame, Build;
  }

  lemma NothingSplits(order: ByteOrder)
    ensures Split(order, []) == ([], [])
  {
  }

  /** A concatenation of built messages is split into exactly those messages. */
  lemma {:induction false} SplitUndoesJoin(order: ByteOrder, messages: seq<Message>)
    requires forall i | 0 <= i < |messages| :: Build(order, messages[i].sender, messages[i].opcode, messages[i].payload).Ok?
    ensures Split(order, Join(order, messages)) == (messages, [])
  {
    hide NextFrame, Build, Split;
    if messages == [] {
      NothingSplits(order);
    } else {
      SplitsFirst(order, messages[0], Join(order, messages[1..]));
      SplitUndoesJoin(order, messages[1..]);
      assert messages == [messages[0]] + messages[1..];
    }
  }

  /** A message can be built exactly when its length fits the header and is whole words; it is
      then its sender, a word with its whole length above its opcode, and its payload. */
  lemma BuildsIff(order: ByteOrder, sender: u32, opcode: u16, payload: seq<byte>)
    ensures Build(order, sender, opcode, payload).Ok? <==> ValidLength(|payload| + 8)
    ensures Build(order, sender, opcode, payload).Ok? ==>
              var built := Build(order, sender, opcode, payload).value;
              && |built| == |payload| + 8 && built[8..] == payload
              && BytesU32(order, built[..4]) == sender
              && BytesU32(order, built[4..8]) / 0x1_0000 == |built|
              && BytesU32(order, built[4..8]) % 0x1_0000 == opcode
  {
    if Build(order, sender, opcode, payload).Ok? {
      var header := (|payload| + 8) * 0x1_0000 + opcode;
      U32RoundTrip(order, sender);
      U32RoundTrip(order, header);
      HeaderWord(order, |payload| + 8, opcode);
      Regrouped(U32Bytes(order, sender), U32Bytes(order, header), payload, []);
      hide U32Bytes, BytesU32;
      var built := Build(order, sender, opcode, payload).value;
      assert built + [] == built && built[8..] == payload;
    }
  }

  // ---- one message ----

  /** A connection's stream and what has been collected from it so far. `taken` are the
      consumed descriptors, in order; `made` are those handlers queued in the message's
      direction; `opens` and `closes` are those they obtained and closed. */
  datatype Work<C> = Work(
    ctx: C,
    buf: seq<byte>,
    fds: seq<Fd>,
    ambiguous: bool,
    taken: seq<Fd>,
    out: seq<byte>,
    outFds: seq<Fd>,
    made: seq<Fd>,
    reverse: seq<Queued>,
    opens: seq<Fd>,
    closes: seq<Fd>,
    fatal: bool)
  {
    function Receive(bytes: seq<byte>): Work<C> {
      this.(buf := buf + bytes)
    }
  }

  function AllData(qs: seq<Queued>): seq<byte> {
    if qs == [] then [] else AllData(qs[..|qs| - 1]) + qs[|qs| - 1].data
  }

  function AllQueuedFds(qs: seq<Queued>): seq<Fd> {
    if qs == [] then [] else AllQueuedFds(qs[..|qs| - 1]) + qs[|qs| - 1].fds
  }

  lemma NothingQueued(qs: seq<Queued>)
    ensures AllData(qs[..0]) == [] && AllQueuedFds(qs[..0]) == [] && qs[..|qs|] == qs
  {
  }

  lemma OneMoreQueued(qs: seq<Queued>, i: nat)
    requires i < |qs|
    ensures AllData(qs[..i + 1]) == AllData(qs[..i]) + qs[i].data
    ensures AllQueuedFds(qs[..i + 1]) == AllQueuedFds(qs[..i]) + qs[i].fds
  {
    assert qs[..i + 1][..i] == qs[..i];
  }

  function Patched(order: ByteOrder, data: seq<byte>, target: Option<u32>): seq<byte> {
    if target.Some? && |data| >= 4 then U32Bytes(order, target.value) + data[4..] else data
  }

  /** Overwriting the sender of a forwarded message makes it the target's message, and
      changes nothing else, whatever the handler made of the pair meanwhile. */
  lemma PatchedIsFromTarget(order: ByteOrder, sender: u32, opcode: u16, payload: seq<byte>, target: u32)
    requires Build(order, sender, opcode, payload).Ok?
    ensures Build(order, target, opcode, payload)
         == Ok(Patched(order, Build(order, sender, opcode, payload).value, Some(target)))
  {
    var header := U32Bytes(order, (|payload| + 8) * 0x1_0000 + opcode);
    hide U32Bytes;
    assert (U32Bytes(order, sender) + header + payload)[4..] == header + payload;
    assert U32Bytes(order, target) + header + payload == U32Bytes(order, target) + (header + payload);
  }

  /** `leftover` is what a failing handler had queued and nobody collects. */
  datatype Progress<C> = Waiting | Failed(work: Work<C>, leftover: seq<Queued>) | Advanced(work: Work<C>)

  /** The reply ends the connection at once. */
  predicate Rejects<C>(p: Proxy<C>, fds: seq<Fd>, r: Reply<C>) {
    match r
    case UnknownSender => p.direction.ClientToHost?
    case Dispatched(_, _, consumed, used, result, _, _, _, _, _) => !consumed || result.ProtocolFailure? || used > |fds|
  }

  /** Take one complete message off the stream and collect what it leads to. */
  function Step<C>(p: Proxy<C>, w: Work<C>): Progress<C> {
    match NextFrame(p.order, w.buf)
    case Incomplete => Waiting
    case BadLength(_) => Failed(w, [])
    case Complete(message, length) =>
      if w.ambiguous then Failed(w, [])
      else
        var r := p.dispatch(w.ctx, message, w.fds);
        if Rejects(p, w.fds, r) then
          if r.UnknownSender? then Failed(w, [])
          else Failed(w.(ctx := r.ctx, opens := w.opens + r.opens, closes := w.closes + r.closes), r.forward + r.reverse)
        else if r.UnknownSender? then Advanced(w.(buf := w.buf[length..], ambiguous := w.fds != []))
        else Advanced(w.(
          ctx := r.ctx,
          buf := w.buf[length..],
          fds := w.fds[r.fdsUsed..],
          taken := w.taken + w.fds[..r.fdsUsed],
          out := w.out + (if r.result.Translated? then Patched(p.order, r.result.data, r.target) else []) + AllData(r.forward),
          outFds := w.outFds + (if r.result.Translated? then r.result.fds else []) + AllQueuedFds(r.forward),
          made := w.made + AllQueuedFds(r.forward),
          reverse := w.reverse + r.reverse,
          opens := w.opens + r.opens,
          closes := w.closes + r.closes,
          fatal := w.fatal || r.fatal))
  }

  lemma StepShortens<C>(p: Proxy<C>, w: Work<C>)
    requires Step(p, w).Advanced?
    ensures |Step(p, w).work.buf| < |w.buf|
  {
  }

  /** Up to `n` messages; stops early when a handler ends the connection. */
  function Batch<C>(p: Proxy<C>, w: Work<C>, n: nat): Option<Work<C>>
    decreases n
  {
    if n == 0 then Some(w)
    else
      match Step(p, w)
      case Waiting => Some(w)
      case Failed(_, _) => None
      case Advanced(v) => if v.fatal then Some(v) else Batch(p, v, n - 1)
  }

  /** Every complete message, one by one. */
  function Drain<C>(p: Proxy<C>, w: Work<C>): Option<Work<C>>
    decreases |w.buf|
  {
    match Step(p, w)
    case Waiting => Some(w)
    case Failed(_, _) => None
    case Advanced(v) =>
      StepShortens(p, w);
      Drain(p, v)
  }

  // ---- independence of fragmentation and batching ----

  lemma FrameIgnoresWhatFollows(order: ByteOrder, buf: seq<byte>, more: seq<byte>)
    requires !NextFrame(order, buf).Incomplete?
    ensures NextFrame(order, buf + more) == NextFrame(order, buf)
  {
    assert (buf + more)[4..8] == buf[4..8];
    assert (buf + more)[..4] == buf[..4];
    if NextFrame(order, buf).Complete? {
      var length := NextFrame(order, buf).length;
      assert (buf + more)[8..length] == buf[8..length];
    }
  }

  lemma StepIgnoresWhatFollows<C>(p: Proxy<C>, w: Work<C>, more: seq<byte>)
    requires Step(p, w).Advanced?
    ensures Step(p, w.Receive(more)) == Advanced(Step(p, w).work.Receive(more))
  {
    FrameIgnoresWhatFollows(p.order, w.buf, more);
    var length := NextFrame(p.order, w.buf).length;
    assert (w.buf + more)[length..] == w.buf[length..] + more;
  }

  lemma FailureIgnoresWhatFollows<C>(p: Proxy<C>, w: Work<C>, more: seq<byte>)
    requires Step(p, w).Failed?
    ensures Step(p, w.Receive(more)).Failed?
  {
    FrameIgnoresWhatFollows(p.order, w.buf, more);
  }

  lemma StepKeepsFatal<C>(p: Proxy<C>, w: Work<C>)
    requires Step(p, w).Advanced? && w.fatal
    ensures Step(p, w).work.fatal
  {
  }

  lemma {:induction false} DrainKeepsFatal<C>(p: Proxy<C>, w: Work<C>)
    requires Drain(p, w).Some? && w.fatal
    ensures Drain(p, w).value.fatal
    decreases |w.buf|
  {
    if Step(p, w).Advanced? {
      StepKeepsFatal(p, w);
      StepShortens(p, w);
      DrainKeepsFatal(p, Step(p, w).work);
    }
  }

  /** The stream, together with bytes still to come, is drained without an error. */
  ghost predicate DrainsTo<C>(p: Proxy<C>, w: Work<C>, more: seq<byte>, end: Work<C>) {
    Drain(p, w.Receive(more)) == Some(end) && !end.fatal
  }

  lemma {:induction false} BatchKeepsDrain<C>(p: Proxy<C>, w: Work<C>, n: nat, more: seq<byte>, end: Work<C>)
    requires DrainsTo(p, w, more, end)
    ensures Batch(p, w, n).Some? && DrainsTo(p, Batch(p, w, n).value, more, end)
    decreases n
  {
    hide Step;
    if n > 0 && Step(p, w).Failed? {
      FailureIgnoresWhatFollows(p, w, more);
    } else if n > 0 && Step(p, w).Advanced? {
      var v := Step(p, w).work;
      StepIgnoresWhatFollows(p, w, more);
      StepShortens(p, w.Receive(more));
      assert Drain(p, v.Receive(more)) == Some(end);
      if v.fatal {
        DrainKeepsFatal(p, v.Receive(more));
      }
      BatchKeepsDrain(p, v, n - 1, more, end);
    }
  }

  datatype Act = Receive(bytes: seq<byte>) | Process

  function Received(acts: seq<Act>): seq<byte> {
    if acts == [] then []
    else (if acts[0].Receive? then acts[0].bytes else []) + Received(acts[1..])
  }

  /** Receives and bounded batches in some order. */
  function Run<C>(p: Proxy<C>, w: Work<C>, acts: seq<Act>): Option<Work<C>>
    decreases |acts|
  {
    if acts == [] then Some(w)
    else
      match acts[0]
      case Receive(bytes) => Run(p, w.Receive(bytes), acts[1..])
      case Process =>
        match Batch(p, w, MAX_MESSAGES_PER_BATCH)
        case None => None
        case Some(v) => Run(p, v, acts[1..])
  }

  lemma {:induction false} RunKeepsDrain<C>(p: Proxy<C>, w: Work<C>, acts: seq<Act>, end: Work<C>)
    requires DrainsTo(p, w, Received(acts), end)
    ensures Run(p, w, acts).Some? && DrainsTo(p, Run(p, w, acts).value, [], end)
    decreases |acts|
  {
    hide Drain, Batch;
    if acts != [] {
      var more := Received(acts[1..]);
      match acts[0]
      case Receive(bytes) =>
        assert w.Receive(bytes).Receive(more) == w.Receive(Received(acts)) by {
          assert w.buf + bytes + more == w.buf + (bytes + more);
        }
        RunKeepsDrain(p, w.Receive(bytes), acts[1..], end);
      case Process =>
        assert Received(acts) == more;
        BatchKeepsDrain(p, w, MAX_MESSAGES_PER_BATCH, more, end);
        RunKeepsDrain(p, Batch(p, w, MAX_MESSAGES_PER_BATCH).value, acts[1..], end);
    }
  }

  /** However the bytes of an error-free stream are split into receives, and however the
      batches fall between them, once no complete message is left the context, the
      forwarded output, the replies and the descriptors are those of handling the whole
      stream message by message. */
  lemma FragmentationDoesNotMatter<C>(p: Proxy<C>, w: Work<C>, acts: seq<Act>, end: Work<C>)
    requires Drain(p, w.Receive(Received(acts))) == Some(end) && !end.fatal
    ensures Run(p, w, acts).Some?
    ensures Step(p, Run(p, w, acts).value).Waiting? ==> Run(p, w, acts) == Some(end)
  {
    RunKeepsDrain(p, w, acts, end);
    var r := Run(p, w, acts).value;
    assert r.buf + [] == r.buf;
    assert r.Receive([]) == r;
  }

  // ---- descriptors ----

  lemma StepKeepsDescriptorOrder<C>(p: Proxy<C>, w: Work<C>)
    requires Step(p, w).Advanced?
    ensures var v := Step(p, w).work; v.taken + v.fds == w.taken + w.fds
  {
    var m := NextFrame(p.order, w.buf).message;
    var r := p.dispatch(w.ctx, m, w.fds);
    if r.Dispatched? {
      assert w.fds[..r.fdsUsed] + w.fds[r.fdsUsed..] == w.fds;
    }
  }

  lemma {:induction false} BatchKeepsDescriptorOrder<C>(p: Proxy<C>, w: Work<C>, n: nat)
    requires Batch(p, w, n).Some?
    ensures var v := Batch(p, w, n).value; v.taken + v.fds == w.taken + w.fds
    decreases n
  {
    if n > 0 && Step(p, w).Advanced? {
      StepKeepsDescriptorOrder(p, w);
      if !Step(p, w).work.fatal {
        BatchKeepsDescriptorOrder(p, Step(p, w).work, n - 1);
      }
    }
  }

  /** The k-th descriptor any message consumes is the k-th one received: nothing is
      skipped, repeated or reordered, whatever the fragmentation. */
  lemma {:induction false} DescriptorsStayAligned<C>(p: Proxy<C>, w: Work<C>, acts: seq<Act>)
    requires Run(p, w, acts).Some?
    ensures var v := Run(p, w, acts).value; v.taken + v.fds == w.taken + w.fds
    decreases |acts|
  {
    if acts != [] {
      match acts[0]
      case Receive(bytes) => DescriptorsStayAligned(p, w.Receive(bytes), acts[1..]);
      case Process =>
        BatchKeepsDescriptorOrder(p, w, MAX_MESSAGES_PER_BATCH);
        DescriptorsStayAligned(p, Batch(p, w, MAX_MESSAGES_PER_BATCH).value, acts[1..]);
    }
  }

  lemma AmbiguousBatchIsIdle<C>(p: Proxy<C>, w: Work<C>, n: nat)
    requires w.ambiguous && Batch(p, w, n).Some?
    ensures Batch(p, w, n) == Some(w)
  {
  }

  /** After an untracked message went by with descriptors queued, no message ever
      consumes one: any later complete message ends the connection. */
  lemma {:induction false} AmbiguityIsFinal<C>(p: Proxy<C>, w: Work<C>, acts: seq<Act>)
    requires w.ambiguous && Run(p, w, acts).Some?
    ensures Run(p, w, acts) == Some(w.Receive(Received(acts)))
    decreases |acts|
  {
    hide Batch;
    if acts == [] {
      assert w.buf + [] == w.buf;
    } else {
      var more := Received(acts[1..]);
      match acts[0]
      case Receive(bytes) =>
        AmbiguityIsFinal(p, w.Receive(bytes), acts[1..]);
        assert w.buf + bytes + more == w.buf + (bytes + more);
      case Process =>
        AmbiguousBatchIsIdle(p, w, MAX_MESSAGES_PER_BATCH);
        AmbiguityIsFinal(p, w, acts[1..]);
        assert Received(acts) == more;
    }
  }

  lemma UntrackedLeavesAmbiguity<C>(p: Proxy<C>, w: Work<C>)
    requires Step(p, w).Advanced? && p.dispatch(w.ctx, NextFrame(p.order, w.buf).message, w.fds).UnknownSender?
    ensures p.direction.HostToClient?
    ensures Step(p, w).work.ambiguous <==> w.fds != []
    ensures Step(p, w).work.fds == w.fds && Step(p, w).work.taken == w.taken && Step(p, w).work.out == w.out
  {
  }

  // ---- how a batch ends ----

  /** The message loop of one batch: what it collected, and whether it ran to its end. */
  datatype Exit<C> = Exit(work: Work<C>, ok: bool, leftover: seq<Queued>)

  function Loop<C>(p: Proxy<C>, w: Work<C>, n: nat): Exit<C>
    decreases n
  {
    if n == 0 then Exit(w, true, [])
    else
      match Step(p, w)
      case Waiting => Exit(w, true, [])
      case Failed(v, leftover) => Exit(v, false, leftover)
      case Advanced(v) => if v.fatal then Exit(v, true, []) else Loop(p, v, n - 1)
  }

  /** One round of the loop. */
  lemma LoopIs<C>(p: Proxy<C>, w: Work<C>, n: nat)
    requires n > 0
    ensures Loop(p, w, n) == match Step(p, w)
                             case Waiting => Exit(w, true, [])
                             case Failed(v, leftover) => Exit(v, false, leftover)
                             case Advanced(v) => if v.fatal then Exit(v, true, []) else Loop(p, v, n - 1)
    ensures Loop(p, w, 0) == Exit(w, true, [])
  {
    hide Step;
  }

  lemma {:induction false} LoopIsBatch<C>(p: Proxy<C>, w: Work<C>, n: nat)
    ensures Batch(p, w, n) == if Loop(p, w, n).ok then Some(Loop(p, w, n).work) else None
    decreases n
  {
    if n > 0 && Step(p, w).Advanced? && !Step(p, w).work.fatal {
      LoopIsBatch(p, Step(p, w).work, n - 1);
    }
  }

  // ---- readiness ----

  /** `has_complete_message`: the length is taken from bytes 4 and 5. */
  predicate Ready(order: ByteOrder, buf: seq<byte>) {
    |buf| >= 8 &&
    var length := BytesU16(order, buf[4..6]);
    length < 8 || length % 4 != 0 || length <= |buf|
  }

  /** The next step consumes a message or fails. */
  predicate Progresses(order: ByteOrder, buf: seq<byte>) {
    !NextFrame(order, buf).Incomplete?
  }

  /** Upper and lower half of the header's second word. */
  function HeaderLength(order: ByteOrder, buf: seq<byte>): nat
    requires |buf| >= 8
  {
    BytesU32(order, buf[4..8]) / 0x1_0000
  }

  function HeaderOpcode(order: ByteOrder, buf: seq<byte>): nat
    requires |buf| >= 8
  {
    BytesU32(order, buf[4..8]) % 0x1_0000
  }

  predicate Settled(buf: seq<byte>, n: nat) {
    n < 8 || n % 4 != 0 || n <= |buf|
  }

  /** With big-endian words, readiness is exactly that the next step does something. */
  lemma ReadyIsProgressBigEndian(buf: seq<byte>)
    ensures Ready(BigEndian, buf) <==> Progresses(BigEndian, buf)
  {
  }

  lemma LittleEndianOpcode(buf: seq<byte>)
    requires |buf| >= 8
    ensures BytesU16(LittleEndian, buf[4..6]) == HeaderOpcode(LittleEndian, buf)
  {
    var low: nat, high: nat := BytesU16(LittleEndian, buf[4..6]), BytesU16(LittleEndian, buf[6..8]);
    assert BytesU32(LittleEndian, buf[4..8]) == high * 0x1_0000 + low;
    LowHalf(high, low);
  }

  lemma LowHalf(high: nat, low: nat)
    requires low < 0x1_0000
    ensures (high * 0x1_0000 + low) % 0x1_0000 == low
  {
  }

  /** With little-endian words the probe reads the opcode instead of the length, so
      the two agree exactly when opcode and length answer alike. */
  lemma ReadyIsProgressLittleEndianIff(buf: seq<byte>)
    requires |buf| >= 8
    ensures (Ready(LittleEndian, buf) <==> Progresses(LittleEndian, buf)) <==>
            (Settled(buf, HeaderOpcode(LittleEndian, buf)) <==> Settled(buf, HeaderLength(LittleEndian, buf)))
  {
    LittleEndianOpcode(buf);
    hide BytesU16, BytesU32;
  }

  /** A header alone, of a 16-byte message with opcode 0: reported ready, yet no
      batch changes anything, so the loop goes round without waiting. */
  lemma LittleEndianSpins<C>(p: Proxy<C>, w: Work<C>)
    requires p.order.LittleEndian? && w.buf == [1, 0, 0, 0, 0, 0, 16, 0]
    ensures Ready(LittleEndian, w.buf)
    ensures Batch(p, w, MAX_MESSAGES_PER_BATCH) == Some(w)
  {
    assert w.buf[4..8] == [0, 0, 16, 0];
    assert w.buf[4..6] == [0, 0];
    assert NextFrame(LittleEndian, w.buf).Incomplete?;
  }

  /** A complete 8-byte message with opcode 12 is not reported ready. */
  lemma LittleEndianMisses()
    ensures var buf: seq<byte> := [1, 0, 0, 0, 12, 0, 8, 0];
            !Ready(LittleEndian, buf) && NextFrame(LittleEndian, buf).Complete?
  {
    var buf: seq<byte> := [1, 0, 0, 0, 12, 0, 8, 0];
    assert buf[4..8] == [12, 0, 8, 0];
    assert buf[4..6] == [12, 0];
  }

  /** Where readiness means progress, every buffered batch shortens the stream or ends the connection. */
  lemma ReadyBatchesShorten<C>(p: Proxy<C>, w: Work<C>)
    requires Ready(p.order, w.buf) && (Ready(p.order, w.buf) <==> Progresses(p.order, w.buf))
    ensures var v := Batch(p, w, MAX_MESSAGES_PER_BATCH);
            v.Some? ==> |v.value.buf| < |w.buf|
  {
    if Step(p, w).Advanced? {
      StepShortens(p, w);
      if !Step(p, w).work.fatal && Batch(p, Step(p, w).work, MAX_MESSAGES_PER_BATCH - 1).Some? {
        BatchShortens(p, Step(p, w).work, MAX_MESSAGES_PER_BATCH - 1);
      }
    }
  }

  lemma {:induction false} BatchShortens<C>(p: Proxy<C>, w: Work<C>, n: nat)
    requires Batch(p, w, n).Some?
    ensures |Batch(p, w, n).value.buf| <= |w.buf|
    decreases n
  {
    if n > 0 && Step(p, w).Advanced? {
      StepShortens(p, w);
      if !Step(p, w).work.fatal {
        BatchShortens(p, Step(p, w).work, n - 1);
      }
    }
  }

  // ---- turns ----

  lemma StepSplits<C>(p: Proxy<C>, w: Work<C>)
    ensures Step(p, w).Advanced? ==> |Split(p.order, w.buf).0| == 1 + |Split(p.order, Step(p, w).work.buf).0|
    ensures Step(p, w).Waiting? ==> |Split(p.order, w.buf).0| == 0
  {
  }

  /** A batch that goes through handles as many messages as are buffered, up to its bound. */
  lemma {:induction false} BatchHandles<C>(p: Proxy<C>, w: Work<C>, n: nat)
    requires Batch(p, w, n).Some? && !Batch(p, w, n).value.fatal
    ensures var before, after := |Split(p.order, w.buf).0|, |Split(p.order, Batch(p, w, n).value.buf).0|;
            after == if before <= n then 0 else before - n
    decreases n
  {
    hide Step, Split;
    if n > 0 {
      StepSplits(p, w);
      if Step(p, w).Advanced? && !Step(p, w).work.fatal {
        BatchHandles(p, Step(p, w).work, n - 1);
      }
    }
  }

  /** Which side the next batch serves; the preferred side is probed once before the
      other one is served, and `probed` says whether that made it ready. */
  function NextDirection(preferHost: bool, hostReady: bool, clientReady: bool, probed: bool): Option<Direction> {
    var preferred, fallback := if preferHost then HostToClient else ClientToHost,
                               if preferHost then ClientToHost else HostToClient;
    var preferredReady, fallbackReady := if preferHost then hostReady else clientReady,
                                         if preferHost then clientReady else hostReady;
    if preferredReady then Some(preferred)
    else if !fallbackReady then None
    else if probed then Some(preferred)
    else Some(fallback)
  }
}

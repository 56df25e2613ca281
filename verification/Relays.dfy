/**
 What leaves a client's connections, computed from what its handlers answered: the
 forwarded copy of each message and everything a handler queued, message by message
 (sommelier/src/proxy.rs).
 */
module Relays {
  import opened Prelude
  import opened Wire
  import opened Closing
  import opened Dispatch
  import opened Lifetimes
  import opened Fairness

  // ---- what the handlers answer along a stream ----

  /** The answer lets the connection go on. */
  predicate Accepts<C>(p: Proxy<C>, fds: seq<Fd>, r: Reply<C>) {
    if r.UnknownSender? then p.direction.HostToClient?
    else r.payloadConsumed && (r.result.Nothing? || r.result.Translated?) && r.fdsUsed <= |fds|
  }

  /** The answers of up to some number of messages, and where they leave the context and
      the stream. */
  datatype Trail<C> = Trail(replies: seq<Reply<C>>, ctx: C, rest: Stream)

  /** The stream behind a message of the given length, of which `r` took its descriptors. An
      untracked message takes none, and leaves unclear whose the queued ones are. */
  function Behind<C>(s: Stream, length: nat, r: Reply<C>): Stream
    requires length <= |s.buf| && (r.Dispatched? ==> r.fdsUsed <= |s.fds|)
  {
    match r
    case UnknownSender => Stream(s.buf[length..], s.fds, s.fds != [])
    case Dispatched(_, _, _, used, _, _, _, _, _, _) => Stream(s.buf[length..], s.fds[used..], false)
  }

  /** The handlers see the messages one after the other, each with the context the one
      before left and the descriptors nobody has taken, until one ends the connection. */
  function Follow<C>(p: Proxy<C>, ctx: C, s: Stream, n: nat): (t: Trail<C>)
    ensures |t.replies| <= n
    decreases n
  {
    if n == 0 || !Passes(p, ctx, s) then Trail([], ctx, s)
    else
      var frame := NextFrame(p.order, s.buf);
      var r := p.dispatch(ctx, frame.message, s.fds);
      var rest := Behind(s, frame.length, r);
      var after := if r.Dispatched? then r.ctx else ctx;
      if r.Dispatched? && r.fatal then Trail([r], after, rest)
      else
        var t := Follow(p, after, rest, n - 1);
        t.(replies := [r] + t.replies)
  }

  /** A complete message is next, and its answer is accepted. */
  predicate Passes<C>(p: Proxy<C>, ctx: C, s: Stream) {
    var frame := NextFrame(p.order, s.buf);
    frame.Complete? && !s.ambiguous && Accepts(p, s.fds, p.dispatch(ctx, frame.message, s.fds))
  }

  predicate EndsFatally<C>(rs: seq<Reply<C>>) {
    rs != [] && rs[|rs| - 1].Dispatched? && rs[|rs| - 1].fatal
  }

  /** The batch ends without an error: at its bound, at a fatal answer, or where a message is
      not complete yet. */
  predicate Completes<C>(p: Proxy<C>, ctx: C, s: Stream, n: nat) {
    var t := Follow(p, ctx, s, n);
    |t.replies| == n || EndsFatally(t.replies) || NextFrame(p.order, t.rest.buf).Incomplete?
  }

  // ---- what they say ----

  function Bytes(qs: seq<Queued>): seq<byte> {
    if qs == [] then [] else qs[0].data + Bytes(qs[1..])
  }

  function Descriptors(qs: seq<Queued>): seq<Fd> {
    if qs == [] then [] else qs[0].fds + Descriptors(qs[1..])
  }

  /** In the messages' own direction: each message's copy under its target's sender, then
      everything its handler queued behind it. */
  function Forwarded<C>(order: ByteOrder, rs: seq<Reply<C>>): seq<byte> {
    if rs == [] then []
    else ForwardedBy(order, rs[0]) + Forwarded(order, rs[1..])
  }

  function ForwardedBy<C>(order: ByteOrder, r: Reply<C>): seq<byte> {
    match r
    case UnknownSender => []
    case Dispatched(_, target, _, _, Translated(data, _), forward, _, _, _, _) => Patched(order, data, target) + Bytes(forward)
    case Dispatched(_, _, _, _, _, forward, _, _, _, _) => Bytes(forward)
  }

  function ForwardedFds<C>(rs: seq<Reply<C>>): seq<Fd> {
    if rs == [] then []
    else ForwardedFdsBy(rs[0]) + ForwardedFds(rs[1..])
  }

  function ForwardedFdsBy<C>(r: Reply<C>): seq<Fd> {
    match r
    case UnknownSender => []
    case Dispatched(_, _, _, _, Translated(_, fds), forward, _, _, _, _) => fds + Descriptors(forward)
    case Dispatched(_, _, _, _, _, forward, _, _, _, _) => Descriptors(forward)
  }

  /** Against it: everything the handlers queued the other way. */
  function Returned<C>(rs: seq<Reply<C>>): seq<Queued> {
    if rs == [] then []
    else (if rs[0].Dispatched? then rs[0].reverse else []) + Returned(rs[1..])
  }

  // ---- a batch says what its handlers said ----

  lemma FirstIsRead(q: Queued, rest: seq<Queued>)
    ensures Bytes([q] + rest) == q.data + Bytes(rest) && Descriptors([q] + rest) == q.fds + Descriptors(rest)
    ensures Bytes([]) == [] && Descriptors([]) == []
  {
    assert ([q] + rest)[1..] == rest;
  }

  lemma {:induction false} QueuesConcat(a: seq<Queued>, b: seq<Queued>)
    ensures Bytes(a + b) == Bytes(a) + Bytes(b)
    ensures Descriptors(a + b) == Descriptors(a) + Descriptors(b)
  {
    hide Bytes, Descriptors;
    if a == [] {
      FirstIsRead(Queued([], []), []);
      assert a + b == b;
    } else {
      QueuesConcat(a[1..], b);
      FirstIsRead(a[0], a[1..]);
      FirstIsRead(a[0], a[1..] + b);
      assert a == [a[0]] + a[1..] && a + b == [a[0]] + (a[1..] + b);
    }
  }

  lemma {:induction false} QueueIsRead(qs: seq<Queued>)
    ensures AllData(qs) == Bytes(qs) && AllQueuedFds(qs) == Descriptors(qs)
  {
    if qs != [] {
      var init, last := qs[..|qs| - 1], qs[|qs| - 1];
      QueueIsRead(init);
      assert qs == init + [last];
      QueuesConcat(init, [last]);
      FirstIsRead(last, []);
      assert [last] + [] == [last];
    }
  }

  lemma AcceptsIff<C>(p: Proxy<C>, fds: seq<Fd>, r: Reply<C>)
    ensures Accepts(p, fds, r) <==> !Rejects(p, fds, r)
  {
  }

  function StreamOf<C>(w: Work<C>): Stream {
    Stream(w.buf, w.fds, w.ambiguous)
  }

  /** One message: where it leaves the stream and the context, and what it adds. */
  lemma StepSays<C>(p: Proxy<C>, w: Work<C>)
    ensures Step(p, w).Advanced? <==> Passes(p, w.ctx, StreamOf(w))
    ensures Step(p, w).Waiting? <==> NextFrame(p.order, w.buf).Incomplete?
    ensures Passes(p, w.ctx, StreamOf(w)) ==>
              var frame := NextFrame(p.order, w.buf);
              var r := p.dispatch(w.ctx, frame.message, w.fds);
              var v := Step(p, w).work;
              && StreamOf(v) == Behind(StreamOf(w), frame.length, r)
              && v.ctx == (if r.Dispatched? then r.ctx else w.ctx)
              && v.fatal == (w.fatal || (r.Dispatched? && r.fatal))
              && v.out == w.out + ForwardedBy(p.order, r) && v.outFds == w.outFds + ForwardedFdsBy(r)
              && v.reverse == w.reverse + (if r.Dispatched? then r.reverse else [])
    ensures Step(p, w).Failed? ==>
              var v := Step(p, w).work; v.out == w.out && v.outFds == w.outFds && v.reverse == w.reverse
  {
    hide NextFrame, AllData, AllQueuedFds, Patched, Bytes, Descriptors;
    var frame := NextFrame(p.order, w.buf);
    if frame.Complete? {
      var r := p.dispatch(w.ctx, frame.message, w.fds);
      AcceptsIff(p, w.fds, r);
      if r.Dispatched? {
        QueueIsRead(r.forward);
      }
    }
  }

  lemma FollowUnfolds<C>(p: Proxy<C>, ctx: C, s: Stream, n: nat)
    ensures n == 0 || !Passes(p, ctx, s) ==>
              && Follow(p, ctx, s, n) == Trail([], ctx, s) && !EndsFatally(Follow(p, ctx, s, n).replies)
              && (Completes(p, ctx, s, n) <==> n == 0 || NextFrame(p.order, s.buf).Incomplete?)
    ensures n > 0 && Passes(p, ctx, s) ==>
              var frame := NextFrame(p.order, s.buf);
              frame.Complete? &&
              var r := p.dispatch(ctx, frame.message, s.fds);
              var rest, after := Behind(s, frame.length, r), if r.Dispatched? then r.ctx else ctx;
              if r.Dispatched? && r.fatal
              then Follow(p, ctx, s, n) == Trail([r], after, rest) && Completes(p, ctx, s, n) && EndsFatally([r])
              else
                var t := Follow(p, after, rest, n - 1);
                && Follow(p, ctx, s, n) == t.(replies := [r] + t.replies)
                && (Completes(p, ctx, s, n) <==> Completes(p, after, rest, n - 1))
                && (EndsFatally([r] + t.replies) <==> EndsFatally(t.replies))
  {
    hide NextFrame, Accepts;
  }

  lemma SaidFirst<C>(order: ByteOrder, r: Reply<C>, rest: seq<Reply<C>>)
    ensures Forwarded(order, [r] + rest) == ForwardedBy(order, r) + Forwarded(order, rest)
    ensures ForwardedFds([r] + rest) == ForwardedFdsBy(r) + ForwardedFds(rest)
    ensures Returned([r] + rest) == (if r.Dispatched? then r.reverse else []) + Returned(rest)
    ensures var none: seq<Reply<C>> := []; Forwarded(order, none) == [] && ForwardedFds(none) == [] && Returned(none) == []
  {
    hide ForwardedBy, ForwardedFdsBy;
    assert ([r] + rest)[1..] == rest;
  }

  lemma SaidNext<C>(order: ByteOrder, w: Work<C>, v: Work<C>, r: Reply<C>, rest: seq<Reply<C>>)
    requires v.out == w.out + ForwardedBy(order, r) && v.outFds == w.outFds + ForwardedFdsBy(r)
    requires v.reverse == w.reverse + (if r.Dispatched? then r.reverse else [])
    ensures v.out + Forwarded(order, rest) == w.out + Forwarded(order, [r] + rest)
    ensures v.outFds + ForwardedFds(rest) == w.outFds + ForwardedFds([r] + rest)
    ensures v.reverse + Returned(rest) == w.reverse + Returned([r] + rest)
  {
    hide Forwarded, ForwardedFds, Returned, ForwardedBy, ForwardedFdsBy;
    SaidFirst(order, r, rest);
  }

  /** A batch collects exactly what its handlers said, and ends where they leave it. */
  lemma {:induction false} LoopSays<C>(p: Proxy<C>, w: Work<C>, n: nat)
    requires !w.fatal
    ensures var e, t := Loop(p, w, n), Follow(p, w.ctx, StreamOf(w), n);
            && (e.ok <==> Completes(p, w.ctx, StreamOf(w), n))
            && e.work.out == w.out + Forwarded(p.order, t.replies)
            && e.work.outFds == w.outFds + ForwardedFds(t.replies)
            && e.work.reverse == w.reverse + Returned(t.replies)
            && (e.ok ==> StreamOf(e.work) == t.rest && e.work.ctx == t.ctx && e.work.fatal == EndsFatally(t.replies))
    decreases n
  {
    hide Step, Passes, Behind, ForwardedBy, ForwardedFdsBy, Follow, Completes, Forwarded, ForwardedFds, Returned, EndsFatally;
    StepSays(p, w);
    FollowUnfolds(p, w.ctx, StreamOf(w), n);
    if n > 0 && Passes(p, w.ctx, StreamOf(w)) {
      var v, r := Step(p, w).work, p.dispatch(w.ctx, NextFrame(p.order, w.buf).message, w.fds);
      if v.fatal {
        SaidFirst(p.order, r, []);
        assert [r] + [] == [r];
      } else {
        LoopSays(p, v, n - 1);
        SaidNext(p.order, w, v, r, Follow(p, v.ctx, StreamOf(v), n - 1).replies);
      }
    } else {
      SaidFirst<C>(p.order, UnknownSender, []);
    }
  }

  lemma DrainUnfolds<C>(p: Proxy<C>, w: Work<C>)
    ensures Step(p, w).Waiting? ==> Drain(p, w) == Some(w)
    ensures Step(p, w).Failed? ==> Drain(p, w) == None
    ensures Step(p, w).Advanced? ==> Drain(p, w) == Drain(p, Step(p, w).work) && |Step(p, w).work.buf| < |w.buf|
  {
    if Step(p, w).Advanced? {
      StepShortens(p, w);
    }
    hide Step;
  }

  lemma {:induction false} DrainSays<C>(p: Proxy<C>, w: Work<C>, end: Work<C>, n: nat)
    requires Drain(p, w) == Some(end) && !end.fatal && n >= |w.buf|
    ensures var t := Follow(p, w.ctx, StreamOf(w), n);
            && end.out == w.out + Forwarded(p.order, t.replies) && end.outFds == w.outFds + ForwardedFds(t.replies)
            && end.reverse == w.reverse + Returned(t.replies)
            && end.ctx == t.ctx && StreamOf(end) == t.rest
    decreases |w.buf|
  {
    hide Step, Drain, Passes, Behind, ForwardedBy, ForwardedFdsBy, Follow, Completes, Forwarded, ForwardedFds, Returned,
      EndsFatally;
    DrainUnfolds(p, w);
    StepSays(p, w);
    FollowUnfolds(p, w.ctx, StreamOf(w), n);
    if Step(p, w).Advanced? {
      var v, r := Step(p, w).work, p.dispatch(w.ctx, NextFrame(p.order, w.buf).message, w.fds);
      if v.fatal {
        DrainKeepsFatal(p, v);
      }
      DrainSays(p, v, end, n - 1);
      SaidNext(p.order, w, v, r, Follow(p, v.ctx, StreamOf(v), n - 1).replies);
    } else {
      SaidFirst<C>(p.order, UnknownSender, []);
    }
  }

  /** However the bytes of an error-free stream arrive and the batches fall, what has been
      collected when no complete message is left is what the handlers said to the whole
      stream, message by message, and nothing else. */
  lemma EverythingIsForwarded<C>(p: Proxy<C>, w: Work<C>, acts: seq<Act>, end: Work<C>)
    requires Drain(p, w.Receive(Received(acts))) == Some(end) && !end.fatal
    ensures Run(p, w, acts).Some?
    ensures var v, whole := Run(p, w, acts).value, Stream(w.buf + Received(acts), w.fds, w.ambiguous);
            var t := Follow(p, w.ctx, whole, |whole.buf|);
            Step(p, v).Waiting? ==>
              && v.out == w.out + Forwarded(p.order, t.replies) && v.outFds == w.outFds + ForwardedFds(t.replies)
              && v.reverse == w.reverse + Returned(t.replies)
              && v.ctx == t.ctx && StreamOf(v) == t.rest
  {
    FragmentationDoesNotMatter(p, w, acts, end);
    DrainSays(p, w.Receive(Received(acts)), end, |w.buf + Received(acts)|);
    hide Step, Drain, Follow, Forwarded, ForwardedFds, Returned;
  }

  // ---- whole runs of a client ----

  /** What the handlers answer in one event. */
  function Answers<C>(h: Handlers<C>, l: Link<C>, e: Event): seq<Reply<C>> {
    if l.over || e.Arrives? then []
    else Follow(h.For(e.direction), l.ctx, l.Source(e.direction), MAX_MESSAGES_PER_BATCH).replies
  }

  /** A batch that ends without an error, and so sends what it has collected. */
  predicate Speaks<C>(h: Handlers<C>, l: Link<C>, e: Event) {
    !l.over && e.Serves? && Completes(h.For(e.direction), l.ctx, l.Source(e.direction), MAX_MESSAGES_PER_BATCH)
  }

  /** The bytes that leave in direction `to`. */
  function Sends<C>(h: Handlers<C>, l: Link<C>, e: Event, to: Direction): seq<byte> {
    if !Speaks(h, l, e) then []
    else if e.direction == to then Forwarded(h.order, Answers(h, l, e))
    else Bytes(Returned(Answers(h, l, e)))
  }

  /** The descriptors that go with them; without a byte they cannot go. */
  function SendsFds<C>(h: Handlers<C>, l: Link<C>, e: Event, to: Direction): seq<Fd> {
    if !Speaks(h, l, e) || Sends(h, l, e, to) == [] then []
    else if e.direction == to then ForwardedFds(Answers(h, l, e))
    else Descriptors(Returned(Answers(h, l, e)))
  }

  function AllSends<C>(h: Handlers<C>, l: Link<C>, es: seq<Event>, to: Direction): seq<byte>
    decreases |es|
  {
    if es == [] then [] else Sends(h, l, es[0], to) + AllSends(h, Advance(h, l, es[0]), es[1..], to)
  }

  function AllSendsFds<C>(h: Handlers<C>, l: Link<C>, es: seq<Event>, to: Direction): seq<Fd>
    decreases |es|
  {
    if es == [] then [] else SendsFds(h, l, es[0], to) + AllSendsFds(h, Advance(h, l, es[0]), es[1..], to)
  }

  /** No write fails. */
  predicate AllDelivered<C>(h: Handlers<C>, l: Link<C>, es: seq<Event>)
    decreases |es|
  {
    es != [] ==> (Speaks(h, l, es[0]) ==> es[0].delivered) && AllDelivered(h, Advance(h, l, es[0]), es[1..])
  }

  lemma {:induction false} SendsFurther<C>(h: Handlers<C>, l: Link<C>, es: seq<Event>, more: seq<Event>, to: Direction)
    ensures AllSends(h, l, es + more, to) == AllSends(h, l, es, to) + AllSends(h, AdvanceAll(h, l, es), more, to)
    ensures AllSendsFds(h, l, es + more, to) == AllSendsFds(h, l, es, to) + AllSendsFds(h, AdvanceAll(h, l, es), more, to)
    ensures AllDelivered(h, l, es + more) <==> AllDelivered(h, l, es) && AllDelivered(h, AdvanceAll(h, l, es), more)
    decreases |es|
  {
    hide Advance, Sends, SendsFds, Speaks, AllSends, AllSendsFds, AllDelivered;
    SendsUnfold(h, l, es, to);
    if es == [] {
      assert es + more == more;
    } else {
      SendsFurther(h, Advance(h, l, es[0]), es[1..], more, to);
      SendsUnfold(h, l, es + more, to);
      assert (es + more)[1..] == es[1..] + more;
    }
  }

  lemma SendsUnfold<C>(h: Handlers<C>, l: Link<C>, es: seq<Event>, to: Direction)
    ensures es == [] ==> AllSends(h, l, es, to) == [] && AllSendsFds(h, l, es, to) == [] && AllDelivered(h, l, es)
    ensures es != [] ==>
              var next := Advance(h, l, es[0]);
              && AllSends(h, l, es, to) == Sends(h, l, es[0], to) + AllSends(h, next, es[1..], to)
              && AllSendsFds(h, l, es, to) == SendsFds(h, l, es[0], to) + AllSendsFds(h, next, es[1..], to)
              && (AllDelivered(h, l, es) <==> (Speaks(h, l, es[0]) ==> es[0].delivered) && AllDelivered(h, next, es[1..]))
  {
    hide Advance, Sends, SendsFds, Speaks;
  }

  /** What a batch puts on either connection, by what its message loop has collected. */
  lemma BatchSays<C>(h: Handlers<C>, l: Link<C>, side: Direction, delivered: bool)
    requires !l.over
    ensures var e, served := l.Next(h, side), Serves(side, delivered);
            && (e.ok <==> Speaks(h, l, served))
            && (e.ok ==>
                  && Sends(h, l, served, side) == e.work.out
                  && SendsFds(h, l, served, side) == (if e.work.out != [] then e.work.outFds else [])
                  && Sends(h, l, served, Opposite(side)) == AllData(e.work.reverse)
                  && SendsFds(h, l, served, Opposite(side))
                       == (if AllData(e.work.reverse) != [] then AllQueuedFds(e.work.reverse) else []))
  {
    hide Loop, Follow, Completes, Forwarded, ForwardedFds, Returned, AllData, AllQueuedFds, Bytes, Descriptors;
    LoopSaysAlone(h.For(side), l.Pending(side), MAX_MESSAGES_PER_BATCH);
    QueueIsRead(l.Next(h, side).work.reverse);
  }

  lemma LoopSaysAlone<C>(p: Proxy<C>, w: Work<C>, n: nat)
    requires !w.fatal && w.out == [] && w.outFds == [] && w.reverse == []
    ensures var e, rs := Loop(p, w, n), Follow(p, w.ctx, StreamOf(w), n).replies;
            && (e.ok <==> Completes(p, w.ctx, StreamOf(w), n))
            && e.work.out == Forwarded(p.order, rs) && e.work.outFds == ForwardedFds(rs) && e.work.reverse == Returned(rs)
  {
    LoopSays(p, w, n);
    hide Loop, Follow, Completes, Forwarded, ForwardedFds, Returned;
    var rs := Follow(p, w.ctx, StreamOf(w), n).replies;
    assert [] + Forwarded(p.order, rs) == Forwarded(p.order, rs) && [] + ForwardedFds(rs) == ForwardedFds(rs);
    assert [] + Returned(rs) == Returned(rs);
  }

  /** Everything handed to one transport so far, and to both. */
  datatype Output = Output(bytes: seq<byte>, fds: seq<Fd>)

  datatype Outputs = Outputs(toHost: Output, toClient: Output)
  {
    function To(direction: Direction): Output {
      if direction.ClientToHost? then toHost else toClient
    }
  }

  /** While no write fails, what has been handed over is what the handlers said. */
  ghost predicate Relayed<C>(h: Handlers<C>, l: Link<C>, es: seq<Event>, before: Outputs, after: Outputs) {
    AllDelivered(h, l, es) ==>
      forall to :: after.To(to) == Output(before.To(to).bytes + AllSends(h, l, es, to),
                                          before.To(to).fds + AllSendsFds(h, l, es, to))
  }

  lemma NothingRelayed<C>(h: Handlers<C>, l: Link<C>, es: seq<Event>, output: Outputs)
    requires |es| <= 1 && (es != [] ==> es[0].Arrives?)
    ensures Relayed(h, l, es, output, output)
  {
    hide Advance;
    forall to ensures output.To(to).bytes + AllSends(h, l, es, to) == output.To(to).bytes
                   && output.To(to).fds + AllSendsFds(h, l, es, to) == output.To(to).fds
    {
      if es != [] {
        assert !Speaks(h, l, es[0]) && es[1..] == [];
        assert Sends(h, l, es[0], to) == [] && SendsFds(h, l, es[0], to) == [];
      }
    }
  }

  lemma BatchRelayed<C>(h: Handlers<C>, l: Link<C>, e: Event, before: Outputs, after: Outputs)
    requires Speaks(h, l, e) && e.delivered ==>
               forall to :: after.To(to) == Output(before.To(to).bytes + Sends(h, l, e, to),
                                                   before.To(to).fds + SendsFds(h, l, e, to))
    requires !Speaks(h, l, e) ==> after == before
    ensures Relayed(h, l, [e], before, after)
  {
    hide Advance, Speaks, Answers;
    forall to ensures AllSends(h, l, [e], to) == Sends(h, l, e, to) && AllSendsFds(h, l, [e], to) == SendsFds(h, l, e, to) {
      assert [e][1..] == [];
    }
  }

  lemma RelayedFurther<C>(h: Handlers<C>, l: Link<C>, es: seq<Event>, more: seq<Event>,
      before: Outputs, between: Outputs, after: Outputs)
    requires Relayed(h, l, es, before, between) && Relayed(h, AdvanceAll(h, l, es), more, between, after)
    ensures Relayed(h, l, es + more, before, after)
  {
    hide AdvanceAll, AllSends, AllSendsFds, AllDelivered, Relayed;
    SendsFurther(h, l, es, more, ClientToHost);
    if AllDelivered(h, l, es + more) {
      forall to ensures after.To(to) == Output(before.To(to).bytes + AllSends(h, l, es + more, to),
                                               before.To(to).fds + AllSendsFds(h, l, es + more, to))
      {
        SendsFurther(h, l, es, more, to);
        RelayedTo(h, l, es, before, between, to);
        RelayedTo(h, AdvanceAll(h, l, es), more, between, after, to);
      }
    }
    RelayedIs(h, l, es + more, before, after);
  }

  lemma RelayedTo<C>(h: Handlers<C>, l: Link<C>, es: seq<Event>, before: Outputs, after: Outputs, to: Direction)
    requires Relayed(h, l, es, before, after) && AllDelivered(h, l, es)
    ensures after.To(to) == Output(before.To(to).bytes + AllSends(h, l, es, to), before.To(to).fds + AllSendsFds(h, l, es, to))
  {
    hide AllSends, AllSendsFds, AllDelivered;
  }

  lemma RelayedIs<C>(h: Handlers<C>, l: Link<C>, es: seq<Event>, before: Outputs, after: Outputs)
    requires AllDelivered(h, l, es) ==>
               forall to ::
                 after.To(to) == Output(before.To(to).bytes + AllSends(h, l, es, to),
                                        before.To(to).fds + AllSendsFds(h, l, es, to))
    ensures Relayed(h, l, es, before, after)
  {
    hide AllSends, AllSendsFds, AllDelivered;
  }

  /** What a batch that went through adds to both transports. */
  predicate Hands<C>(side: Direction, w: Work<C>, before: Outputs, after: Outputs) {
    var reply, replyFds := AllData(w.reverse), AllQueuedFds(w.reverse);
    && after.To(side) == Output(before.To(side).bytes + w.out, before.To(side).fds + if w.out != [] then w.outFds else [])
    && after.To(Opposite(side))
         == Output(before.To(Opposite(side)).bytes + reply, before.To(Opposite(side)).fds + if reply != [] then replyFds else [])
  }

  lemma HandedIsRelayed<C>(h: Handlers<C>, l: Link<C>, side: Direction, delivered: bool, before: Outputs, after: Outputs)
    requires !l.over && (delivered ==> l.Next(h, side).ok && Hands(side, l.Next(h, side).work, before, after))
    requires !l.Next(h, side).ok ==> after == before
    ensures Relayed(h, l, [Serves(side, delivered)], before, after)
  {
    var e := Serves(side, delivered);
    hide Loop, Speaks, Answers, Sends, SendsFds, AllData, AllQueuedFds, Relayed;
    BatchSays(h, l, side, delivered);
    if delivered {
      forall to
        ensures after.To(to) == Output(before.To(to).bytes + Sends(h, l, e, to), before.To(to).fds + SendsFds(h, l, e, to))
      {
        assert to == side || to == Opposite(side);
      }
    }
    BatchRelayed(h, l, e, before, after);
  }
}

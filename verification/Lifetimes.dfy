/**
 Whole runs of the two connections of a client, and the lifetime of every descriptor:
 received or obtained by a handler, owned in one place at a time, closed once
 (sommelier/src/proxy.rs, connection.rs and the drop of the context in state.rs).
 */
module Lifetimes {
  import opened Prelude
  import opened Wire
  import opened Closing
  import opened Dispatch

  // ---- who owns what ----

  /** Numbers open at the same time are distinct and not negative. */
  ghost predicate Live(m: multiset<Fd>) {
    forall fd :: m[fd] <= 1 && (fd in m ==> fd >= 0)
  }

  /** Descriptors in the hands of the message loop, other than those the context keeps. */
  function InFlight<C>(w: Work<C>): multiset<Fd> {
    multiset(w.taken) + multiset(w.fds) + multiset(w.made) + multiset(AllQueuedFds(w.reverse))
  }

  /** What a handler leaves behind: in the context, and queued either way. */
  function Kept<C>(holds: C -> multiset<Fd>, r: Reply<C>): multiset<Fd>
    requires r.Dispatched?
  {
    holds(r.ctx) + multiset(AllQueuedFds(r.forward)) + multiset(AllQueuedFds(r.reverse))
  }

  /** A handler accounts for what it obtains: it keeps it, queues it or closes it, and
      leaves each in one place. It forwards only descriptors of its own message. What it
      obtains has a number nobody else has open; `beside` are the other connection's. */
  ghost predicate Honest<C>(p: Proxy<C>, holds: C -> multiset<Fd>, w: Work<C>, beside: multiset<Fd>) {
    NextFrame(p.order, w.buf).Complete? && !w.ambiguous ==>
      var r := p.dispatch(w.ctx, NextFrame(p.order, w.buf).message, w.fds);
      r.Dispatched? ==>
        && holds(w.ctx) + multiset(r.opens) == Kept(holds, r) + multiset(r.closes)
        && Live(Kept(holds, r))
        && (forall fd :: fd in r.opens ==> fd >= 0 && fd !in InFlight(w) + beside)
        && (r.result.Translated? && r.fdsUsed <= |w.fds| ==> forall fd :: fd in r.result.fds ==> fd in w.fds[..r.fdsUsed])
  }

  ghost predicate AllHonest<C>(p: Proxy<C>, holds: C -> multiset<Fd>, w: Work<C>, beside: multiset<Fd>, n: nat)
    decreases n
  {
    n > 0 ==>
      && Honest(p, holds, w, beside)
      && (Step(p, w).Advanced? && !Step(p, w).work.fatal ==> AllHonest(p, holds, Step(p, w).work, beside, n - 1))
  }

  // ---- one batch ----

  /** The books of a batch that began with `start` open: nothing open is lost, nothing is
      open twice, and what goes out is what was consumed or queued. */
  ghost predicate Books<C>(holds: C -> multiset<Fd>, start: multiset<Fd>, w: Work<C>, beside: multiset<Fd>,
      leftover: multiset<Fd>)
  {
    var open := InFlight(w) + holds(w.ctx) + beside + leftover;
    && open + multiset(w.closes) == start + multiset(w.opens)
    && Live(open)
    && (forall fd :: fd in w.outFds ==> fd in w.taken || fd in w.made)
    && (forall fd :: fd in w.made ==> fd in w.outFds)
  }

  lemma {:induction false} QueuedConcat(a: seq<Queued>, b: seq<Queued>)
    ensures AllQueuedFds(a + b) == AllQueuedFds(a) + AllQueuedFds(b)
  {
    if b == [] {
      assert a + b == a;
    } else {
      var init := b[..|b| - 1];
      QueuedConcat(a, init);
      assert (a + b)[..|a + b| - 1] == a + init;
    }
  }

  /** What a handler ends up with and what everybody else has open are apart. */
  lemma StaysLive(others: multiset<Fd>, before: multiset<Fd>, opens: seq<Fd>, kept: multiset<Fd>, closes: seq<Fd>)
    requires Live(others + before) && Live(kept) && before + multiset(opens) == kept + multiset(closes)
    requires forall fd :: fd in opens ==> fd >= 0 && fd !in others
    ensures Live(others + kept)
  {
    forall fd ensures (others + kept)[fd] <= 1 && (fd in others + kept ==> fd >= 0) {
      if kept[fd] > 0 {
        assert (before + multiset(opens))[fd] == (kept + multiset(closes))[fd];
        if before[fd] > 0 {
          assert (others + before)[fd] <= 1;
        } else {
          assert fd in multiset(opens);
        }
      } else {
        assert (others + before)[fd] <= 1;
      }
    }
  }

  lemma Balances(others: multiset<Fd>, before: multiset<Fd>, kept: multiset<Fd>, gained: multiset<Fd>, shut: multiset<Fd>,
      start: multiset<Fd>, opens: multiset<Fd>, closes: multiset<Fd>)
    requires others + before + closes == start + gained && before + opens == kept + shut
    ensures others + kept + (closes + shut) == start + (gained + opens)
  {
    assert others + kept + (closes + shut) == others + (kept + shut) + closes == others + before + closes + opens;
  }

  lemma InFlightGrows<C>(w: Work<C>, v: Work<C>, used: nat, ahead: seq<Fd>, back: seq<Queued>)
    requires used <= |w.fds| && v.taken == w.taken + w.fds[..used] && v.fds == w.fds[used..]
    requires v.made == w.made + ahead && v.reverse == w.reverse + back
    ensures InFlight(v) == InFlight(w) + multiset(ahead) + multiset(AllQueuedFds(back))
  {
    QueuedConcat(w.reverse, back);
    assert w.fds == w.fds[..used] + w.fds[used..];
  }

  /** One handler's work, on the books of what others have open. */
  lemma HandlingBalances<C>(holds: C -> multiset<Fd>, start: multiset<Fd>, w: Work<C>,
      beside: multiset<Fd>, r: Reply<C>)
    requires Books(holds, start, w, beside, multiset{}) && r.Dispatched?
    requires holds(w.ctx) + multiset(r.opens) == Kept(holds, r) + multiset(r.closes) && Live(Kept(holds, r))
    requires forall fd :: fd in r.opens ==> fd >= 0 && fd !in InFlight(w) + beside
    ensures var others := InFlight(w) + beside;
            && Live(others + Kept(holds, r))
            && others + Kept(holds, r) + multiset(w.closes + r.closes) == start + multiset(w.opens + r.opens)
  {
    var others, before, kept := InFlight(w) + beside, holds(w.ctx), Kept(holds, r);
    assert others + before == InFlight(w) + holds(w.ctx) + beside + multiset{};
    hide Kept, InFlight;
    StaysLive(others, before, r.opens, kept, r.closes);
    Balances(others, before, kept, multiset(w.opens), multiset(r.closes), start, multiset(r.opens), multiset(w.closes));
    hide Live;
  }

  lemma RejectedKeepsBooks<C>(holds: C -> multiset<Fd>, start: multiset<Fd>, w: Work<C>,
      beside: multiset<Fd>, r: Reply<C>)
    requires Books(holds, start, w, beside, multiset{}) && r.Dispatched?
    requires var others := InFlight(w) + beside;
             && Live(others + Kept(holds, r))
             && others + Kept(holds, r) + multiset(w.closes + r.closes) == start + multiset(w.opens + r.opens)
    ensures Books(holds, start, w.(ctx := r.ctx, opens := w.opens + r.opens, closes := w.closes + r.closes), beside,
                  multiset(AllQueuedFds(r.forward + r.reverse)))
  {
    QueuedConcat(r.forward, r.reverse);
    var v := w.(ctx := r.ctx, opens := w.opens + r.opens, closes := w.closes + r.closes);
    assert InFlight(v) + holds(v.ctx) + beside + multiset(AllQueuedFds(r.forward + r.reverse))
        == InFlight(w) + beside + Kept(holds, r);
  }

  lemma AcceptedKeepsBooks<C>(p: Proxy<C>, holds: C -> multiset<Fd>, start: multiset<Fd>, w: Work<C>,
      beside: multiset<Fd>, r: Reply<C>)
    requires Books(holds, start, w, beside, multiset{}) && Honest(p, holds, w, beside)
    requires NextFrame(p.order, w.buf).Complete? && !w.ambiguous && Step(p, w).Advanced?
    requires r == p.dispatch(w.ctx, NextFrame(p.order, w.buf).message, w.fds) && r.Dispatched?
    requires var others := InFlight(w) + beside;
             && Live(others + Kept(holds, r))
             && others + Kept(holds, r) + multiset(w.closes + r.closes) == start + multiset(w.opens + r.opens)
    ensures Books(holds, start, Step(p, w).work, beside, multiset{})
  {
    var v := Step(p, w).work;
    InFlightGrows(w, v, r.fdsUsed, AllQueuedFds(r.forward), r.reverse);
    assert InFlight(v) + holds(v.ctx) + beside + multiset{} == InFlight(w) + beside + Kept(holds, r);
    hide InFlight, Live, Kept, AllQueuedFds, NextFrame;
  }

  lemma StepKeepsBooks<C>(p: Proxy<C>, holds: C -> multiset<Fd>, start: multiset<Fd>, w: Work<C>, beside: multiset<Fd>)
    requires Books(holds, start, w, beside, multiset{}) && Honest(p, holds, w, beside)
    ensures Step(p, w).Advanced? ==> Books(holds, start, Step(p, w).work, beside, multiset{})
    ensures Step(p, w).Failed? ==>
              Books(holds, start, Step(p, w).work, beside, multiset(AllQueuedFds(Step(p, w).leftover)))
  {
    if NextFrame(p.order, w.buf).Complete? && !w.ambiguous {
      var r := p.dispatch(w.ctx, NextFrame(p.order, w.buf).message, w.fds);
      if r.Dispatched? {
        HandlingBalances(holds, start, w, beside, r);
        if Rejects(p, w.fds, r) {
          RejectedKeepsBooks(holds, start, w, beside, r);
        } else {
          AcceptedKeepsBooks(p, holds, start, w, beside, r);
        }
      }
    }
  }

  lemma {:induction false} LoopKeepsBooks<C>(p: Proxy<C>, holds: C -> multiset<Fd>, start: multiset<Fd>, w: Work<C>,
      beside: multiset<Fd>, n: nat)
    requires Books(holds, start, w, beside, multiset{}) && AllHonest(p, holds, w, beside, n)
    ensures var e := Loop(p, w, n);
            Books(holds, start, e.work, beside, multiset(AllQueuedFds(e.leftover)))
    decreases n
  {
    if n > 0 {
      StepKeepsBooks(p, holds, start, w, beside);
      hide Books, Honest, Step;
      if Step(p, w).Advanced? && !Step(p, w).work.fatal {
        LoopKeepsBooks(p, holds, start, Step(p, w).work, beside, n - 1);
      }
    }
  }

  /** A batch takes descriptors off the front of its queue, also when it fails. */
  lemma {:induction false} LoopKeepsDescriptorOrder<C>(p: Proxy<C>, w: Work<C>, n: nat)
    ensures var v := Loop(p, w, n).work; v.taken + v.fds == w.taken + w.fds
    decreases n
  {
    if n > 0 && Step(p, w).Advanced? {
      StepKeepsDescriptorOrder(p, w);
      if !Step(p, w).work.fatal {
        LoopKeepsDescriptorOrder(p, Step(p, w).work, n - 1);
      }
    }
  }

  // ---- what is closed ----

  /** What a batch closes when it ends: after the sends everything that went out or was
      consumed, after an error only what is neither in the buffer nor in a queue. */
  function Shuts<C>(e: Exit<C>): multiset<Fd> {
    if e.ok then Once(e.work.outFds + AllQueuedFds(e.work.reverse) + e.work.taken, [])
    else Once(e.work.outFds, e.work.taken + e.work.fds)
  }

  lemma OnceIs(fds: seq<Fd>, spared: seq<Fd>, m: multiset<Fd>)
    requires Live(m)
    requires forall fd :: fd in m <==> fd in fds && fd >= 0 && fd !in spared
    ensures Once(fds, spared) == m
  {
    assert forall fd :: Once(fds, spared)[fd] == m[fd];
  }

  /** The batch closes exactly its share of what is open, once, however often it was listed. */
  lemma ShutsIs<C>(holds: C -> multiset<Fd>, start: multiset<Fd>, e: Exit<C>, beside: multiset<Fd>)
    requires Books(holds, start, e.work, beside, multiset(AllQueuedFds(e.leftover)))
    ensures Shuts(e) == if e.ok then multiset(e.work.taken) + multiset(e.work.made) + multiset(AllQueuedFds(e.work.reverse))
                        else multiset(e.work.made)
  {
    var w, back := e.work, AllQueuedFds(e.work.reverse);
    var open := InFlight(w) + holds(w.ctx) + beside + multiset(AllQueuedFds(e.leftover));
    hide AllQueuedFds;
    if e.ok {
      var m := multiset(w.taken) + multiset(w.made) + multiset(back);
      PartIsLive(m, open);
      OnceIs(w.outFds + back + w.taken, [], m);
    } else {
      PartIsLive(multiset(w.made), open);
      forall fd ensures fd in multiset(w.made) <==> fd in w.outFds && fd >= 0 && fd !in w.taken + w.fds {
        assert open[fd] <= 1;
        assert fd in w.made ==> fd in open;
      }
      OnceIs(w.outFds, w.taken + w.fds, multiset(w.made));
    }
  }

  lemma PartIsLive(part: multiset<Fd>, whole: multiset<Fd>)
    requires Live(whole) && forall fd :: part[fd] <= whole[fd]
    ensures Live(part)
  {
    forall fd ensures part[fd] <= 1 && (fd in part ==> fd >= 0) {
      assert whole[fd] <= 1 && (fd in whole ==> fd >= 0);
    }
  }

  // ---- whole runs ----

  /** One connection's receive side. */
  datatype Stream = Stream(buf: seq<byte>, fds: seq<Fd>, ambiguous: bool)

  datatype Handlers<!C> = Handlers(
    order: ByteOrder,
    request: (C, Message, seq<Fd>) -> Reply<C>,
    event: (C, Message, seq<Fd>) -> Reply<C>)
  {
    function For(direction: Direction): Proxy<C> {
      Proxy(order, direction, if direction.ClientToHost? then request else event)
    }
  }

  /** A client's two connections and its context. `queued` is what a failed batch left in
      the context's message queues; the last three count descriptors over the whole run. */
  datatype Link<C> = Link(
    ctx: C,
    client: Stream,
    host: Stream,
    queued: seq<Fd>,
    over: bool,
    received: multiset<Fd>,
    obtained: multiset<Fd>,
    closed: multiset<Fd>)
  {
    function Source(direction: Direction): Stream {
      if direction.ClientToHost? then client else host
    }

    function Target(direction: Direction): Stream {
      if direction.ClientToHost? then host else client
    }

    function With(direction: Direction, s: Stream): Link<C> {
      if direction.ClientToHost? then this.(client := s) else this.(host := s)
    }

    /** A batch about to begin: nothing collected yet. */
    function Pending(direction: Direction): Work<C> {
      var s := Source(direction);
      Work(ctx, s.buf, s.fds, s.ambiguous, [], [], [], [], [], [], [], false)
    }

    function Next(h: Handlers<C>, direction: Direction): Exit<C> {
      Loop(h.For(direction), Pending(direction), MAX_MESSAGES_PER_BATCH)
    }

    /** The state after a batch; `delivered` says whether both sends went through. */
    function After(direction: Direction, e: Exit<C>, delivered: bool): Link<C> {
      var l := this.(ctx := e.work.ctx,
                     obtained := obtained + multiset(e.work.opens),
                     closed := closed + multiset(e.work.closes) + Shuts(e));
      if e.ok then l.With(direction, Stream(e.work.buf, e.work.fds, e.work.ambiguous)).(over := !delivered || e.work.fatal)
      else l.(queued := AllQueuedFds(e.work.reverse + e.leftover), over := true)
    }
  }

  /** A new client: nothing buffered, nothing open outside the context. */
  function Begin<C>(ctx: C): Link<C> {
    var empty := Stream([], [], false);
    Link(ctx, empty, empty, [], false, multiset{}, multiset{}, multiset{})
  }

  datatype Event = Arrives(direction: Direction, bytes: seq<byte>, fds: seq<Fd>) | Serves(direction: Direction, delivered: bool)

  /** Receives and batches; nothing happens once a batch has ended the connection. */
  function Advance<C>(h: Handlers<C>, l: Link<C>, e: Event): Link<C> {
    if l.over then l
    else
      match e
      case Arrives(direction, bytes, fds) =>
        var s := l.Source(direction);
        l.With(direction, s.(buf := s.buf + bytes, fds := s.fds + fds)).(received := l.received + multiset(fds))
      case Serves(direction, delivered) => l.After(direction, l.Next(h, direction), delivered)
  }

  function AdvanceAll<C>(h: Handlers<C>, l: Link<C>, es: seq<Event>): Link<C>
    decreases |es|
  {
    if es == [] then l else AdvanceAll(h, Advance(h, l, es[0]), es[1..])
  }

  lemma {:induction false} AdvanceFurther<C>(h: Handlers<C>, l: Link<C>, es: seq<Event>, more: seq<Event>)
    ensures AdvanceAll(h, l, es + more) == AdvanceAll(h, AdvanceAll(h, l, es), more)
    decreases |es|
  {
    hide Advance;
    if es == [] {
      assert es + more == more;
    } else {
      AdvanceFurther(h, Advance(h, l, es[0]), es[1..], more);
      assert (es + more)[1..] == es[1..] + more;
    }
  }

  /** Everything open: in the context, in its queues, and buffered on either connection. */
  function Owned<C>(holds: C -> multiset<Fd>, l: Link<C>): multiset<Fd> {
    holds(l.ctx) + multiset(l.queued) + multiset(l.client.fds) + multiset(l.host.fds)
  }

  /** Descriptors arrive under numbers that are not in use, and handlers are honest. */
  ghost predicate Fits<C>(h: Handlers<C>, holds: C -> multiset<Fd>, l: Link<C>, e: Event) {
    l.over ||
    match e
    case Arrives(_, _, fds) => Live(Owned(holds, l) + multiset(fds))
    case Serves(direction, _) =>
      AllHonest(h.For(direction), holds, l.Pending(direction), multiset(l.Target(direction).fds), MAX_MESSAGES_PER_BATCH)
  }

  ghost predicate AllFit<C>(h: Handlers<C>, holds: C -> multiset<Fd>, l: Link<C>, es: seq<Event>)
    decreases |es|
  {
    es != [] ==> Fits(h, holds, l, es[0]) && AllFit(h, holds, Advance(h, l, es[0]), es[1..])
  }

  /** Everything ever received or obtained is open in one place or was closed, with multiplicity. */
  ghost predicate Sound<C>(holds: C -> multiset<Fd>, l: Link<C>) {
    && Owned(holds, l) + l.closed == l.received + l.obtained
    && Live(Owned(holds, l))
    && (!l.over ==> l.queued == [])
  }

  lemma ArrivalKeepsSound<C>(h: Handlers<C>, holds: C -> multiset<Fd>, l: Link<C>, e: Event)
    requires Sound(holds, l) && Fits(h, holds, l, e) && e.Arrives? && !l.over
    ensures Sound(holds, Advance(h, l, e))
  {
    var before, after := Owned(holds, l), Owned(holds, Advance(h, l, e));
    assert after == before + multiset(e.fds);
    assert after + l.closed == (before + l.closed) + multiset(e.fds);
    assert l.received + multiset(e.fds) + l.obtained == (l.received + l.obtained) + multiset(e.fds);
  }

  lemma BeginsBooks<C>(holds: C -> multiset<Fd>, l: Link<C>, direction: Direction)
    requires Sound(holds, l) && !l.over
    ensures Books(holds, Owned(holds, l), l.Pending(direction), multiset(l.Target(direction).fds), multiset{})
  {
    var w := l.Pending(direction);
    assert InFlight(w) == multiset(w.fds);
    assert InFlight(w) + holds(w.ctx) + multiset(l.Target(direction).fds) + multiset{} == Owned(holds, l);
  }

  /** What is open when the loop ends is what the batch closes and what stays. */
  lemma BatchDivides<C>(holds: C -> multiset<Fd>, l: Link<C>, direction: Direction, e: Exit<C>, delivered: bool)
    requires Books(holds, Owned(holds, l), e.work, multiset(l.Target(direction).fds), multiset(AllQueuedFds(e.leftover)))
    requires !l.over && l.queued == [] && (e.ok ==> e.leftover == []) && e.work.taken + e.work.fds == l.Source(direction).fds
    ensures Owned(holds, l.After(direction, e, delivered)) + Shuts(e)
         == InFlight(e.work) + holds(e.work.ctx) + multiset(l.Target(direction).fds) + multiset(AllQueuedFds(e.leftover))
  {
    ShutsIs(holds, Owned(holds, l), e, multiset(l.Target(direction).fds));
    QueuedConcat(e.work.reverse, e.leftover);
    hide Books, Shuts;
  }

  lemma {:induction false} FinishedLeavesNothing<C>(p: Proxy<C>, w: Work<C>, n: nat)
    ensures Loop(p, w, n).ok ==> Loop(p, w, n).leftover == []
    decreases n
  {
    if n > 0 && Step(p, w).Advanced? && !Step(p, w).work.fatal {
      FinishedLeavesNothing(p, Step(p, w).work, n - 1);
    }
  }

  /** On each of the four ways out of a batch, success, a failed send, a fatal report or a
      protocol error, the books stay balanced and nothing is closed that is still owned. */
  lemma BatchKeepsSound<C>(h: Handlers<C>, holds: C -> multiset<Fd>, l: Link<C>, direction: Direction, delivered: bool)
    requires Sound(holds, l) && !l.over && Fits(h, holds, l, Serves(direction, delivered))
    ensures Sound(holds, Advance(h, l, Serves(direction, delivered)))
    ensures forall fd :: fd in Shuts(l.Next(h, direction)) ==> fd !in Owned(holds, Advance(h, l, Serves(direction, delivered)))
  {
    var p, w, beside := h.For(direction), l.Pending(direction), multiset(l.Target(direction).fds);
    BeginsBooks(holds, l, direction);
    LoopKeepsBooks(p, holds, Owned(holds, l), w, beside, MAX_MESSAGES_PER_BATCH);
    LoopKeepsDescriptorOrder(p, w, MAX_MESSAGES_PER_BATCH);
    FinishedLeavesNothing(p, w, MAX_MESSAGES_PER_BATCH);
    hide Loop, AllHonest, InFlight;
    var e := l.Next(h, direction);
    BatchDivides(holds, l, direction, e, delivered);
    var after := l.After(direction, e, delivered);
    Settles(Owned(holds, after), Shuts(e), Owned(holds, l), multiset(e.work.opens), multiset(e.work.closes),
            l.received, l.obtained, l.closed);
    hide Owned, Shuts;
  }

  lemma Settles(stays: multiset<Fd>, shut: multiset<Fd>, before: multiset<Fd>, opens: multiset<Fd>, closes: multiset<Fd>,
      received: multiset<Fd>, obtained: multiset<Fd>, closed: multiset<Fd>)
    requires stays + shut + closes == before + opens && before + closed == received + obtained && Live(stays + shut)
    ensures stays + (closed + closes + shut) == received + (obtained + opens) && Live(stays)
    ensures forall fd :: fd in shut ==> fd !in stays
  {
    assert stays + (closed + closes + shut) == (stays + shut + closes) + closed;
    assert received + (obtained + opens) == (received + obtained) + opens;
    assert (before + opens) + closed == (before + closed) + opens;
    PartIsLive(stays, stays + shut);
    forall fd | fd in shut ensures fd !in stays {
      assert (stays + shut)[fd] <= 1;
    }
  }

  lemma AdvanceKeepsSound<C>(h: Handlers<C>, holds: C -> multiset<Fd>, l: Link<C>, e: Event)
    requires Sound(holds, l) && Fits(h, holds, l, e)
    ensures Sound(holds, Advance(h, l, e))
  {
    if !l.over {
      match e
      case Arrives(_, _, _) => ArrivalKeepsSound(h, holds, l, e);
      case Serves(direction, delivered) => BatchKeepsSound(h, holds, l, direction, delivered);
    }
  }

  lemma {:induction false} RunKeepsSound<C>(h: Handlers<C>, holds: C -> multiset<Fd>, l: Link<C>, es: seq<Event>)
    requires Sound(holds, l) && AllFit(h, holds, l, es)
    ensures Sound(holds, AdvanceAll(h, l, es))
    decreases |es|
  {
    hide Sound, Fits, Advance;
    if es != [] {
      AdvanceKeepsSound(h, holds, l, es[0]);
      RunKeepsSound(h, holds, Advance(h, l, es[0]), es[1..]);
    }
  }

  // ---- the end of a connection ----

  function ClosedByContext<C>(holds: C -> multiset<Fd>, l: Link<C>): multiset<Fd> {
    multiset(set fd | fd in holds(l.ctx) + multiset(l.queued) && fd >= 0)
  }

  /** What dropping both connections and then the context closes. */
  function ClosedByDrops<C>(holds: C -> multiset<Fd>, l: Link<C>): multiset<Fd> {
    Once(l.client.fds, []) + Once(l.host.fds, []) + ClosedByContext(holds, l)
  }

  lemma DropsCloseOwned<C>(holds: C -> multiset<Fd>, l: Link<C>)
    requires Live(Owned(holds, l))
    ensures ClosedByDrops(holds, l) == Owned(holds, l)
  {
    var all, kept := Owned(holds, l), holds(l.ctx) + multiset(l.queued);
    PartIsLive(multiset(l.client.fds), all);
    PartIsLive(multiset(l.host.fds), all);
    PartIsLive(kept, all);
    OnceIs(l.client.fds, [], multiset(l.client.fds));
    OnceIs(l.host.fds, [], multiset(l.host.fds));
    assert forall fd :: ClosedByContext(holds, l)[fd] == kept[fd];
    assert ClosedByContext(holds, l) == kept;
  }

  /** Over any run, however it ends, and the drops that follow it, every descriptor
      received or obtained is closed exactly as often as it was received or obtained,
      and what the drops close is open until then. */
  lemma EveryDescriptorClosedOnce<C>(h: Handlers<C>, holds: C -> multiset<Fd>, l: Link<C>, es: seq<Event>)
    requires Sound(holds, l) && AllFit(h, holds, l, es)
    ensures var end := AdvanceAll(h, l, es);
            && end.closed + ClosedByDrops(holds, end) == end.received + end.obtained
            && Live(ClosedByDrops(holds, end))
  {
    RunKeepsSound(h, holds, l, es);
    DropsCloseOwned(holds, AdvanceAll(h, l, es));
  }
}

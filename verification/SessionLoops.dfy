/**
 The ID-lifecycle session of `Sessions` as the context behind the dispatch loop: its
 handlers account for every descriptor they obtain, so what `Lifetimes` proves of
 honest handlers holds of them, given only that the kernel hands out unused numbers.
 */
module SessionLoops {
  import opened Prelude
  import opened Sessions
  import opened Descriptors
  import opened Lifetimes
  import opened Dispatch
  import Protocol

  /** A session, and the answers the kernel has yet to give it, in any form: two messages
      that find the same session may still meet different outcomes of `dup`. */
  datatype Served<A> = Served(session: Session, answers: A)

  ghost function Holds<A>(c: Served<A>): multiset<Fd> {
    Held(c.session)
  }

  /** The context's queues between two messages. */
  predicate Drained(s: Session) {
    s.toHost == [] && s.closedFds == []
  }

  ghost predicate Applies(s: Session, e: Protocol.Event) {
    && (e.DestroyForwarded? || e.DestroyBuffer? ==> e.sender in s.table.guestToHost)
    && (e.RetireBuffer? ==> e.host in s.table.hostToGuest && s.table.hostToGuest[e.host] in s.table.guestToHost)
    && (e.Create? || e.CreateImmed? ==> e.params in s.table.guestToHost)
    && (e.CreateImmed? ==> s.table.IsHostIdAvailable(e.host))
  }

  ghost predicate AllApply(s: Session, es: seq<Protocol.Event>)
    decreases |es|
  {
    es != [] ==> Applies(s, es[0]) && AllApply(Protocol.Handle(s, es[0]), es[1..])
  }

  /** One message may lead to several handlers' work, such as a commit that retires buffers. */
  ghost function HandleAll(s: Session, es: seq<Protocol.Event>): Session
    requires AllApply(s, es)
    decreases |es|
  {
    if es == [] then s else HandleAll(Protocol.Handle(s, es[0]), es[1..])
  }

  ghost function ObtainedAll(s: Session, es: seq<Protocol.Event>): multiset<Fd>
    requires AllApply(s, es)
    decreases |es|
  {
    if es == [] then multiset{} else Obtained(s, es[0]) + ObtainedAll(Protocol.Handle(s, es[0]), es[1..])
  }

  lemma {:induction false} HandleAllConserves(s: Session, es: seq<Protocol.Event>)
    requires AllApply(s, es)
    ensures Account(HandleAll(s, es)) == Account(s) + ObtainedAll(s, es)
    decreases |es|
  {
    hide Account, Obtained, Protocol.Handle;
    if es != [] {
      HandleConserves(s, es[0]);
      HandleAllConserves(Protocol.Handle(s, es[0]), es[1..]);
    }
  }

  /** The reply is what the events do to the session: it keeps the new state with its
      queues emptied, and the messages for the host leave with their descriptors. */
  ghost predicate Answers<A>(s: Session, es: seq<Protocol.Event>, r: Reply<Served<A>>) {
    && r.Dispatched? && AllApply(s, es)
    && var after := HandleAll(s, es);
       && r.ctx.session == after.(toHost := [], toGuest := [], closedFds := [])
       && multiset(AllQueuedFds(r.forward)) + multiset(AllQueuedFds(r.reverse)) == AllMessageFds(after.toHost)
       && r.closes == after.closedFds
       && multiset(r.opens) == ObtainedAll(s, es)
  }

  /** Every message is either from an unknown sender or handled by the session. */
  ghost predicate RunsSession<A(!new)>(p: Proxy<Served<A>>) {
    forall s: Served<A>, message, fds | Drained(s.session) && p.dispatch(s, message, fds).Dispatched? ::
      exists es :: Answers(s.session, es, p.dispatch(s, message, fds))
  }

  /** The kernel's part, and the arms': new descriptors have unused numbers, and what is
      forwarded came with the message. */
  ghost predicate Fresh<A>(p: Proxy<Served<A>>, w: Work<Served<A>>, beside: multiset<Fd>) {
    NextFrame(p.order, w.buf).Complete? && !w.ambiguous ==>
      var r := p.dispatch(w.ctx, NextFrame(p.order, w.buf).message, w.fds);
      r.Dispatched? ==>
        && Live(Held(w.ctx.session) + multiset(r.opens))
        && (forall fd :: fd in r.opens ==> fd !in InFlight(w) + beside)
        && (r.result.Translated? && r.fdsUsed <= |w.fds| ==> forall fd :: fd in r.result.fds ==> fd in w.fds[..r.fdsUsed])
  }

  ghost predicate AllFresh<A>(p: Proxy<Served<A>>, w: Work<Served<A>>, beside: multiset<Fd>, n: nat)
    decreases n
  {
    n > 0 ==>
      && Fresh(p, w, beside)
      && (Step(p, w).Advanced? && !Step(p, w).work.fatal ==> AllFresh(p, Step(p, w).work, beside, n - 1))
  }

  lemma DrainedAccount(s: Session)
    requires Drained(s)
    ensures Account(s) == Held(s)
  {
    hide Held;
  }

  lemma DrainKeepsHeld(s: Session)
    ensures var t := s.(toHost := [], toGuest := [], closedFds := []); Drained(t) && Held(t) == Held(s)
  {
    hide Pool, PlaneLists, CreateLists, BufferLists;
  }

  lemma AnswersBalance<A>(s: Session, es: seq<Protocol.Event>, r: Reply<Served<A>>)
    requires Drained(s) && Answers(s, es, r)
    ensures Held(s) + multiset(r.opens) == Kept(Holds, r) + multiset(r.closes)
    ensures Drained(r.ctx.session)
  {
    hide Held, AllQueuedFds, AllMessageFds, HandleAll, ObtainedAll, AllApply, Drained;
    HandleAllConserves(s, es);
    DrainedAccount(s);
    DrainKeepsHeld(HandleAll(s, es));
    assert Kept(Holds, r) + multiset(r.closes) == Account(HandleAll(s, es));
  }

  lemma AnswersHonestly<A>(w: Work<Served<A>>, es: seq<Protocol.Event>, r: Reply<Served<A>>)
    requires Drained(w.ctx.session) && Answers(w.ctx.session, es, r) && Live(Held(w.ctx.session) + multiset(r.opens))
    ensures Held(w.ctx.session) + multiset(r.opens) == Kept(Holds, r) + multiset(r.closes)
    ensures Live(Kept(Holds, r)) && Drained(r.ctx.session) && forall fd :: fd in r.opens ==> fd >= 0
  {
    AnswersBalance(w.ctx.session, es, r);
    hide Held, Kept, Drained, Answers;
    var whole := Held(w.ctx.session) + multiset(r.opens);
    assert forall fd :: Kept(Holds, r)[fd] <= whole[fd];
    PartIsLive(Kept(Holds, r), whole);
    assert forall fd :: fd in r.opens ==> fd in whole;
  }

  /** The session's handlers are honest. */
  lemma SessionsAreHonest<A(!new)>(p: Proxy<Served<A>>, w: Work<Served<A>>, beside: multiset<Fd>)
    requires RunsSession(p) && Drained(w.ctx.session) && Fresh(p, w, beside)
    ensures Honest(p, Holds, w, beside)
    ensures Step(p, w).Advanced? ==> Drained(Step(p, w).work.ctx.session)
  {
    hide Held, Kept, Drained, Answers, Live, InFlight, NextFrame;
    var frame := NextFrame(p.order, w.buf);
    if frame.Complete? && !w.ambiguous && p.dispatch(w.ctx, frame.message, w.fds).Dispatched? {
      var r := p.dispatch(w.ctx, frame.message, w.fds);
      var es :| Answers(w.ctx.session, es, r);
      AnswersHonestly(w, es, r);
    }
  }

  lemma {:induction false} SessionBatchesAreHonest<A(!new)>(p: Proxy<Served<A>>, w: Work<Served<A>>, beside: multiset<Fd>, n: nat)
    requires RunsSession(p) && Drained(w.ctx.session) && AllFresh(p, w, beside, n)
    ensures AllHonest(p, Holds, w, beside, n)
    ensures Loop(p, w, n).ok ==> Drained(Loop(p, w, n).work.ctx.session)
    decreases n
  {
    if n > 0 {
      SessionsAreHonest(p, w, beside);
      hide RunsSession, Drained, Honest, Fresh, Step;
      if Step(p, w).Advanced? && !Step(p, w).work.fatal {
        SessionBatchesAreHonest(p, Step(p, w).work, beside, n - 1);
      }
    }
  }

  // ---- runs ----

  ghost predicate FreshEvent<A>(h: Handlers<Served<A>>, l: Link<Served<A>>, e: Event) {
    l.over ||
    match e
    case Arrives(_, _, fds) => Live(Owned(Holds, l) + multiset(fds))
    case Serves(direction, _) =>
      AllFresh(h.For(direction), l.Pending(direction), multiset(l.Target(direction).fds), MAX_MESSAGES_PER_BATCH)
  }

  ghost predicate FreshRun<A>(h: Handlers<Served<A>>, l: Link<Served<A>>, es: seq<Event>)
    decreases |es|
  {
    es != [] ==> FreshEvent(h, l, es[0]) && FreshRun(h, Advance(h, l, es[0]), es[1..])
  }

  lemma EventFits<A(!new)>(h: Handlers<Served<A>>, l: Link<Served<A>>, e: Event)
    requires RunsSession(h.For(ClientToHost)) && RunsSession(h.For(HostToClient))
    requires FreshEvent(h, l, e) && (!l.over ==> Drained(l.ctx.session))
    ensures Fits(h, Holds, l, e) && (!Advance(h, l, e).over ==> Drained(Advance(h, l, e).ctx.session))
  {
    hide RunsSession, Drained, AllFresh;
    if !l.over && e.Serves? {
      assert RunsSession(h.For(e.direction));
      SessionBatchesAreHonest(h.For(e.direction), l.Pending(e.direction), multiset(l.Target(e.direction).fds),
                              MAX_MESSAGES_PER_BATCH);
    }
  }

  lemma {:induction false} SessionRunsFit<A(!new)>(h: Handlers<Served<A>>, l: Link<Served<A>>, es: seq<Event>)
    requires RunsSession(h.For(ClientToHost)) && RunsSession(h.For(HostToClient))
    requires FreshRun(h, l, es) && (!l.over ==> Drained(l.ctx.session))
    ensures AllFit(h, Holds, l, es)
    decreases |es|
  {
    hide RunsSession, Drained, FreshEvent, Fits, Advance;
    if es != [] {
      EventFits(h, l, es[0]);
      SessionRunsFit(h, Advance(h, l, es[0]), es[1..]);
    }
  }

  /** A connection served by the session, from its start to its last drop: every
      descriptor received from either peer or duplicated by a handler is closed once. */
  lemma SessionDescriptorsClosedOnce<A(!new)>(h: Handlers<Served<A>>, answers: A, es: seq<Event>)
    requires RunsSession(h.For(ClientToHost)) && RunsSession(h.For(HostToClient))
    requires FreshRun(h, Begin(Served(START, answers)), es)
    ensures var end := AdvanceAll(h, Begin(Served(START, answers)), es);
            end.closed + ClosedByDrops(Holds, end) == end.received + end.obtained
  {
    hide RunsSession, Fits, Advance;
    SessionRunsFit(h, Begin(Served(START, answers)), es);
    assert Owned(Holds, Begin(Served(START, answers))) == multiset{} by {
      assert PlaneLists(START.pendingParams) == map[] && CreateLists(START.pendingCreates) == map[];
      assert BufferLists(START.nativeBuffers) == map[];
    }
    EveryDescriptorClosedOnce(h, Holds, Begin(Served(START, answers)), es);
  }
}

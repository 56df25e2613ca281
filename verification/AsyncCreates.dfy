/**
 Asynchronous linux-dmabuf creates: every create has one outcome, the order of
 `delete_id` and the late answer does not matter, and neither touches a newer
 object that reuses the guest number.
 */
module AsyncCreates {
  import opened Prelude
  import opened ShadowTables
  import opened DmabufParams
  import opened Sessions
  import opened Lifecycle
  import opened Protocol
  import opened ProtocolSteps
  import opened Guarantees

  // ---- events of objects being destroyed ----

  datatype EventKind = BufferRelease | ParamsCreated | ParamsFailed | OtherKind

  /** The dispatch loop consumes an event without running its handler once the
      destructor of its object has been sent, with three exceptions. */
  predicate IsStale(s: Session, host: u32, kind: EventKind) {
    var interface := s.table.EventInterface(host);
    var beingDestroyed := host in s.table.hostToGuest && s.table.hostToGuest[host] in s.table.pendingDestroyGuestIds;
    && s.table.IsPendingDestroyHost(host)
    && !(interface == Some(WlBuffer) && kind.BufferRelease? && host in s.deferredBuffers)
    && !(interface == Some(LinuxBufferParams) && kind.ParamsCreated? && (beingDestroyed || host in s.orphanedParams))
    && !(interface == Some(LinuxBufferParams) && kind.ParamsFailed? && (beingDestroyed || host in s.orphanedParams))
  }

  // ---- one outcome for every create ----

  /** Until its answer is consumed, a create's params number can be dispatched, neither
      answer to it is suppressed, and it is not reissued. */
  lemma UnansweredStaysDispatchable(w: World, params: u32)
    requires Inv(w) && !w.session.fatal && params in w.host.unanswered
    ensures w.session.table.EventInterface(params) == Some(LinuxBufferParams)
    ensures !IsStale(w.session, params, ParamsCreated) && !IsStale(w.session, params, ParamsFailed)
    ensures !w.session.table.IsHostIdAvailable(params)
  {
    UnansweredIs(w.session, w.host, params);
  }

  lemma AnnouncedStep(w: World, params: u32, buffer: u32, guestBuffer: u32)
    requires Enabled(w, BufferAnnounced(params, buffer, guestBuffer))
    ensures Step(w, BufferAnnounced(params, buffer, guestBuffer)).session == w.session.OnCreated(params, buffer, guestBuffer)
  {
    hide w.session.OnCreated;
  }

  /** An announced buffer is exposed under a fresh guest server number if the params
      object is still alive, and otherwise destroyed once, kept reserved and never exposed. */
  lemma AnnouncedBufferHasOneOutcome(w: World, params: u32, buffer: u32, guestBuffer: u32)
    requires Inv(w) && Enabled(w, BufferAnnounced(params, buffer, guestBuffer))
    requires w.session.table.IsHostIdAvailable(buffer)
    ensures var s := w.session;
            var after := Step(w, BufferAnnounced(params, buffer, guestBuffer)).session;
            && params !in after.pendingCreates && params !in after.orphanedParams
            && if params in s.pendingCreates then
                 var pending := s.pendingCreates[params];
                 && Lookup(after.table.hostToGuest, buffer) == Some(guestBuffer)
                 && Lookup(after.table.guestToHost, guestBuffer) == Some(buffer)
                 && !s.table.IsGuestKnown(guestBuffer) && guestBuffer >= GUEST_SERVER_ID_START
                 && Lookup(after.nativeBuffers, buffer)
                      == Some(NativeBuffer(pending.width, pending.height, pending.syncFds))
                 && after.toGuest == s.toGuest + [Created(pending.guestParams, guestBuffer)]
                 && after.toHost == s.toHost
               else
                 && params in s.orphanedParams
                 && buffer !in after.table.hostToGuest && buffer !in after.nativeBuffers
                 && buffer in after.table.pendingDestroyHostIds
                 && after.toGuest == s.toGuest
                 && after.toHost == s.toHost + [DestroyObject(buffer)]
  {
    var s := w.session;
    AnnouncedIsNew(s, w.host, params, buffer);
    AnnouncedStep(w, params, buffer, guestBuffer);
    hide Inv, Step, s.OnCreated;
    if params in s.pendingCreates {
      LiveAnnounced(s, params, buffer, guestBuffer);
    } else {
      OrphanAnnounced(s, params, buffer, guestBuffer);
      CreatedOrphanView(s, params, buffer, guestBuffer);
    }
  }

  /** A failed create is reported to the guest exactly when its params object is still alive. */
  lemma FailedCreateHasOneOutcome(w: World, params: u32)
    requires Inv(w) && Enabled(w, CreateFailed(params))
    ensures var s := w.session;
            var after := Step(w, CreateFailed(params)).session;
            && params !in after.pendingCreates && params !in after.orphanedParams
            && after.toHost == s.toHost
            && if params in s.pendingCreates then
                 && after.closedFds == s.closedFds + s.pendingCreates[params].syncFds
                 && after.toGuest == s.toGuest + [Failed(s.pendingCreates[params].guestParams)]
               else
                 params in s.orphanedParams && after.closedFds == s.closedFds && after.toGuest == s.toGuest
  {
    UnansweredIs(w.session, w.host, params);
  }

  // ---- the two orders of delete_id and the answer ----

  /** An orphan whose `delete_id` has not arrived yet. */
  ghost predicate LiveOrphan(s: Session, params: u32) {
    && params in s.orphanedParams && params !in s.pendingCreates && params !in s.nativeBuffers
    && Lookup(s.table.hostToGuest, params) == Some(s.orphanedParams[params])
    && Lookup(s.table.guestToHost, s.orphanedParams[params]) == Some(params)
    && s.table.GuestObjectMatches(s.orphanedParams[params], LinuxBufferParams)
    && params !in s.table.hostInterfaces && params !in s.table.retiredHostIds
    && params !in s.table.pendingDestroyHostIds
  }

  lemma OrphanIsLive(s: Session, h: Host, params: u32)
    requires Good(View(s), h) && params in s.orphanedParams && params in s.table.hostToGuest
    ensures LiveOrphan(s, params)
  {
  }

  lemma UnmapThenRelease(t: Table, guest: u32, host: u32)
    requires Lookup(t.guestToHost, guest) == Some(host) && Lookup(t.hostToGuest, host) == Some(guest)
    requires host !in t.hostInterfaces && host !in t.retiredHostIds && host !in t.pendingDestroyHostIds
    ensures t.RemoveGuestMapping(guest).ClearPendingDestroyGuest(guest).RemoveHostInterface(host) == t.RemoveId(guest)
  {
  }

  lemma ReservedForGood(t: Table, buffer: u32, version: u32)
    requires t.IsHostIdAvailable(buffer)
    ensures t.TrackHostInterfaceWithVersion(buffer, WlBuffer, version).MarkPendingDestroyHost(buffer)
         == t.(hostVersions := t.hostVersions - {buffer}, pendingDestroyHostIds := t.pendingDestroyHostIds + {buffer})
  {
  }

  /** The state both orders of `delete_id` and the answer lead to. */
  function Settled(s: Session, params: u32, table: Table, sent: seq<HostMessage>): Session
    requires params in s.orphanedParams
  {
    s.(table := table.RemoveId(s.orphanedParams[params]),
       orphanedParams := s.orphanedParams - {params},
       toHost := s.toHost + sent,
       toGuest := s.toGuest + [DeleteId(s.orphanedParams[params])])
  }

  lemma DeletedThenFailed(s: Session, params: u32)
    requires LiveOrphan(s, params)
    ensures s.OnDeleteId(params).OnFailed(params) == Settled(s, params, s.table, [])
  {
    var guest := s.orphanedParams[params];
    UnmapThenRelease(s.table, guest, params);
    var middle := s.(table := s.table.RemoveGuestMapping(guest).ClearPendingDestroyGuest(guest),
                     toGuest := s.toGuest + [DeleteId(guest)]);
    assert s.OnDeleteId(params) == middle;
    assert s.toHost + [] == s.toHost;
  }

  lemma FailedThenDeleted(s: Session, params: u32)
    requires LiveOrphan(s, params)
    ensures s.OnFailed(params).OnDeleteId(params) == Settled(s, params, s.table, [])
  {
    var middle := s.(orphanedParams := s.orphanedParams - {params});
    assert s.OnFailed(params) == middle;
    assert s.toHost + [] == s.toHost;
  }

  /** `delete_id` then `failed` ends in the same state as `failed` then `delete_id`. */
  lemma FailedCommutesWithDeleteId(s: Session, h: Host, params: u32)
    requires Good(View(s), h) && params in s.orphanedParams && params in s.table.hostToGuest
    ensures s.OnDeleteId(params).OnFailed(params) == s.OnFailed(params).OnDeleteId(params)
  {
    OrphanIsLive(s, h, params);
    DeletedThenFailed(s, params);
    FailedThenDeleted(s, params);
  }

  function Reserving(t: Table, buffer: u32): Table {
    t.(hostVersions := t.hostVersions - {buffer}, pendingDestroyHostIds := t.pendingDestroyHostIds + {buffer})
  }

  lemma DeletedThenCreated(s: Session, params: u32, buffer: u32, guestBuffer: u32)
    requires LiveOrphan(s, params) && s.table.IsHostIdAvailable(buffer)
    ensures s.OnDeleteId(params).OnCreated(params, buffer, guestBuffer)
         == Settled(s, params, Reserving(s.table, buffer), [DestroyObject(buffer)])
  {
    var guest := s.orphanedParams[params];
    var unmapped := s.table.RemoveGuestMapping(guest).ClearPendingDestroyGuest(guest);
    assert s.OnDeleteId(params) == s.(table := unmapped, toGuest := s.toGuest + [DeleteId(guest)]);
    DiscardedAfterDelete(s.(table := unmapped, toGuest := s.toGuest + [DeleteId(guest)]), params, buffer, guestBuffer);
    UnmapThenRelease(Reserving(s.table, buffer), guest, params);
    assert Reserving(unmapped, buffer).RemoveHostInterface(params) == Reserving(s.table, buffer).RemoveId(guest);
  }

  lemma DiscardedAfterDelete(s: Session, params: u32, buffer: u32, guestBuffer: u32)
    requires params in s.orphanedParams && params !in s.pendingCreates && params in s.table.hostInterfaces
    requires params !in s.table.hostToGuest && s.table.IsHostIdAvailable(buffer)
    ensures s.OnCreated(params, buffer, guestBuffer) ==
            s.(table := Reserving(s.table, buffer).RemoveHostInterface(params),
               orphanedParams := s.orphanedParams - {params},
               toHost := s.toHost + [DestroyObject(buffer)])
  {
    var version := match s.table.HostObjectVersion(params) case Some(v) => v case None => UNKNOWN_OBJECT_VERSION;
    ReservedForGood(s.table, buffer, version);
  }

  lemma DiscardedBeforeDelete(s: Session, params: u32, buffer: u32, guestBuffer: u32)
    requires params in s.orphanedParams && params !in s.pendingCreates
    requires params in s.table.hostToGuest && s.table.IsHostIdAvailable(buffer)
    ensures s.OnCreated(params, buffer, guestBuffer) ==
            s.(table := Reserving(s.table, buffer),
               orphanedParams := s.orphanedParams - {params},
               toHost := s.toHost + [DestroyObject(buffer)])
  {
    var version := match s.table.HostObjectVersion(params) case Some(v) => v case None => UNKNOWN_OBJECT_VERSION;
    ReservedForGood(s.table, buffer, version);
  }

  lemma CreatedThenDeleted(s: Session, params: u32, buffer: u32, guestBuffer: u32)
    requires LiveOrphan(s, params) && s.table.IsHostIdAvailable(buffer)
    ensures s.OnCreated(params, buffer, guestBuffer).OnDeleteId(params)
         == Settled(s, params, Reserving(s.table, buffer), [DestroyObject(buffer)])
  {
    DiscardedBeforeDelete(s, params, buffer, guestBuffer);
  }

  /** `delete_id` then `created` ends in the same state as `created` then `delete_id`. */
  lemma CreatedCommutesWithDeleteId(s: Session, h: Host, params: u32, buffer: u32, guestBuffer: u32, otherBuffer: u32)
    requires Good(View(s), h) && params in s.orphanedParams && params in s.table.hostToGuest
    requires s.table.IsHostIdAvailable(buffer)
    ensures s.OnDeleteId(params).OnCreated(params, buffer, guestBuffer)
         == s.OnCreated(params, buffer, otherBuffer).OnDeleteId(params)
  {
    OrphanIsLive(s, h, params);
    DeletedThenCreated(s, params, buffer, guestBuffer);
    CreatedThenDeleted(s, params, buffer, otherBuffer);
  }

  // ---- generations that share a guest number ----

  /** Everything the session knows about the object `guest` names, and about its host object. */
  ghost predicate SameGeneration(s: Session, after: Session, guest: u32)
    requires guest in s.table.guestToHost
  {
    var host := s.table.guestToHost[guest];
    && Lookup(after.table.guestToHost, guest) == Some(host)
    && Lookup(after.table.hostToGuest, host) == Lookup(s.table.hostToGuest, host)
    && Lookup(after.table.interfaces, guest) == Lookup(s.table.interfaces, guest)
    && Lookup(after.table.guestVersions, guest) == Lookup(s.table.guestVersions, guest)
    && Lookup(after.table.hostInterfaces, host) == Lookup(s.table.hostInterfaces, host)
    && Lookup(after.table.hostVersions, host) == Lookup(s.table.hostVersions, host)
    && (guest in after.table.pendingDestroyGuestIds <==> guest in s.table.pendingDestroyGuestIds)
    && Lookup(after.pendingParams, guest) == Lookup(s.pendingParams, guest)
    && (guest in after.usedParams <==> guest in s.usedParams)
    && Lookup(after.pendingCreates, host) == Lookup(s.pendingCreates, host)
    && Lookup(after.nativeBuffers, host) == Lookup(s.nativeBuffers, host)
    && (host in after.deferredBuffers <==> host in s.deferredBuffers)
  }

  /** A late answer to a destroyed create leaves every other object alone, in
      particular the one that took over its guest number, and closes no descriptor. */
  lemma LateAnswerSparesOtherGenerations(s: Session, params: u32, buffer: u32, guestBuffer: u32, guest: u32)
    requires params in s.orphanedParams && params !in s.pendingCreates && s.table.IsEventSenderKnown(params)
    requires s.table.IsHostIdAvailable(buffer)
    requires guest in s.table.guestToHost && s.table.guestToHost[guest] != params
    requires s.table.guestToHost[guest] in s.table.hostToGuest
    ensures SameGeneration(s, s.OnCreated(params, buffer, guestBuffer), guest)
    ensures SameGeneration(s, s.OnFailed(params), guest)
    ensures s.OnCreated(params, buffer, guestBuffer).closedFds == s.closedFds == s.OnFailed(params).closedFds
  {
    if params in s.table.hostToGuest {
      DiscardedBeforeDelete(s, params, buffer, guestBuffer);
    } else {
      DiscardedAfterDelete(s, params, buffer, guestBuffer);
    }
  }

  lemma AcknowledgeSpares(s: Session, host: u32, guest: u32)
    requires guest in s.table.guestToHost && s.table.guestToHost[guest] != host
    requires Lookup(s.table.hostToGuest, s.table.guestToHost[guest]) == Some(guest)
    requires host in s.table.pendingDestroyHostIds
    ensures SameGeneration(s, s.OnDeleteId(host), guest)
    ensures multiset(s.OnDeleteId(host).toGuest)[DeleteId(guest)] == multiset(s.toGuest)[DeleteId(guest)]
  {
  }

  lemma OrphanDeleteSpares(s: Session, host: u32, guest: u32)
    requires guest in s.table.guestToHost && s.table.guestToHost[guest] != host
    requires Lookup(s.table.hostToGuest, s.table.guestToHost[guest]) == Some(guest)
    requires host !in s.table.pendingDestroyHostIds && host in s.orphanedParams
    requires Lookup(s.table.guestToHost, s.orphanedParams[host]) == Some(host)
    ensures SameGeneration(s, s.OnDeleteId(host), guest)
    ensures multiset(s.OnDeleteId(host).toGuest)[DeleteId(guest)] == multiset(s.toGuest)[DeleteId(guest)]
  {
  }

  lemma RemoveIdSpares(t: Table, removed: u32, guest: u32)
    requires removed in t.guestToHost && guest in t.guestToHost && guest != removed
    requires t.guestToHost[guest] != t.guestToHost[removed]
    ensures var r := t.RemoveId(removed); var host := t.guestToHost[guest];
            && Lookup(r.guestToHost, guest) == Some(host)
            && Lookup(r.hostToGuest, host) == Lookup(t.hostToGuest, host)
            && Lookup(r.interfaces, guest) == Lookup(t.interfaces, guest)
            && Lookup(r.guestVersions, guest) == Lookup(t.guestVersions, guest)
            && Lookup(r.hostInterfaces, host) == Lookup(t.hostInterfaces, host)
            && Lookup(r.hostVersions, host) == Lookup(t.hostVersions, host)
            && (guest in r.pendingDestroyGuestIds <==> guest in t.pendingDestroyGuestIds)
  {
  }

  lemma ReleaseSpares(s: Session, host: u32, other: u32)
    requires other != host
    ensures var r := s.RemoveNativeBuffer(host).CloseSync(host);
            && r == s.(nativeBuffers := r.nativeBuffers, pendingCreates := r.pendingCreates, closedFds := r.closedFds)
            && Lookup(r.nativeBuffers, other) == Lookup(s.nativeBuffers, other)
            && Lookup(r.pendingCreates, other) == Lookup(s.pendingCreates, other)
  {
  }

  lemma ObjectDeleteSpares(s: Session, host: u32, guest: u32)
    requires guest in s.table.guestToHost && s.table.guestToHost[guest] != host
    requires Lookup(s.table.hostToGuest, s.table.guestToHost[guest]) == Some(guest)
    requires host !in s.table.pendingDestroyHostIds && host !in s.orphanedParams && host in s.table.hostToGuest
    requires Lookup(s.table.guestToHost, s.table.hostToGuest[host]) == Some(host)
    ensures SameGeneration(s, s.OnDeleteId(host), guest)
    ensures multiset(s.OnDeleteId(host).toGuest)[DeleteId(guest)] == multiset(s.toGuest)[DeleteId(guest)]
  {
    hide s.table.RemoveId, s.RemoveNativeBuffer, s.CloseSync;
    var removed := s.table.hostToGuest[host];
    RemoveIdSpares(s.table, removed, guest);
    ReleaseSpares(s, host, s.table.guestToHost[guest]);
    assert s.OnDeleteId(host) == s.RemoveNativeBuffer(host).CloseSync(host)
        .(table := s.table.RemoveId(removed), toGuest := s.toGuest + [DeleteId(removed)]);
    hide s.OnDeleteId;
  }

  /** A late `delete_id` for an old object leaves every other object alone, even one
      that reused the old object's guest number. */
  lemma LateDeleteIdSparesOtherGenerations(s: Session, h: Host, host: u32, guest: u32)
    requires Good(View(s), h) && host in h.dying
    requires guest in s.table.guestToHost && s.table.guestToHost[guest] != host
    ensures SameGeneration(s, s.OnDeleteId(host), guest)
    ensures DeleteIds(s.OnDeleteId(host), guest) == DeleteIds(s, guest)
  {
    var i := View(s);
    assert Lookup(i.hostToGuest, i.guestToHost[guest]) == Some(guest);
    if host in i.hostToGuest {
      HostNamesGuest(s, h, host);
    }
    DyingIs(i, h, host);
    hide Good, s.OnDeleteId, SameGeneration;
    if host in i.pendingHost {
      AcknowledgeSpares(s, host, guest);
    } else if host in i.orphans {
      OrphanDeleteSpares(s, host, guest);
    } else {
      ObjectDeleteSpares(s, host, guest);
    }
  }

  // ---- counting creates and answers ----

  /** The step asks the host for an asynchronous create on `params`. */
  ghost predicate Asks(w: World, e: Event, params: u32)
    requires Enabled(w, e)
  {
    exists m :: m in Sent(w.session.toHost, Handle(w.session, e).toHost) && AsksFor(m) == Some(params)
  }

  predicate IsAnswer(e: Event, params: u32) {
    (e.BufferAnnounced? && e.params == params) || (e.CreateFailed? && e.params == params)
  }

  lemma {:induction false} HearingUnanswered(h: Host, ms: seq<HostMessage>, params: u32)
    ensures params in HearsAll(h, ms).unanswered <==>
            params in h.unanswered || exists m :: m in ms && AsksFor(m) == Some(params)
  {
    if ms == [] {
      assert HearsAll(h, ms) == h;
    } else {
      var init, last := ms[..|ms| - 1], ms[|ms| - 1];
      HearingUnanswered(h, init, params);
      assert forall m :: m in ms <==> m in init || m == last;
      assert HearsAll(h, ms) == Hears(HearsAll(h, init), last);
      if AsksFor(last) == Some(params) {
        assert last in ms;
      }
    }
  }

  /** A create is asked for only while no earlier one on its number is unanswered. */
  lemma AskedWhileSettled(w: World, e: Event, params: u32)
    requires Inv(w) && Enabled(w, e) && Asks(w, e, params) && !Handle(w.session, e).fatal
    ensures params !in w.host.unanswered && !IsAnswer(e, params)
  {
    var s := w.session;
    StepSends(w, e);
    CreateAccepted(s, e.params, e.request, e.syncFds);
    assert params == s.table.guestToHost[e.params];
    if params in w.host.unanswered {
      UnansweredIs(s, w.host, params);
    }
  }

  lemma AnswerWasAwaited(w: World, e: Event, params: u32)
    requires Enabled(w, e) && IsAnswer(e, params)
    ensures params in w.host.unanswered
  {
  }

  lemma EmitsUnanswered(h: Host, e: Event, params: u32)
    ensures params in Emits(h, e).unanswered <==> params in h.unanswered && !IsAnswer(e, params)
  {
  }

  lemma StepHears(w: World, e: Event)
    requires Enabled(w, e)
    ensures Step(w, e).session == Handle(w.session, e)
    ensures Step(w, e).host == HearsAll(Emits(w.host, e), Sent(w.session.toHost, Handle(w.session, e).toHost))
  {
    hide Handle, HearsAll;
  }

  lemma UnansweredStep(w: World, e: Event, params: u32)
    requires Inv(w) && Enabled(w, e) && !Step(w, e).session.fatal
    ensures params in Step(w, e).host.unanswered <==>
            (params in w.host.unanswered && !IsAnswer(e, params)) || Asks(w, e, params)
    ensures IsAnswer(e, params) ==> params in w.host.unanswered
    ensures Asks(w, e, params) ==> params !in w.host.unanswered && !IsAnswer(e, params)
  {
    StepHears(w, e);
    hide Handle, Inv, Step, HearsAll, IsAnswer, GuestMay, ProxyMay, HostMay;
    var sent := Sent(w.session.toHost, Handle(w.session, e).toHost);
    HearingUnanswered(Emits(w.host, e), sent, params);
    EmitsUnanswered(w.host, e, params);
    if Asks(w, e, params) {
      AskedWhileSettled(w, e, params);
    }
    if IsAnswer(e, params) {
      AnswerWasAwaited(w, e, params);
    }
  }

  ghost function AskCount(w: World, es: seq<Event>, params: u32): nat
    requires Legal(w, es)
    decreases |es|
  {
    if es == [] then 0
    else (if Asks(w, es[0], params) then 1 else 0) + AskCount(Step(w, es[0]), es[1..], params)
  }

  function AnswerCount(es: seq<Event>, params: u32): nat {
    if es == [] then 0
    else (if IsAnswer(es[0], params) then 1 else 0) + AnswerCount(es[1..], params)
  }

  /** Over every run, creates and answers on a params number alternate: none is
      answered twice, and at most one is outstanding. */
  lemma {:induction false} EveryCreateAnsweredOnce(w: World, es: seq<Event>, params: u32)
    requires Inv(w) && Legal(w, es) && !Run(w, es).session.fatal
    ensures AskCount(w, es, params) + (if params in w.host.unanswered then 1 else 0)
         == AnswerCount(es, params) + (if params in Run(w, es).host.unanswered then 1 else 0)
    decreases |es|
  {
    hide Inv, Enabled, Step, Asks, IsAnswer;
    if es != [] {
      StepKeepsInv(w, es[0]);
      LiveUntilEnd(Step(w, es[0]), es[1..]);
      UnansweredStep(w, es[0], params);
      EveryCreateAnsweredOnce(Step(w, es[0]), es[1..], params);
    }
  }

  // ---- numbers of discarded buffers ----

  /** An announcement is accepted exactly when its buffer number is available. */
  lemma AnnouncementAcceptedIff(w: World, params: u32, buffer: u32, guestBuffer: u32)
    requires Inv(w) && Enabled(w, BufferAnnounced(params, buffer, guestBuffer))
    ensures Step(w, BufferAnnounced(params, buffer, guestBuffer)).session.fatal
            <==> !w.session.table.IsHostIdAvailable(buffer)
  {
    var s := w.session;
    UnansweredIs(s, w.host, params);
    if s.table.IsHostIdAvailable(buffer) {
      AnnouncedBufferHasOneOutcome(w, params, buffer, guestBuffer);
      if params in s.pendingCreates {
        LiveAnnounced(s, params, buffer, guestBuffer);
      } else {
        OrphanAnnounced(s, params, buffer, guestBuffer);
      }
    }
  }

  lemma StepAnnounced(w: World, params: u32, buffer: u32, guestBuffer: u32)
    requires Enabled(w, BufferAnnounced(params, buffer, guestBuffer))
    ensures var after := w.session.OnCreated(params, buffer, guestBuffer);
            && Step(w, BufferAnnounced(params, buffer, guestBuffer))
                 == World(after, HearsAll(w.host.Answers(params).Serves(buffer), Sent(w.session.toHost, after.toHost)))
            && !w.session.fatal && params in w.host.unanswered && buffer !in w.host.served
            && w.session.table.IsGuestServerIdFree(guestBuffer)
            && buffer !in w.host.owned && buffer > 1
  {
    hide Inv;
    var s := w.session;
    hide s.OnCreated;
  }

  lemma AfterDiscard(w: World, params: u32, buffer: u32, guestBuffer: u32)
    requires Inv(w) && Enabled(w, BufferAnnounced(params, buffer, guestBuffer))
    requires w.session.table.IsHostIdAvailable(buffer) && params in w.session.orphanedParams
    ensures var v := Step(w, BufferAnnounced(params, buffer, guestBuffer));
            && Inv(v) && !v.session.fatal
            && v.host == w.host.Answers(params)
            && v.session.table.guestToHost == w.session.table.guestToHost
            && v.session.table.interfaces == w.session.table.interfaces
            && !v.session.table.IsHostIdAvailable(buffer)
  {
    var s := w.session;
    StepKeepsInv(w, BufferAnnounced(params, buffer, guestBuffer));
    StepAnnounced(w, params, buffer, guestBuffer);
    UnansweredIs(s, w.host, params);
    hide Inv, HearsAll, Step, Enabled;
    OrphanAnnounced(s, params, buffer, guestBuffer);
    hide s.OnCreated;
    HearsDiscard(w.host, s.toHost, params, buffer);
  }

  lemma HostMayReuse(w: World, buffer: u32, other: u32, otherBuffer: u32)
    requires !w.session.fatal && other in w.host.unanswered && w.session.table.IsGuestServerIdFree(otherBuffer)
    requires buffer > 1 && buffer !in w.host.served && buffer !in w.host.owned
    ensures Enabled(w, BufferAnnounced(other, buffer, otherBuffer))
  {
  }

  /** The number of a buffer announced for a destroyed params object stays reserved
      although the host has freed it, so announcing another buffer under the same
      number closes the connection. */
  lemma DiscardedNumberIsRefused(w: World, params: u32, buffer: u32, guestBuffer: u32, other: u32, otherBuffer: u32)
    requires Inv(w) && Enabled(w, BufferAnnounced(params, buffer, guestBuffer))
    requires w.session.table.IsHostIdAvailable(buffer) && params in w.session.orphanedParams
    requires other in w.host.unanswered && other != params && w.session.table.IsGuestServerIdFree(otherBuffer)
    ensures var v := Step(w, BufferAnnounced(params, buffer, guestBuffer));
            && Inv(v) && !v.session.fatal && buffer !in v.host.served
            && Enabled(v, BufferAnnounced(other, buffer, otherBuffer))
            && Step(v, BufferAnnounced(other, buffer, otherBuffer)).session.fatal
  {
    hide Inv, Step, Handle, HearsAll, Enabled;
    StepAnnounced(w, params, buffer, guestBuffer);
    AfterDiscard(w, params, buffer, guestBuffer);
    var v := Step(w, BufferAnnounced(params, buffer, guestBuffer));
    HostMayReuse(v, buffer, other, otherBuffer);
    AnnouncementAcceptedIff(v, other, buffer, otherBuffer);
  }

  /** The table keeps every number that awaits `delete_id`, except the named one. */
  ghost predicate KeepsAwaiting(s: Session, after: Session, except: Option<u32>) {
    forall h :: h in s.table.pendingDestroyHostIds && except != Some(h) ==> h in after.table.pendingDestroyHostIds
  }

  lemma NewKeepsAwaiting(w: World, e: Event)
    requires Enabled(w, e) && !Handle(w.session, e).fatal
    requires e.NewForwarded? || e.NewFromDisplay? || e.NewTextInput? || e.NewLocal? || e.NewHostOnly?
    ensures KeepsAwaiting(w.session, Handle(w.session, e), None)
  {
    var s := w.session;
    hide KeepsAwaiting;
    match e
    case NewForwarded(sender, id, interface, host) => ForwardNewKeepsAwaiting(s, sender, id, interface, host);
    case NewFromDisplay(id, interface, host) => DisplayNewKeepsAwaiting(s, id, interface, host);
    case NewTextInput(id, host) => TextInputNewKeepsAwaiting(s, id, host);
    case NewLocal(id, interface) => SameAwaiting(s, Handle(s, e));
    case NewHostOnly(interface, version, host) =>
      SameAwaiting(s, Handle(s, e));
  }

  lemma SameAwaiting(s: Session, after: Session)
    requires after.table.pendingDestroyHostIds == s.table.pendingDestroyHostIds
    ensures KeepsAwaiting(s, after, None)
  {
  }

  lemma MapIdKeepsAwaiting(t: Table, guest: u32, host: u32)
    ensures t.MapId(guest, host).pendingDestroyHostIds == t.pendingDestroyHostIds
  {
    hide t.LinkGuest, t.LinkHost;
    LinksKeepAwaiting(t, guest, host);
    LinksKeepAwaiting(t.LinkGuest(guest, host), guest, host);
  }

  lemma LinksKeepAwaiting(t: Table, guest: u32, host: u32)
    ensures t.LinkGuest(guest, host).pendingDestroyHostIds == t.pendingDestroyHostIds
    ensures t.LinkHost(guest, host).pendingDestroyHostIds == t.pendingDestroyHostIds
  {
  }

  lemma ForwardNewKeepsAwaiting(s: Session, sender: u32, id: u32, interface: Interface, host: u32)
    ensures KeepsAwaiting(s, s.ForwardNew(sender, id, interface, host), None)
  {
    MapIdKeepsAwaiting(s.table.AdvanceHostCursor(host), id, host);
    hide s.table.MapId;
  }

  lemma DisplayNewKeepsAwaiting(s: Session, id: u32, interface: Interface, host: u32)
    ensures KeepsAwaiting(s, s.DisplayNew(id, interface, host), None)
  {
    MapIdKeepsAwaiting(s.table.AdvanceHostCursor(host), id, host);
    hide s.table.MapId;
  }

  lemma TextInputNewKeepsAwaiting(s: Session, id: u32, host: u32)
    ensures KeepsAwaiting(s, s.TextInputNew(id, host), None)
  {
    MapIdKeepsAwaiting(s.table.AdvanceHostCursor(host), id, host);
    hide s.table.MapId;
  }

  lemma ForwardDestroyKeepsAwaiting(s: Session, sender: u32)
    requires sender in s.table.guestToHost
    ensures s.ForwardDestroy(sender).table.pendingDestroyHostIds == s.table.pendingDestroyHostIds
  {
  }

  lemma CompleteBufferKeepsAwaiting(s: Session, guest: u32)
    requires guest in s.table.guestToHost
    ensures s.CompleteBufferDestroy(guest).table.pendingDestroyHostIds == s.table.pendingDestroyHostIds
  {
  }

  lemma LocalDestroyKeepsAwaiting(s: Session, id: u32)
    ensures s.LocalDestroy(id).table.pendingDestroyHostIds == s.table.pendingDestroyHostIds
  {
  }

  lemma TextInputDestroyKeepsAwaiting(s: Session, id: u32)
    ensures s.DestroyWithoutHostDestructor(id).table.pendingDestroyHostIds == s.table.pendingDestroyHostIds
  {
  }

  lemma DestroyKeepsAwaiting(w: World, e: Event)
    requires Inv(w) && Enabled(w, e) && !Handle(w.session, e).fatal
    requires e.DestroyForwarded? || e.DestroyBuffer? || e.RetireBuffer? || e.DestroyLocal?
             || e.DestroyTextInput? || e.DestroyHostOnly? || e.RetireHostOnly?
    ensures KeepsAwaiting(w.session, Handle(w.session, e), None)
  {
    var s := w.session;
    hide Good, s.ForwardDestroy, s.CompleteBufferDestroy, s.LocalDestroy, s.DestroyWithoutHostDestructor;
    match e
    case DestroyForwarded(sender) => ForwardDestroyKeepsAwaiting(s, sender);
    case DestroyBuffer(sender, deferred) => CompleteBufferKeepsAwaiting(s, sender);
    case RetireBuffer(host) => CompleteBufferKeepsAwaiting(s, s.table.hostToGuest[host]);
    case DestroyLocal(id) => LocalDestroyKeepsAwaiting(s, id);
    case DestroyTextInput(id) => TextInputDestroyKeepsAwaiting(s, id);
    case DestroyHostOnly(host) =>
    case RetireHostOnly(host) => HostOnlyIsNotAwaiting(s, w.host, host);
  }

  lemma HostOnlyIsNotAwaiting(s: Session, h: Host, host: u32)
    requires Good(View(s), h) && host in s.hostOnly
    ensures host !in s.table.pendingDestroyHostIds
  {
  }

  lemma ParamsKeepAwaiting(w: World, e: Event)
    requires Enabled(w, e) && !Handle(w.session, e).fatal
    requires e.Add? || e.Create? || e.CreateImmed?
    ensures KeepsAwaiting(w.session, Handle(w.session, e), None)
  {
    var s := w.session;
    hide s.OnAdd, s.OnCreate, s.OnCreateImmed;
    match e
    case Add(params, plane, duplicate) => AddFrame(s, params, plane, duplicate);
    case Create(params, request, syncFds) => CreateAccepted(s, params, request, syncFds);
    case CreateImmed(params, buffer, request, host, syncFds) =>
      if params in s.pendingParams {
        CreateImmedAccepted(s, params, buffer, request, host, syncFds);
      } else {
        CreateImmedIgnored(s, params, buffer, request, host, syncFds);
      }
  }

  lemma DoneKeepsAwaiting(s: Session, host: u32, data: u32)
    ensures KeepsAwaiting(s, s.OnDone(host, data), None)
  {
  }

  lemma DeleteIdKeepsAwaiting(s: Session, host: u32)
    ensures KeepsAwaiting(s, s.OnDeleteId(host), Some(host))
  {
  }

  lemma CreatedKeepsAwaiting(s: Session, h: Host, params: u32, buffer: u32, guestBuffer: u32)
    requires Good(View(s), h) && params in h.unanswered
    requires s.table.IsGuestServerIdFree(guestBuffer) && s.table.IsHostIdAvailable(buffer)
    ensures KeepsAwaiting(s, s.OnCreated(params, buffer, guestBuffer), None)
  {
    hide Good, s.OnCreated;
    AnnouncedIsNew(s, h, params, buffer);
    if params in s.orphanedParams {
      CreatedOrphanView(s, params, buffer, guestBuffer);
    } else {
      CreatedLiveView(s, params, buffer, guestBuffer);
    }
  }

  lemma HostEventKeepsAwaiting(w: World, e: Event)
    requires Inv(w) && Enabled(w, e) && !Handle(w.session, e).fatal
    requires e.CallbackDone? || e.HostDeleteId? || e.BufferAnnounced? || e.CreateFailed?
    ensures KeepsAwaiting(w.session, Handle(w.session, e), if e.HostDeleteId? then Some(e.host) else None)
  {
    var s, h := w.session, w.host;
    hide s.OnDone, s.OnDeleteId, s.OnFailed, KeepsAwaiting;
    match e
    case CallbackDone(host, data) => DoneKeepsAwaiting(s, host, data);
    case HostDeleteId(host) => DeleteIdKeepsAwaiting(s, host);
    case BufferAnnounced(params, buffer, guestBuffer) =>
      if !s.table.IsHostIdAvailable(buffer) {
        BadBufferIsFatal(s, h, params, buffer, guestBuffer);
      }
      CreatedKeepsAwaiting(s, h, params, buffer, guestBuffer);
    case CreateFailed(params) => FailedKeepsAwaiting(s, h, params);
  }

  lemma FailedKeepsAwaiting(s: Session, h: Host, params: u32)
    requires Good(View(s), h) && params in h.unanswered
    ensures KeepsAwaiting(s, s.OnFailed(params), None)
  {
    UnansweredIs(s, h, params);
    FailedView(s, h, params);
    hide s.OnFailed;
  }

  lemma StepKeepsAwaiting(w: World, e: Event)
    requires Inv(w) && Enabled(w, e) && !Step(w, e).session.fatal
    ensures KeepsAwaiting(w.session, Step(w, e).session, if e.HostDeleteId? then Some(e.host) else None)
  {
    StepHears(w, e);
    hide Inv, Enabled, Handle, Step, KeepsAwaiting;
    if e.NewForwarded? || e.NewFromDisplay? || e.NewTextInput? || e.NewLocal? || e.NewHostOnly? {
      NewKeepsAwaiting(w, e);
    } else if e.Add? || e.Create? || e.CreateImmed? {
      ParamsKeepAwaiting(w, e);
    } else if e.CallbackDone? || e.HostDeleteId? || e.BufferAnnounced? || e.CreateFailed? {
      HostEventKeepsAwaiting(w, e);
    } else {
      DestroyKeepsAwaiting(w, e);
    }
  }

  /** The number of a discarded buffer never returns to use unless the host sends
      `delete_id` for it, which it does not owe for numbers of its own range. */
  lemma {:induction false} DiscardedNumberIsLost(w: World, es: seq<Event>, buffer: u32)
    requires Inv(w) && Legal(w, es) && !Run(w, es).session.fatal
    requires buffer in w.session.table.pendingDestroyHostIds && HostDeleteId(buffer) !in es
    ensures buffer in Run(w, es).session.table.pendingDestroyHostIds
    ensures !Run(w, es).session.table.IsHostIdAvailable(buffer)
    decreases |es|
  {
    hide Inv, Enabled, Step;
    if es != [] {
      StepKeepsInv(w, es[0]);
      LiveUntilEnd(Step(w, es[0]), es[1..]);
      StepKeepsAwaiting(w, es[0]);
      DiscardedNumberIsLost(Step(w, es[0]), es[1..], buffer);
    }
  }

  lemma EndedIsNotAwaiting(w: World, e: Event, host: u32)
    requires Inv(w) && Enabled(w, e) && Ended(w.session, e) == Some(host)
    ensures host !in w.session.table.pendingDestroyHostIds
  {
    hide Ended;
    EndedIs(w.session, w.host, e, host);
  }

  lemma EndedIs(s: Session, h: Host, e: Event, host: u32)
    requires Good(View(s), h) && Ended(s, e) == Some(host)
    requires e.DestroyHostOnly? ==> e.host in s.hostOnly
    ensures host !in s.table.pendingDestroyHostIds
  {
    hide CreatesOk, HostOk, NamesOk;
  }

  function Destroys(ms: seq<HostMessage>, host: u32): nat {
    multiset(ms)[DestroyObject(host)]
  }

  lemma NothingDestroyed(before: seq<HostMessage>, after: seq<HostMessage>, host: u32)
    requires |before| <= |after| && after[..|before|] == before && DestroyObject(host) !in Sent(before, after)
    ensures Destroys(after, host) == Destroys(before, host)
  {
    assert after == before + Sent(before, after);
  }

  /** After a buffer has been discarded, no step of the rest of a run destroys it again or
      maps it to a guest number, until the host sends `delete_id` for it. */
  lemma {:induction false} DiscardedBufferIsDestroyedOnce(w: World, es: seq<Event>, buffer: u32)
    requires Inv(w) && Legal(w, es) && !Run(w, es).session.fatal
    requires buffer in w.session.table.pendingDestroyHostIds && HostDeleteId(buffer) !in es
    ensures Destroys(Run(w, es).session.toHost, buffer) == Destroys(w.session.toHost, buffer)
    ensures buffer !in Run(w, es).session.table.hostToGuest
    decreases |es|
  {
    if es == [] {
      AwaitingIsUnmapped(w, buffer);
    } else {
      AwaitingIsNotDestroyed(w, es[0], buffer);
      hide Inv, Enabled, Step;
      StepKeepsInv(w, es[0]);
      LiveUntilEnd(Step(w, es[0]), es[1..]);
      StepKeepsAwaiting(w, es[0]);
      DiscardedBufferIsDestroyedOnce(Step(w, es[0]), es[1..], buffer);
    }
  }

  lemma AwaitingIsNotDestroyed(w: World, e: Event, buffer: u32)
    requires Inv(w) && Enabled(w, e) && buffer in w.session.table.pendingDestroyHostIds && e != HostDeleteId(buffer)
    ensures Destroys(Step(w, e).session.toHost, buffer) == Destroys(w.session.toHost, buffer)
  {
    hide Inv, Enabled, Handle, Step, Ended, Asked, Offered;
    StepSends(w, e);
    if Ended(w.session, e) == Some(buffer) {
      EndedIsNotAwaiting(w, e, buffer);
    }
    StepHears(w, e);
    NothingDestroyed(w.session.toHost, Step(w, e).session.toHost, buffer);
  }

  lemma AwaitingIsUnmapped(w: World, buffer: u32)
    requires Inv(w) && !w.session.fatal && buffer in w.session.table.pendingDestroyHostIds
    ensures buffer !in w.session.table.hostToGuest
  {
  }

  /** A buffer announced for a destroyed params object is destroyed exactly once and never
      exposed, over the announcement and whatever follows until its `delete_id`. */
  lemma OrphanedBufferHasOneOutcome(w: World, params: u32, buffer: u32, guestBuffer: u32, es: seq<Event>)
    requires Inv(w) && Enabled(w, BufferAnnounced(params, buffer, guestBuffer))
    requires w.session.table.IsHostIdAvailable(buffer) && params in w.session.orphanedParams
    requires var v := Step(w, BufferAnnounced(params, buffer, guestBuffer)); Legal(v, es) && !Run(v, es).session.fatal
    requires HostDeleteId(buffer) !in es
    ensures var end := Run(Step(w, BufferAnnounced(params, buffer, guestBuffer)), es).session;
            && Destroys(end.toHost, buffer) == Destroys(w.session.toHost, buffer) + 1
            && buffer !in end.table.hostToGuest
  {
    var e := BufferAnnounced(params, buffer, guestBuffer);
    OrphanIsNotPending(w, params);
    AnnouncedBufferHasOneOutcome(w, params, buffer, guestBuffer);
    StepKeepsInv(w, e);
    hide Inv, Enabled, Step, Handle;
    DiscardedBufferIsDestroyedOnce(Step(w, e), es, buffer);
  }

  lemma OrphanIsNotPending(w: World, params: u32)
    requires Inv(w) && !w.session.fatal && params in w.session.orphanedParams
    ensures params !in w.session.pendingCreates
  {
  }
}

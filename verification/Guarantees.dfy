/** What the protocol promises about whole runs. */
module Guarantees {
  import opened Prelude
  import opened ShadowTables
  import opened DmabufParams
  import opened Sessions
  import opened Lifecycle
  import opened Protocol
  import opened ProtocolSteps
  import opened Descriptors

  // ---- host numbers: never reissued before the host's delete_id ----

  /** The client-allocated number a message makes known to the host. */
  function Introduces(m: HostMessage): Option<u32> {
    match m
    case CreateObject(id) => Some(id)
    case CreateImmediate(_, buffer, _) => Some(buffer)
    case _ => None
  }

  /** The step sends a message that introduces `host`. */
  ghost predicate Announces(w: World, e: Event, host: u32)
    requires Enabled(w, e)
  {
    exists m :: m in Sent(w.session.toHost, Handle(w.session, e).toHost) && Introduces(m) == Some(host)
  }

  lemma HeldIsReserved(w: World, host: u32)
    requires Inv(w) && !w.session.fatal && host in w.host.owned
    ensures !w.session.table.IsHostIdAvailable(host)
  {
  }

  lemma {:induction false} HearingKeepsOwned(h: Host, ms: seq<HostMessage>)
    ensures h.owned <= HearsAll(h, ms).owned
  {
    if ms != [] {
      HearingKeepsOwned(h, ms[..|ms| - 1]);
    }
  }

  lemma {:induction false} IntroducedIsOwned(h: Host, ms: seq<HostMessage>, m: HostMessage, host: u32)
    requires m in ms && Introduces(m) == Some(host)
    ensures host in HearsAll(h, ms).owned
  {
    var last := |ms| - 1;
    if m in ms[..last] {
      IntroducedIsOwned(h, ms[..last], m, host);
    }
  }

  lemma AnnouncedIsOwned(w: World, e: Event, host: u32)
    requires Enabled(w, e) && Announces(w, e, host)
    ensures host in Step(w, e).host.owned
  {
    hide Handle;
    var sent := Sent(w.session.toHost, Handle(w.session, e).toHost);
    var m :| m in sent && Introduces(m) == Some(host);
    IntroducedIsOwned(Emits(w.host, e), sent, m, host);
  }

  lemma OwnedUntilDeleted(w: World, e: Event, host: u32)
    requires Enabled(w, e) && host in w.host.owned && e != HostDeleteId(host)
    ensures host in Step(w, e).host.owned
  {
    hide Handle;
    HearingKeepsOwned(Emits(w.host, e), Sent(w.session.toHost, Handle(w.session, e).toHost));
  }

  /** The params number on which a message asks for an asynchronous create. */
  function AsksFor(m: HostMessage): Option<u32> {
    match m
    case CreateAsync(params, _) => Some(params)
    case _ => None
  }

  /** `after` extends `before`, and nothing in it beyond `before` introduces a number other than `host`, asks for
      a create on a number other than `params`, or destroys an object other than `ended`. */
  ghost predicate OnlySends(before: seq<HostMessage>, after: seq<HostMessage>,
      host: Option<u32>, params: Option<u32>, ended: Option<u32>)
  {
    && |before| <= |after| && after[..|before|] == before
    && forall m :: m in Sent(before, after) ==>
      && (Introduces(m).Some? ==> Introduces(m) == host)
      && (AsksFor(m).Some? ==> AsksFor(m) == params)
      && (m.DestroyObject? ==> ended == Some(m.id))
  }

  lemma PlanesThenCreate(before: seq<HostMessage>, params: u32, planes: seq<Plane>, create: HostMessage)
    requires !create.DestroyObject?
    ensures OnlySends(before, before + AddPlanes(params, planes) + [create], Introduces(create), AsksFor(create), None)
  {
    assert Sent(before, before + AddPlanes(params, planes) + [create]) == AddPlanes(params, planes) + [create];
  }

  lemma CreateToHost(s: Session, params: u32, request: BufferRequest, syncFds: Option<seq<Fd>>)
    requires params in s.table.guestToHost
    ensures var after := s.OnCreate(params, request, syncFds).toHost;
            var host := s.table.guestToHost[params];
            || after == s.toHost
            || (params in s.pendingParams
                && after == s.toHost + AddPlanes(host, s.pendingParams[params]) + [CreateAsync(host, request)])
  {
    hide ValidParams, ParamsErrorCode, s.Admits;
    if !s.Admits(params) {
    } else if !s.CanProcess(params, syncFds) {
    } else {
    }
  }

  lemma CreateSends(s: Session, params: u32, request: BufferRequest, syncFds: Option<seq<Fd>>)
    requires params in s.table.guestToHost
    ensures OnlySends(s.toHost, s.OnCreate(params, request, syncFds).toHost, None, Some(s.table.guestToHost[params]), None)
  {
    var host := s.table.guestToHost[params];
    CreateToHost(s, params, request, syncFds);
    hide s.OnCreate;
    if params in s.pendingParams {
      PlanesThenCreate(s.toHost, host, s.pendingParams[params], CreateAsync(host, request));
    }
  }

  lemma ImmediateToHost(s: Session, params: u32, buffer: u32, request: BufferRequest, host: u32, syncFds: Option<seq<Fd>>)
    requires params in s.table.guestToHost && s.table.IsHostIdAvailable(host)
    requires ConsumesAtOnce(s, params, buffer, request, syncFds)
    ensures var target := s.table.guestToHost[params];
            s.OnCreateImmed(params, buffer, request, host, syncFds).toHost
              == s.toHost + AddPlanes(target, s.pendingParams[params]) + [CreateImmediate(target, host, request)]
  {
    ImmediateIs(s, params, buffer, request, host, syncFds);
    hide s.OnCreateImmed, ValidParams;
  }

  lemma RefusedToHost(s: Session, params: u32, buffer: u32, request: BufferRequest, host: u32, syncFds: Option<seq<Fd>>)
    requires params in s.table.guestToHost && s.table.IsHostIdAvailable(host)
    requires !ConsumesAtOnce(s, params, buffer, request, syncFds)
    ensures s.OnCreateImmed(params, buffer, request, host, syncFds).toHost == s.toHost
  {
    hide ValidParams, ParamsErrorCode, s.table.MapId;
    if !s.Admits(params) || !s.table.IsGuestIdAvailable(buffer) {
    } else if params in s.usedParams || params !in s.pendingParams {
    } else if !ValidParams(Some(s.pendingParams[params]), request.width, request.height, request.format) {
    } else {
    }
  }

  lemma CreateImmedSends(s: Session, params: u32, buffer: u32, request: BufferRequest, host: u32, syncFds: Option<seq<Fd>>)
    requires params in s.table.guestToHost && s.table.IsHostIdAvailable(host)
    ensures OnlySends(s.toHost, s.OnCreateImmed(params, buffer, request, host, syncFds).toHost, Some(host), None, None)
  {
    var target := s.table.guestToHost[params];
    hide s.OnCreateImmed, ValidParams, s.Admits;
    if ConsumesAtOnce(s, params, buffer, request, syncFds) {
      ImmediateToHost(s, params, buffer, request, host, syncFds);
      PlanesThenCreate(s.toHost, target, s.pendingParams[params], CreateImmediate(target, host, request));
    } else {
      RefusedToHost(s, params, buffer, request, host, syncFds);
    }
  }

  lemma CreatedSends(s: Session, params: u32, buffer: u32, guestBuffer: u32)
    ensures OnlySends(s.toHost, s.OnCreated(params, buffer, guestBuffer).toHost, None, None,
                      if s.table.IsHostIdAvailable(buffer) then Some(buffer) else None)
  {
    CreatedHelpersSend(s, params, buffer, guestBuffer);
    hide s.CloseSync, s.ReleaseOrphan, s.DiscardHostBuffer, s.ExposeBuffer;
    var after := s.OnCreated(params, buffer, guestBuffer).toHost;
    assert after == s.toHost || (s.table.IsHostIdAvailable(buffer) && after == s.toHost + [DestroyObject(buffer)]);
    hide s.OnCreated;
  }

  lemma CreatedHelpersSend(s: Session, params: u32, buffer: u32, guestBuffer: u32)
    ensures s.DiscardHostBuffer(params, buffer).toHost == s.toHost + [DestroyObject(buffer)]
    ensures forall t: Session :: t.CloseSync(params).toHost == t.toHost && t.ReleaseOrphan(params).toHost == t.toHost
    ensures forall t: Session :: t.ExposeBuffer(params, buffer, guestBuffer).toHost == t.toHost
  {
    hide s.table.MapId, s.table.IsGuestIdAvailable, s.table.TrackInterfaceWithVersion, s.table.AdvanceHostCursor;
  }

  /** The host number the allocator offered for an event. */
  function Offered(e: Event): Option<u32> {
    match e
    case NewForwarded(_, _, _, host) => Some(host)
    case NewFromDisplay(_, _, host) => Some(host)
    case NewTextInput(_, host) => Some(host)
    case NewHostOnly(_, _, host) => Some(host)
    case CreateImmed(_, _, _, host, _) => Some(host)
    case _ => None
  }

  /** The params number an asynchronous create request names. */
  function Asked(s: Session, e: Event): Option<u32> {
    match e
    case Create(params, _, _) => Lookup(s.table.guestToHost, params)
    case _ => None
  }

  /** The object a step may destroy on the host. */
  function Ended(s: Session, e: Event): Option<u32> {
    match e
    case DestroyForwarded(sender) => Lookup(s.table.guestToHost, sender)
    case DestroyBuffer(sender, _) => Lookup(s.table.guestToHost, sender)
    case RetireBuffer(host) =>
      if host in s.table.hostToGuest then Lookup(s.table.guestToHost, s.table.hostToGuest[host]) else None
    case DestroyHostOnly(host) => Some(host)
    case BufferAnnounced(_, buffer, _) => if s.table.IsHostIdAvailable(buffer) then Some(buffer) else None
    case _ => None
  }

  lemma ForwardNewSends(s: Session, sender: u32, id: u32, interface: Interface, host: u32)
    ensures OnlySends(s.toHost, s.ForwardNew(sender, id, interface, host).toHost, Some(host), None, None)
  {
    hide s.table.MapId, s.table.IsGuestIdAvailable, s.table.TrackInterfaceWithVersion, s.table.AdvanceHostCursor;
  }

  lemma DisplayNewSends(s: Session, id: u32, interface: Interface, host: u32)
    ensures OnlySends(s.toHost, s.DisplayNew(id, interface, host).toHost, Some(host), None, None)
  {
    hide s.table.MapId, s.table.IsGuestIdAvailable, s.table.TrackInterfaceWithVersion, s.table.AdvanceHostCursor;
  }

  lemma TextInputNewSends(s: Session, id: u32, host: u32)
    ensures OnlySends(s.toHost, s.TextInputNew(id, host).toHost, Some(host), None, None)
  {
    hide s.table.MapId, s.table.IsGuestIdAvailable, s.table.TrackInterfaceWithVersion, s.table.AdvanceHostCursor;
  }

  lemma NewSends(w: World, e: Event)
    requires Enabled(w, e)
    requires e.NewForwarded? || e.NewFromDisplay? || e.NewTextInput? || e.NewLocal? || e.NewHostOnly?
    ensures OnlySends(w.session.toHost, Handle(w.session, e).toHost, Offered(e), Asked(w.session, e), Ended(w.session, e))
  {
    var s := w.session;
    hide s.ForwardNew, s.DisplayNew, s.TextInputNew, Enabled;
    match e
    case NewForwarded(sender, id, interface, host) => ForwardNewSends(s, sender, id, interface, host);
    case NewFromDisplay(id, interface, host) => DisplayNewSends(s, id, interface, host);
    case NewTextInput(id, host) => TextInputNewSends(s, id, host);
    case _ =>
  }

  lemma ForwardDestroySends(s: Session, sender: u32)
    requires sender in s.table.guestToHost
    ensures OnlySends(s.toHost, s.ForwardDestroy(sender).toHost, None, None, Some(s.table.guestToHost[sender]))
  {
  }

  lemma CompleteBufferSends(s: Session, guest: u32)
    requires guest in s.table.guestToHost
    ensures OnlySends(s.toHost, s.CompleteBufferDestroy(guest).toHost, None, None, Some(s.table.guestToHost[guest]))
  {
    assert s.CompleteBufferDestroy(guest).toHost == s.toHost + [DestroyObject(s.table.guestToHost[guest])];
    hide s.CompleteBufferDestroy;
  }

  lemma DestroySends(w: World, e: Event)
    requires Enabled(w, e)
    requires e.DestroyForwarded? || e.DestroyBuffer? || e.RetireBuffer? || e.DestroyLocal?
             || e.DestroyTextInput? || e.DestroyHostOnly? || e.RetireHostOnly?
    ensures OnlySends(w.session.toHost, Handle(w.session, e).toHost, Offered(e), Asked(w.session, e), Ended(w.session, e))
  {
    var s := w.session;
    hide s.ForwardDestroy, s.CompleteBufferDestroy;
    match e
    case DestroyForwarded(sender) => ForwardDestroySends(s, sender);
    case DestroyBuffer(sender, _) => CompleteBufferSends(s, sender);
    case RetireBuffer(host) => CompleteBufferSends(s, s.table.hostToGuest[host]);
    case _ =>
  }

  lemma DoneIsQuiet(s: Session, host: u32, data: u32)
    ensures s.OnDone(host, data).toHost == s.toHost
  {
    hide s.table.IsEventSenderKnown, s.table.IsPendingDestroyHost;
  }

  lemma ReleasesAreQuiet(s: Session, host: u32)
    ensures s.CloseSync(host).toHost == s.toHost && s.RemoveNativeBuffer(host).toHost == s.toHost
    ensures s.ReleaseOrphan(host).toHost == s.toHost
  {
  }

  lemma DeleteIdIsQuiet(s: Session, host: u32)
    ensures s.OnDeleteId(host).toHost == s.toHost
  {
    hide s.table.ConsumeHostDeleteId, s.table.RemoveId, s.table.RemoveGuestMapping, s.table.ClearPendingDestroyGuest,
      s.CloseSync, s.RemoveNativeBuffer, s.ReleaseOrphan;
    ReleasesAreQuiet(s, host);
    ReleasesAreQuiet(s.RemoveNativeBuffer(host), host);
  }

  lemma FailedIsQuiet(s: Session, params: u32)
    ensures s.OnFailed(params).toHost == s.toHost
  {
    hide s.table.IsEventSenderKnown, s.CloseSync, s.ReleaseOrphan, s.RemoveNativeBuffer;
    ReleasesAreQuiet(s, params);
    ReleasesAreQuiet(s.CloseSync(params).(orphanedParams := s.orphanedParams - {params}), params);
  }

  lemma HostEventSends(w: World, e: Event)
    requires Enabled(w, e) && (e.CallbackDone? || e.HostDeleteId? || e.BufferAnnounced? || e.CreateFailed?)
    ensures OnlySends(w.session.toHost, Handle(w.session, e).toHost, Offered(e), Asked(w.session, e), Ended(w.session, e))
  {
    var s := w.session;
    hide s.OnCreated, s.OnDone, s.OnDeleteId, s.OnFailed;
    match e
    case BufferAnnounced(params, buffer, guestBuffer) => CreatedSends(s, params, buffer, guestBuffer);
    case CallbackDone(host, data) => DoneIsQuiet(s, host, data);
    case HostDeleteId(host) => DeleteIdIsQuiet(s, host);
    case CreateFailed(params) => FailedIsQuiet(s, params);
    case _ =>
  }

  lemma ParamsRequestSends(w: World, e: Event)
    requires Enabled(w, e) && (e.Add? || e.Create? || e.CreateImmed?)
    ensures OnlySends(w.session.toHost, Handle(w.session, e).toHost, Offered(e), Asked(w.session, e), Ended(w.session, e))
  {
    var s := w.session;
    hide s.OnCreate, s.OnCreateImmed, s.OnAdd;
    match e
    case CreateImmed(params, buffer, request, host, syncFds) =>
      CreateImmedSends(s, params, buffer, request, host, syncFds);
    case Create(params, request, syncFds) => CreateSends(s, params, request, syncFds);
    case Add(params, plane, duplicate) => AddKeeps(s, params, plane, duplicate);
    case _ =>
  }

  lemma StepSends(w: World, e: Event)
    requires Enabled(w, e)
    ensures OnlySends(w.session.toHost, Handle(w.session, e).toHost, Offered(e), Asked(w.session, e), Ended(w.session, e))
  {
    hide OnlySends, Asked, Ended, Offered;
    if e.NewForwarded? || e.NewFromDisplay? || e.NewTextInput? || e.NewLocal? || e.NewHostOnly? {
      NewSends(w, e);
    } else if e.Add? || e.Create? || e.CreateImmed? {
      ParamsRequestSends(w, e);
    } else if e.CallbackDone? || e.HostDeleteId? || e.BufferAnnounced? || e.CreateFailed? {
      HostEventSends(w, e);
    } else {
      DestroySends(w, e);
    }
  }

  /** The number a step introduces is one the allocator offered for it. */
  lemma AnnouncedWasAvailable(w: World, e: Event, host: u32)
    requires Enabled(w, e) && Announces(w, e, host)
    ensures w.session.table.IsHostIdAvailable(host)
  {
    StepSends(w, e);
    hide Handle;
  }

  lemma {:induction false} HeldAlongRun(w: World, es: seq<Event>, host: u32)
    requires Legal(w, es) && host in w.host.owned && HostDeleteId(host) !in es
    ensures host in Run(w, es).host.owned
    decreases |es|
  {
    hide Enabled, Step;
    if es != [] {
      OwnedUntilDeleted(w, es[0], host);
      HeldAlongRun(Step(w, es[0]), es[1..], host);
    }
  }

  /** A number introduced twice in a run was deleted by the host in between: by
      whatever road its object ended, the number is out of circulation until then. */
  lemma NoReuseBeforeDeleteId(w: World, first: Event, between: seq<Event>, second: Event, host: u32)
    requires Inv(w) && Enabled(w, first) && Legal(Step(w, first), between)
    requires Enabled(Run(Step(w, first), between), second)
    requires Announces(w, first, host) && Announces(Run(Step(w, first), between), second, host)
    ensures HostDeleteId(host) in between
  {
    var v := Step(w, first);
    var u := Run(v, between);
    StepKeepsInv(w, first);
    RunKeepsInv(v, between);
    AnnouncedIsOwned(w, first, host);
    AnnouncedWasAvailable(u, second, host);
    assert !u.session.fatal;
    hide Inv, Step, Announces, Handle;
    if HostDeleteId(host) !in between {
      HeldAlongRun(v, between, host);
      HeldIsReserved(u, host);
    }
  }

  /** An acknowledged number is free at once, unless a create is still unanswered under it. */
  lemma DeleteIdFrees(w: World, host: u32)
    requires Inv(w) && Enabled(w, HostDeleteId(host)) && host > 1
    ensures Step(w, HostDeleteId(host)).session.table.IsHostIdAvailable(host)
            <==> host !in w.session.orphanedParams
  {
    assert Step(w, HostDeleteId(host)).session == w.session.OnDeleteId(host);
    DeletedIsFree(w.session, w.host, host);
    hide Inv, Step, w.session.OnDeleteId;
  }

  lemma DeletedIsFree(s: Session, h: Host, host: u32)
    requires Good(View(s), h) && host in h.dying && host > 1
    ensures View(s.OnDeleteId(host)).Available(host) <==> host !in s.orphanedParams
  {
    var i := View(s);
    DyingIs(i, h, host);
    if host in i.pendingHost {
      AcknowledgeView(s, host);
      AcknowledgedIsFree(i, host);
    } else if host in i.orphans {
      OrphanDeletedView(s, host);
    } else {
      ObjectDeletedView(s, host);
      ForgottenIsFree(i, host);
    }
    hide s.OnDeleteId;
  }

  lemma AcknowledgedIsFree(i: Ids, host: u32)
    requires MapsOk(i) && host in i.pendingHost && host > 1
    ensures i.Acknowledge(host).Available(host)
  {
  }

  lemma ForgottenIsFree(i: Ids, host: u32)
    requires MapsOk(i) && host in i.hostToGuest && i.hostToGuest[host] in i.guestToHost && host > 1
    ensures i.Forget(i.hostToGuest[host]).Available(host)
  {
  }

  // ---- guest numbers: one delete_id for each lifetime ----

  /** How many `delete_id` events for `guest` the proxy has queued. */
  ghost function DeleteIds(s: Session, guest: u32): nat {
    multiset(s.toGuest)[DeleteId(guest)]
  }

  /** The lifetime of `guest` ends in this transition exactly when it queues `delete_id`, once. */
  ghost predicate Paid(s: Session, after: Session, guest: u32) {
    DeleteIds(after, guest) ==
      DeleteIds(s, guest) + if s.table.IsGuestKnown(guest) && !after.table.IsGuestKnown(guest) then 1 else 0
  }

  lemma NewForwardedPays(s: Session, sender: u32, id: u32, interface: Interface, host: u32, guest: u32)
    requires s.Admits(sender) && s.table.IsGuestIdAvailable(id) && s.table.IsHostIdAvailable(host)
    ensures Paid(s, s.ForwardNew(sender, id, interface, host), guest)
  {
    MapFresh(s.table.AdvanceHostCursor(host), id, host);
  }

  lemma NewFromDisplayPays(s: Session, id: u32, interface: Interface, host: u32, guest: u32)
    requires s.table.IsGuestIdAvailable(id) && s.table.IsHostIdAvailable(host)
    ensures Paid(s, s.DisplayNew(id, interface, host), guest)
  {
    MapFresh(s.table.AdvanceHostCursor(host), id, host);
  }

  lemma NewTextInputPays(s: Session, id: u32, host: u32, guest: u32)
    requires s.table.IsGuestIdAvailable(id) && s.table.IsHostIdAvailable(host)
    ensures Paid(s, s.TextInputNew(id, host), guest)
  {
    MapFresh(s.table.AdvanceHostCursor(host), id, host);
  }

  lemma ForwardDestroyPays(s: Session, sender: u32, guest: u32)
    requires s.Admits(sender) && sender in s.table.guestToHost && guest < GUEST_SERVER_ID_START
    ensures Paid(s, s.ForwardDestroy(sender), guest)
  {
  }

  lemma DeferBufferPays(s: Session, sender: u32, guest: u32)
    requires s.Admits(sender) && sender in s.table.guestToHost
    ensures Paid(s, s.DestroyBuffer(sender, true), guest)
  {
  }

  lemma CompleteBufferPays(s: Session, buffer: u32, guest: u32)
    requires buffer in s.table.guestToHost && guest < GUEST_SERVER_ID_START
    ensures Paid(s, s.CompleteBufferDestroy(buffer), guest)
  {
    RemovedIsUnknown(s.table, buffer, guest);
    hide s.table.RemoveId;
    var after := s.CompleteBufferDestroy(buffer);
    assert after.toGuest == s.toGuest;
    assert after.table == s.table.MarkPendingDestroy(buffer) || after.table == s.table
        || (after.table == s.table.RemoveId(buffer) && buffer != guest);
    hide s.CompleteBufferDestroy;
  }

  lemma RemovedIsUnknown(t: Table, guest: u32, other: u32)
    ensures t.RemoveId(guest).IsGuestKnown(other) <==> other != guest && t.IsGuestKnown(other)
  {
  }

  lemma LocalDestroyPays(s: Session, id: u32, guest: u32)
    requires s.Admits(id)
    ensures Paid(s, s.LocalDestroy(id), guest)
  {
  }

  lemma TextInputDestroyPays(s: Session, id: u32, guest: u32)
    requires s.Admits(id)
    ensures Paid(s, s.DestroyWithoutHostDestructor(id), guest)
  {
  }

  lemma AddPays(s: Session, params: u32, plane: Plane, duplicate: Option<Fd>, guest: u32)
    requires !s.OnAdd(params, plane, duplicate).fatal
    ensures Paid(s, s.OnAdd(params, plane, duplicate), guest)
  {
    AddFrame(s, params, plane, duplicate);
    hide s.OnAdd;
  }

  lemma CreatePays(s: Session, params: u32, request: BufferRequest, syncFds: Option<seq<Fd>>, guest: u32)
    requires params in s.table.guestToHost && !s.OnCreate(params, request, syncFds).fatal && !s.fatal
    ensures Paid(s, s.OnCreate(params, request, syncFds), guest)
  {
    CreateAccepted(s, params, request, syncFds);
    hide s.OnCreate;
  }

  lemma CreateImmedPays(s: Session, params: u32, buffer: u32, request: BufferRequest, host: u32,
      syncFds: Option<seq<Fd>>, guest: u32)
    requires params in s.table.guestToHost && s.table.IsHostIdAvailable(host)
    requires !s.OnCreateImmed(params, buffer, request, host, syncFds).fatal && !s.fatal
    ensures Paid(s, s.OnCreateImmed(params, buffer, request, host, syncFds), guest)
  {
    if params in s.pendingParams {
      CreateImmedAccepted(s, params, buffer, request, host, syncFds);
      MapFresh(s.table.AdvanceHostCursor(host), buffer, host);
    } else {
      CreateImmedIgnored(s, params, buffer, request, host, syncFds);
    }
    hide s.OnCreateImmed;
  }

  lemma RetiredIsUnknown(t: Table, guest: u32, other: u32)
    requires guest in t.guestToHost
    ensures t.RetireServerDestroyedObject(guest).IsGuestKnown(other) <==> other != guest && t.IsGuestKnown(other)
  {
  }

  lemma DonePays(s: Session, host: u32, data: u32, guest: u32)
    requires MapsOk(View(s))
    ensures Paid(s, s.OnDone(host, data), guest)
  {
    hide s.table.RetireServerDestroyedObject, s.table.IsEventSenderKnown, s.table.IsPendingDestroyHost;
    if s.table.IsEventSenderKnown(host) && !s.table.IsPendingDestroyHost(host)
       && host !in s.barriers && host in s.table.hostToGuest
    {
      var ended := s.table.hostToGuest[host];
      RetiredIsUnknown(s.table, ended, guest);
      assert s.OnDone(host, data).toGuest == s.toGuest + [Done(ended, data)] + [DeleteId(ended)];
    } else {
      BarrierIsQuiet(s, host, data);
      hide s.OnDone;
    }
  }

  lemma BarrierIsQuiet(s: Session, host: u32, data: u32)
    requires
      || !s.table.IsEventSenderKnown(host) || s.table.IsPendingDestroyHost(host)
      || host in s.barriers || host !in s.table.hostToGuest
    ensures var after := s.OnDone(host, data);
            && after.toGuest == s.toGuest
            && after.table.guestToHost == s.table.guestToHost && after.table.interfaces == s.table.interfaces
  {
  }

  /** `delete_id` either tells the guest nothing and forgets no guest number, or tells it of
      the one it forgets. */
  lemma DeleteIdTells(s: Session, host: u32, gone: u32, guest: u32)
    requires MapsOk(View(s)) && gone == if host in s.table.hostToGuest then s.table.hostToGuest[host] else 0
    ensures var after := s.OnDeleteId(host);
            || (after.toGuest == s.toGuest && after.table.IsGuestKnown(guest) == s.table.IsGuestKnown(guest))
            || (&& after.toGuest == s.toGuest + [DeleteId(gone)] && s.table.IsGuestKnown(gone)
                && after.table.IsGuestKnown(guest) == (s.table.IsGuestKnown(guest) && guest != gone))
  {
    RemovalsForget(s.table, gone, guest);
    BooksDoNotTalk(s, host);
    hide s.table.RemoveId, s.table.RemoveGuestMapping, s.RemoveNativeBuffer, s.CloseSync;
  }

  lemma DeleteIdPays(s: Session, host: u32, guest: u32)
    requires MapsOk(View(s))
    ensures Paid(s, s.OnDeleteId(host), guest)
  {
    var gone := if host in s.table.hostToGuest then s.table.hostToGuest[host] else 0;
    DeleteIdTells(s, host, gone, guest);
    Told(s, s.OnDeleteId(host), gone, guest);
    hide s.OnDeleteId, DeleteIds, s.table.IsGuestKnown;
  }

  lemma Told(s: Session, after: Session, id: u32, guest: u32)
    ensures after.toGuest == s.toGuest ==> DeleteIds(after, guest) == DeleteIds(s, guest)
    ensures after.toGuest == s.toGuest + [DeleteId(id)] ==>
              DeleteIds(after, guest) == DeleteIds(s, guest) + if guest == id then 1 else 0
  {
  }

  lemma RemovalsForget(t: Table, gone: u32, guest: u32)
    ensures t.RemoveId(gone).IsGuestKnown(guest) == (t.IsGuestKnown(guest) && guest != gone)
    ensures t.RemoveGuestMapping(gone).ClearPendingDestroyGuest(gone).IsGuestKnown(guest)
         == (t.IsGuestKnown(guest) && guest != gone)
  {
  }

  lemma BooksDoNotTalk(s: Session, host: u32)
    ensures s.RemoveNativeBuffer(host).toGuest == s.toGuest && s.RemoveNativeBuffer(host).table == s.table
    ensures s.RemoveNativeBuffer(host).CloseSync(host).toGuest == s.toGuest
    ensures s.RemoveNativeBuffer(host).CloseSync(host).table == s.table
    ensures s.CloseSync(host).toGuest == s.toGuest && s.CloseSync(host).table == s.table
  {
  }

  /** Everything a `created` for an orphan changes. */
  lemma OrphanAnnounced(s: Session, params: u32, buffer: u32, guestBuffer: u32)
    requires params in s.orphanedParams && params !in s.pendingCreates
    requires s.table.IsEventSenderKnown(params) && s.table.IsHostIdAvailable(buffer)
    ensures var after := s.OnCreated(params, buffer, guestBuffer);
            && after == s.(table := after.table, orphanedParams := s.orphanedParams - {params},
                           toHost := s.toHost + [DestroyObject(buffer)])
            && after.table.guestToHost == s.table.guestToHost && after.table.interfaces == s.table.interfaces
            && buffer in after.table.pendingDestroyHostIds
  {
  }

  /** Everything a `created` for a live create changes. */
  lemma LiveAnnounced(s: Session, params: u32, buffer: u32, guestBuffer: u32)
    requires params in s.pendingCreates && params !in s.orphanedParams
    requires params in s.table.hostToGuest && s.table.hostToGuest[params] == s.pendingCreates[params].guestParams
    requires s.table.hostToGuest[params] !in s.table.pendingDestroyGuestIds
    requires s.table.IsHostIdAvailable(buffer) && buffer !in s.nativeBuffers
    requires s.table.IsGuestServerIdFree(guestBuffer)
    ensures var after := s.OnCreated(params, buffer, guestBuffer);
            var pending := s.pendingCreates[params];
            && after == s.(table := after.table, pendingCreates := s.pendingCreates - {params},
                           nativeBuffers :=
                             s.nativeBuffers[buffer := NativeBuffer(pending.width, pending.height, pending.syncFds)],
                           toGuest := s.toGuest + [Created(pending.guestParams, guestBuffer)])
            && after.table.guestToHost == s.table.guestToHost[guestBuffer := buffer]
            && after.table.hostToGuest == s.table.hostToGuest[buffer := guestBuffer]
            && after.table.interfaces == s.table.interfaces[guestBuffer := WlBuffer]
  {
    MapFresh(s.table.AdvanceGuestServerCursor(guestBuffer), guestBuffer, buffer);
  }

  lemma CreatedPays(s: Session, h: Host, params: u32, buffer: u32, guestBuffer: u32, guest: u32)
    requires Good(View(s), h) && params in h.unanswered
    requires s.table.IsHostIdAvailable(buffer) && s.table.IsGuestServerIdFree(guestBuffer)
    ensures Paid(s, s.OnCreated(params, buffer, guestBuffer), guest)
  {
    hide s.OnCreated;
    AnnouncedIsNew(s, h, params, buffer);
    hide Good;
    if params in s.orphanedParams {
      OrphanAnnounced(s, params, buffer, guestBuffer);
    } else {
      LiveAnnounced(s, params, buffer, guestBuffer);
    }
  }

  lemma AnnouncedIsNew(s: Session, h: Host, params: u32, buffer: u32)
    requires Good(View(s), h) && params in h.unanswered && s.table.IsHostIdAvailable(buffer)
    ensures buffer !in s.nativeBuffers && s.table.IsEventSenderKnown(params) && params !in s.table.pendingDestroyHostIds
    ensures params in s.orphanedParams <==> params !in s.pendingCreates
    ensures params !in s.orphanedParams ==>
              && params in s.table.hostToGuest && s.table.hostToGuest[params] == s.pendingCreates[params].guestParams
              && s.table.hostToGuest[params] !in s.table.pendingDestroyGuestIds
  {
    UnansweredIs(s, h, params);
  }

  lemma FailedPays(s: Session, params: u32, guest: u32)
    ensures Paid(s, s.OnFailed(params), guest)
  {
    BooksDoNotTalk(s, params);
    hide s.CloseSync;
    ReleasedOrphanIsQuiet(s.CloseSync(params).(orphanedParams := s.orphanedParams - {params}), params, guest);
    hide s.CloseSync(params).ReleaseOrphan;
    assert s.OnFailed(params).toGuest == s.toGuest
           || (params in s.table.hostToGuest && s.OnFailed(params).toGuest == s.toGuest + [Failed(s.table.hostToGuest[params])]);
    hide s.OnFailed;
  }

  lemma ReleasedOrphanIsQuiet(s: Session, params: u32, guest: u32)
    ensures s.ReleaseOrphan(params).toGuest == s.toGuest
    ensures s.ReleaseOrphan(params).table.IsGuestKnown(guest) == s.table.IsGuestKnown(guest)
  {
  }

  lemma NewPays(w: World, e: Event, guest: u32)
    requires Inv(w) && Enabled(w, e) && !Handle(w.session, e).fatal
    requires e.NewForwarded? || e.NewFromDisplay? || e.NewTextInput? || e.NewLocal? || e.NewHostOnly?
    ensures Paid(w.session, Handle(w.session, e), guest)
  {
    var s := w.session;
    hide Inv, Paid;
    match e
    case NewForwarded(sender, id, interface, host) => NewForwardedPays(s, sender, id, interface, host, guest);
    case NewFromDisplay(id, interface, host) => NewFromDisplayPays(s, id, interface, host, guest);
    case NewTextInput(id, host) => NewTextInputPays(s, id, host, guest);
    case NewLocal(id, interface) => NewLocalPays(s, id, interface, guest);
    case NewHostOnly(interface, version, host) => HostOnlyPays(s, interface, version, host, guest);
  }

  lemma NewLocalPays(s: Session, id: u32, interface: Interface, guest: u32)
    ensures Paid(s, s.LocalNew(id, interface), guest)
  {
  }

  lemma HostOnlyPays(s: Session, interface: Interface, version: u32, host: u32, guest: u32)
    ensures Paid(s, s.BindHostOnly(interface, version, interface == WlCallback, host), guest)
    ensures Paid(s, s.DestroyHostOnly(host), guest)
    ensures Paid(s, s.RetireHostOnly(host), guest)
  {
  }

  lemma DestroyPays(w: World, e: Event, guest: u32)
    requires Inv(w) && Enabled(w, e) && !Handle(w.session, e).fatal && guest < GUEST_SERVER_ID_START
    requires e.DestroyForwarded? || e.DestroyBuffer? || e.RetireBuffer? || e.DestroyLocal?
             || e.DestroyTextInput? || e.DestroyHostOnly? || e.RetireHostOnly?
    ensures Paid(w.session, Handle(w.session, e), guest)
  {
    var s := w.session;
    hide Inv, Paid;
    match e
    case DestroyForwarded(sender) => ForwardDestroyPays(s, sender, guest);
    case DestroyBuffer(sender, deferred) =>
      if deferred {
        DeferBufferPays(s, sender, guest);
      } else {
        CompleteBufferPays(s, sender, guest);
      }
    case RetireBuffer(host) => CompleteBufferPays(s, s.table.hostToGuest[host], guest);
    case DestroyLocal(id) => LocalDestroyPays(s, id, guest);
    case DestroyTextInput(id) => TextInputDestroyPays(s, id, guest);
    case DestroyHostOnly(host) => HostOnlyPays(s, WlCallback, 1, host, guest);
    case RetireHostOnly(host) => HostOnlyPays(s, WlCallback, 1, host, guest);
  }

  lemma ParamsPays(w: World, e: Event, guest: u32)
    requires Inv(w) && Enabled(w, e) && !Handle(w.session, e).fatal
    requires e.Add? || e.Create? || e.CreateImmed?
    ensures Paid(w.session, Handle(w.session, e), guest)
  {
    var s := w.session;
    hide Inv, Paid, s.OnAdd, s.OnCreate, s.OnCreateImmed;
    match e
    case Add(params, plane, duplicate) => AddPays(s, params, plane, duplicate, guest);
    case Create(params, request, syncFds) => CreatePays(s, params, request, syncFds, guest);
    case CreateImmed(params, buffer, request, host, syncFds) =>
      CreateImmedPays(s, params, buffer, request, host, syncFds, guest);
  }

  lemma HostEventPays(w: World, e: Event, guest: u32)
    requires Inv(w) && Enabled(w, e) && !Handle(w.session, e).fatal
    requires e.CallbackDone? || e.HostDeleteId? || e.BufferAnnounced? || e.CreateFailed?
    ensures Paid(w.session, Handle(w.session, e), guest)
  {
    var s, h := w.session, w.host;
    hide Paid, s.OnDone, s.OnDeleteId, s.OnFailed;
    match e
    case CallbackDone(host, data) => DonePays(s, host, data, guest);
    case HostDeleteId(host) => DeleteIdPays(s, host, guest);
    case BufferAnnounced(params, buffer, guestBuffer) =>
      if !s.table.IsHostIdAvailable(buffer) {
        BadBufferIsFatal(s, h, params, buffer, guestBuffer);
      }
      CreatedPays(s, h, params, buffer, guestBuffer, guest);
    case CreateFailed(params) => FailedPays(s, params, guest);
  }

  /** A client-range guest number becomes free in exactly the steps that queue its
      `delete_id`, and each such step queues exactly one. */
  lemma StepPays(w: World, e: Event, guest: u32)
    requires Inv(w) && Enabled(w, e) && !Step(w, e).session.fatal && guest < GUEST_SERVER_ID_START
    ensures Paid(w.session, Step(w, e).session, guest)
  {
    assert Step(w, e).session == Handle(w.session, e);
    hide Inv, Enabled, Handle, Paid;
    if e.NewForwarded? || e.NewFromDisplay? || e.NewTextInput? || e.NewLocal? || e.NewHostOnly? {
      NewPays(w, e, guest);
    } else if e.Add? || e.Create? || e.CreateImmed? {
      ParamsPays(w, e, guest);
    } else if e.CallbackDone? || e.HostDeleteId? || e.BufferAnnounced? || e.CreateFailed? {
      HostEventPays(w, e, guest);
    } else {
      DestroyPays(w, e, guest);
    }
  }

  /** How many steps of the run give `guest` a new lifetime. */
  ghost function Births(w: World, es: seq<Event>, guest: u32): nat
    requires Legal(w, es)
    decreases |es|
  {
    if es == [] then 0
    else
      var v := Step(w, es[0]);
      (if !w.session.table.IsGuestKnown(guest) && v.session.table.IsGuestKnown(guest) then 1 else 0)
      + Births(v, es[1..], guest)
  }

  lemma LiveUntilEnd(w: World, es: seq<Event>)
    requires Legal(w, es) && !Run(w, es).session.fatal
    ensures !w.session.fatal
  {
  }

  /** Over every run that does not close the connection, each lifetime of a
      client-range number is answered by exactly one `delete_id`, and the number in
      use at the end, if any, is the one still owed. */
  lemma {:induction false} EveryLifetimePaidOnce(w: World, es: seq<Event>, guest: u32)
    requires Inv(w) && Legal(w, es) && !Run(w, es).session.fatal && guest < GUEST_SERVER_ID_START
    ensures var end := Run(w, es).session;
            DeleteIds(end, guest) - DeleteIds(w.session, guest) ==
              Births(w, es, guest) + (if w.session.table.IsGuestKnown(guest) then 1 else 0)
                                   - (if end.table.IsGuestKnown(guest) then 1 else 0)
    decreases |es|
  {
    hide Inv, Enabled, Step, DeleteIds;
    if es != [] {
      var v := Step(w, es[0]);
      StepKeepsInv(w, es[0]);
      LiveUntilEnd(v, es[1..]);
      StepPays(w, es[0], guest);
      EveryLifetimePaidOnce(v, es[1..], guest);
    }
  }
}

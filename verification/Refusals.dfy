/**
 Which requests end the connection, and what the guest is told, in terms of its own account.
 */
module Refusals {
  import opened Prelude
  import opened ShadowTables
  import opened DmabufParams
  import opened Sessions
  import opened Lifecycle
  import opened Protocol
  import opened ProtocolSteps
  import opened Guarantees
  import opened Conversations
  import opened Requests
  import G = Guests

  /** What is said to the guest about a refused request; `None` when it is not refused.
      A reason is given for linux-dmabuf requests on live objects only. */
  ghost function Refusal(g: G.Guest, e: Event): Option<seq<GuestMessage>> {
    match e
    case NewForwarded(sender, id, _, _) => if g.Alive(sender) && g.Unused(id) then None else Some([])
    case NewFromDisplay(id, _, _) => if g.Unused(id) then None else Some([])
    case NewTextInput(id, _) => if g.Unused(id) then None else Some([])
    case NewLocal(id, _) => if g.Unused(id) then None else Some([])
    case DestroyForwarded(x) => if g.Alive(x) then None else Some([])
    case DestroyBuffer(x, _) => if g.Alive(x) then None else Some([])
    case DestroyLocal(x) => if g.Alive(x) then None else Some([])
    case DestroyTextInput(x) => if g.Alive(x) then None else Some([])
    case Add(p, plane, _) =>
      if !g.Alive(p) then Some([])
      else if plane.fd < 0 then None
      else if p in g.used then Some([ProtocolError(p, 0)])
      else if plane.planeIdx > 1 then Some([ProtocolError(p, 1)])
      else if p in g.planes && exists k | 0 <= k < |g.planes[p]| :: g.planes[p][k].planeIdx == plane.planeIdx
      then Some([ProtocolError(p, 2)])
      else None
    case Create(p, request, syncFds) =>
      if g.Alive(p) then ImportRefusal(g, p, request, syncFds) else Some([])
    case CreateImmed(p, buffer, request, _, syncFds) =>
      if !g.Alive(p) || !g.Unused(buffer) then Some([])
      else if p in g.planes || p in g.used then ImportRefusal(g, p, request, syncFds)
      else None
    case _ => None
  }

  ghost function ImportRefusal(g: G.Guest, p: u32, request: BufferRequest, syncFds: Option<seq<Fd>>): Option<seq<GuestMessage>> {
    var planes := Lookup(g.planes, p);
    if p in g.used then Some([ProtocolError(p, 0)])
    else if !ValidParams(planes, request.width, request.height, request.format)
    then Some([ProtocolError(p, ParamsErrorCode(planes, request.width, request.height, request.format))])
    else if syncFds == None || syncFds == Some([]) then Some([])
    else None
  }

  /** An object whose create is unanswered has no planes left. */
  ghost predicate Tracks(s: Session, g: G.Guest) {
    forall host :: host in s.pendingCreates ==> s.pendingCreates[host].guestParams !in g.planes
  }

  ghost predicate Within(a: map<u32, PendingCreate>, b: map<u32, PendingCreate>) {
    forall host :: host in a ==> host in b && a[host] == b[host]
  }

  lemma ForwardingCreatesNothing(s: Session, sender: u32, id: u32, interface: Interface, host: u32)
    ensures s.ForwardNew(sender, id, interface, host).pendingCreates == s.pendingCreates
  {
    hide s.table.MapId, PlaneFds, s.Admits, s.table.IsGuestIdAvailable, s.table.HostObjectVersion;
  }

  lemma NewObjectsCreateNothing(s: Session, id: u32, interface: Interface, host: u32, version: u32, barrier: bool)
    ensures s.DisplayNew(id, interface, host).pendingCreates == s.pendingCreates
    ensures s.TextInputNew(id, host).pendingCreates == s.pendingCreates
    ensures s.LocalNew(id, interface).pendingCreates == s.pendingCreates
    ensures s.BindHostOnly(interface, version, barrier, host).pendingCreates == s.pendingCreates
  {
    hide s.table.MapId;
  }

  /** Either nothing is gone, or the one create. */
  ghost predicate Without(s: Session, after: Session, host: u32) {
    after.pendingCreates == s.pendingCreates || after.pendingCreates == s.pendingCreates - {host}
  }

  lemma WithoutIsWithin(s: Session, after: Session, host: u32)
    requires Without(s, after, host)
    ensures Within(after.pendingCreates, s.pendingCreates)
  {
  }

  lemma ResourcesCreateNothing(s: Session, host: u32)
    ensures Without(s, s.CloseSync(host), host)
    ensures s.RemoveNativeBuffer(host).pendingCreates == s.pendingCreates
    ensures Without(s, s.RemoveNativeBuffer(host).CloseSync(host), host)
    ensures s.DiscardPlanes(host).pendingCreates == s.pendingCreates
  {
    hide PlaneFds;
  }

  lemma OrphaningCreatesNothing(s: Session, x: u32)
    requires x in s.table.guestToHost
    ensures Without(s, s.OnParamsDestroy(x), s.table.guestToHost[x])
  {
    hide PlaneFds;
  }

  lemma DestructorsCreateNothing(s: Session, x: u32)
    requires x in s.table.guestToHost
    ensures Without(s, s.ForwardDestroy(x), s.table.guestToHost[x])
  {
    hide s.OnParamsDestroy, s.table.RemoveId, s.table.MarkPendingDestroy;
    OrphaningCreatesNothing(s, x);
  }

  lemma BuffersCreateNothing(s: Session, x: u32, deferred: bool)
    requires x in s.table.guestToHost
    ensures s.DestroyBuffer(x, deferred).pendingCreates == s.pendingCreates
    ensures s.CompleteBufferDestroy(x).pendingCreates == s.pendingCreates
  {
    hide s.CompleteBufferDestroy, s.table.RetireGuestObject;
    CompletingCreatesNothing(s, x);
  }

  lemma CompletingCreatesNothing(s: Session, x: u32)
    requires x in s.table.guestToHost
    ensures s.CompleteBufferDestroy(x).pendingCreates == s.pendingCreates
  {
    hide s.table.RemoveId, s.table.MarkPendingDestroy, s.RemoveNativeBuffer;
    var host := s.table.guestToHost[x];
    ResourcesCreateNothing(s.(toHost := s.toHost + [DestroyObject(host)], deferredBuffers := s.deferredBuffers - {host}), host);
  }

  lemma QuietDestructorsCreateNothing(s: Session, x: u32)
    ensures s.LocalDestroy(x).pendingCreates == s.pendingCreates
    ensures s.DestroyWithoutHostDestructor(x).pendingCreates == s.pendingCreates
    ensures s.DestroyHostOnly(x).pendingCreates == s.pendingCreates
    ensures s.RetireHostOnly(x).pendingCreates == s.pendingCreates
  {
    hide s.table.RemoveId, s.table.RemoveGuestMapping, s.table.MarkPendingDestroyHost;
  }

  lemma DoneCreatesNothing(s: Session, host: u32, data: u32)
    ensures s.OnDone(host, data).pendingCreates == s.pendingCreates
  {
    hide s.table.RetireServerDestroyedObject, s.table.MarkPendingDestroyHost;
  }

  lemma DeleteIdCreatesNothing(s: Session, host: u32)
    ensures Without(s, s.OnDeleteId(host), host)
  {
    hide s.table.RemoveId, s.table.RemoveGuestMapping, s.RemoveNativeBuffer, s.CloseSync;
    ResourcesCreateNothing(s, host);
  }

  lemma FailingCreatesNothing(s: Session, params: u32)
    ensures Without(s, s.OnFailed(params), params)
  {
    hide s.table.RemoveHostInterface, s.CloseSync;
    ResourcesCreateNothing(s, params);
  }

  lemma ExposingCreatesNothing(s: Session, params: u32, buffer: u32, id: u32)
    ensures s.ExposeBuffer(params, buffer, id).pendingCreates == s.pendingCreates
    ensures Without(s, s.DiscardHostBuffer(params, buffer), params)
    ensures s.ReleaseOrphan(params).pendingCreates == s.pendingCreates
  {
    hide s.table.MapId, s.CloseSync, s.table.RemoveHostInterface;
    ResourcesCreateNothing(s, params);
  }

  lemma AnnouncingCreatesNothing(s: Session, params: u32, buffer: u32, id: u32)
    ensures Without(s, s.OnCreated(params, buffer, id), params)
  {
    hide s.ExposeBuffer, s.DiscardHostBuffer, s.ReleaseOrphan, s.CloseSync, s.table.IsHostIdAvailable;
    ResourcesCreateNothing(s, params);
    ExposingCreatesNothing(s, params, buffer, id);
    ExposingCreatesNothing(s.DiscardHostBuffer(params, buffer), params, buffer, id);
    ExposingCreatesNothing(s.CloseSync(params), params, buffer, id);
    if params in s.pendingCreates {
      var pending := s.pendingCreates[params];
      ExposingCreatesNothing(
        s.(pendingCreates := s.pendingCreates - {params},
           nativeBuffers := s.nativeBuffers[buffer := NativeBuffer(pending.width, pending.height, pending.syncFds)]),
        params, buffer, id);
    }
  }

  lemma ImportsCreateNothing(s: Session, params: u32, buffer: u32, request: BufferRequest, host: u32, syncFds: Option<seq<Fd>>)
    requires params in s.table.guestToHost && !s.fatal
    requires !s.OnCreateImmed(params, buffer, request, host, syncFds).fatal
    ensures s.OnCreateImmed(params, buffer, request, host, syncFds).pendingCreates == s.pendingCreates
  {
    hide s.OnCreateImmed;
    if params in s.pendingParams {
      CreateImmedAccepted(s, params, buffer, request, host, syncFds);
    } else {
      CreateImmedIgnored(s, params, buffer, request, host, syncFds);
    }
  }

  lemma AddingCreatesNothing(s: Session, params: u32, plane: Plane, duplicate: Option<Fd>)
    ensures s.OnAdd(params, plane, duplicate).pendingCreates == s.pendingCreates
  {
    hide s.OnAdd;
    AddFrame(s, params, plane, duplicate);
  }

  lemma RequestsCreateNothing(w: World, e: Event)
    requires Enabled(w, e) && !Step(w, e).session.fatal
    requires e.NewForwarded? || e.NewFromDisplay? || e.NewTextInput? || e.NewLocal? || e.NewHostOnly?
             || e.DestroyLocal? || e.DestroyTextInput? || e.DestroyHostOnly? || e.RetireHostOnly?
    ensures Step(w, e).session.pendingCreates == w.session.pendingCreates
  {
    var s := w.session;
    hide s.ForwardNew, s.DisplayNew, s.TextInputNew, s.LocalNew, s.BindHostOnly, s.LocalDestroy,
         s.DestroyWithoutHostDestructor, s.DestroyHostOnly, s.RetireHostOnly;
    match e
    case NewForwarded(sender, id, interface, host) => ForwardingCreatesNothing(s, sender, id, interface, host);
    case NewFromDisplay(id, interface, host) => NewObjectsCreateNothing(s, id, interface, host, 0, false);
    case NewTextInput(id, host) => NewObjectsCreateNothing(s, id, WlDisplay, host, 0, false);
    case NewLocal(id, interface) => NewObjectsCreateNothing(s, id, interface, 0, 0, false);
    case NewHostOnly(interface, version, host) =>
      NewObjectsCreateNothing(s, 0, interface, host, version, interface == WlCallback);
    case DestroyLocal(x) => QuietDestructorsCreateNothing(s, x);
    case DestroyTextInput(x) => QuietDestructorsCreateNothing(s, x);
    case DestroyHostOnly(host) => QuietDestructorsCreateNothing(s, host);
    case RetireHostOnly(host) => QuietDestructorsCreateNothing(s, host);
  }

  /** Only `create` adds an unanswered create. */
  lemma CreatesShrink(w: World, e: Event)
    requires Enabled(w, e) && !Step(w, e).session.fatal && !e.Create?
    ensures Within(Step(w, e).session.pendingCreates, w.session.pendingCreates)
  {
    var s, after := w.session, Step(w, e).session;
    hide s.ForwardDestroy, s.DestroyBuffer, s.CompleteBufferDestroy, s.OnAdd, s.OnCreateImmed, s.OnDone, s.OnDeleteId,
         s.OnFailed, s.OnCreated, Without;
    match e
    case DestroyForwarded(x) =>
      DestructorsCreateNothing(s, x);
      WithoutIsWithin(s, after, s.table.guestToHost[x]);
    case DestroyBuffer(x, deferred) => BuffersCreateNothing(s, x, deferred);
    case RetireBuffer(host) => BuffersCreateNothing(s, s.table.hostToGuest[host], false);
    case Add(params, plane, duplicate) => AddingCreatesNothing(s, params, plane, duplicate);
    case CreateImmed(params, buffer, request, host, syncFds) =>
      ImportsCreateNothing(s, params, buffer, request, host, syncFds);
    case CallbackDone(host, data) => DoneCreatesNothing(s, host, data);
    case HostDeleteId(host) =>
      DeleteIdCreatesNothing(s, host);
      WithoutIsWithin(s, after, host);
    case BufferAnnounced(params, buffer, id) =>
      AnnouncingCreatesNothing(s, params, buffer, id);
      WithoutIsWithin(s, after, params);
    case CreateFailed(params) =>
      FailingCreatesNothing(s, params);
      WithoutIsWithin(s, after, params);
    case _ => RequestsCreateNothing(w, e);
  }

  // ---- an unanswered create keeps its object used ----

  /** `create` moves its object from the one side to the other. */
  lemma CreateTracks(s: Session, g: G.Guest, params: u32, request: BufferRequest, syncFds: Option<seq<Fd>>)
    requires params in s.table.guestToHost && !s.fatal && !s.OnCreate(params, request, syncFds).fatal
    requires Tracks(s, g)
    ensures Tracks(s.OnCreate(params, request, syncFds), g.Consumes(params))
  {
    hide s.OnCreate, s.Admits, AddPlanes;
    CreateAccepted(s, params, request, syncFds);
  }

  lemma WithinTracks(s: Session, after: Session, g: G.Guest, f: G.Guest)
    requires Tracks(s, g) && Within(after.pendingCreates, s.pendingCreates)
    requires forall p :: p in f.planes ==> p in g.planes || !s.table.IsGuestKnown(p)
    requires forall host :: host in s.pendingCreates ==> s.table.IsGuestKnown(s.pendingCreates[host].guestParams)
    ensures Tracks(after, f)
  {
  }

  lemma CreatorsAreKnown(s: Session, h: Host)
    requires Good(View(s), h)
    ensures forall host :: host in s.pendingCreates ==> s.table.IsGuestKnown(s.pendingCreates[host].guestParams)
  {
  }

  lemma AskingStartsKnown(w: World, g: G.Guest, e: Event)
    requires Enabled(w, e) && !Step(w, e).session.fatal
    ensures forall p :: p in G.Asks(g, e).planes ==> p in g.planes || !w.session.table.IsGuestKnown(p)
  {
    var s := w.session;
    hide s.OnAdd, s.OnCreate, s.OnDone, s.OnDeleteId, s.OnCreated, s.OnFailed, s.ForwardDestroy, s.DestroyBuffer,
         s.CompleteBufferDestroy, s.LocalDestroy, s.DestroyWithoutHostDestructor, s.OnCreateImmed, HostMay, ProxyMay;
  }

  lemma TracksPlanes(s: Session, g: G.Guest, f: G.Guest)
    requires Tracks(s, g) && f.planes == g.planes
    ensures Tracks(s, f)
  {
  }

  lemma StepTracks(w: World, g: G.Guest, e: Event)
    requires Inv(w) && Enabled(w, e) && Tracks(w.session, g) && !Step(w, e).session.fatal
    ensures Tracks(Step(w, e).session, Listens(g, e, w.session, Step(w, e).session))
  {
    hide Good, Enabled, Tracks, G.Asks, G.HearsAll, Within;
    var s, after := w.session, Step(w, e).session;
    EnabledIsLive(w, e);
    if e.Create? {
      CreateIs(w, g, e);
      CreateTracks(s, g, e.params, e.request, e.syncFds);
    } else {
      CreatesShrink(w, e);
      CreatorsAreKnown(s, w.host);
      AskingStartsKnown(w, g, e);
      WithinTracks(s, after, g, G.Asks(g, e));
    }
    var said := if |s.toGuest| <= |after.toGuest| then after.toGuest[|s.toGuest|..] else [];
    HearingKeepsPlanes(G.Asks(g, e), e, said);
    TracksPlanes(after, G.Asks(g, e), G.HearsAll(G.Asks(g, e), e, said));
  }

  lemma CreateIs(w: World, g: G.Guest, e: Event)
    requires Enabled(w, e) && e.Create?
    ensures e.params in w.session.table.guestToHost && G.Asks(g, e) == g.Consumes(e.params)
    ensures Step(w, e).session == w.session.OnCreate(e.params, e.request, e.syncFds)
  {
    hide w.session.OnCreate;
  }

  lemma {:induction false} RunTracks(w: World, g: G.Guest, es: seq<Event>)
    requires Inv(w) && Tracks(w.session, g) && Legal(w, es) && !Run(w, es).session.fatal
    ensures Tracks(Run(w, es).session, Account(w, g, es))
    decreases |es|
  {
    hide Inv, Enabled, Step, Tracks, Listens;
    if es == [] {
    } else {
      LiveUntilEnd(Step(w, es[0]), es[1..]);
      StepKeepsInv(w, es[0]);
      StepTracks(w, g, es[0]);
      RunTracks(Step(w, es[0]), Listens(g, es[0], w.session, Step(w, es[0]).session), es[1..]);
    }
  }

  // ---- which requests are refused ----

  lemma AliveIs(i: Ids, h: Host, g: G.Guest, x: u32)
    requires Good(i, h) && G.NumbersAgree(i, g)
    ensures g.Alive(x) <==> x !in i.pendingGuest
                            && (x in i.guestToHost || (x in i.interfaces && i.interfaces[x] in SERVED_LOCALLY))
  {
  }

  lemma ServedLocallyIs(interface: Interface)
    ensures interface.IsLocalOnly() <==> interface in SERVED_LOCALLY
  {
  }

  lemma AdmitsIff(s: Session, h: Host, g: G.Guest, x: u32)
    requires Good(View(s), h) && G.NumbersAgree(View(s), g)
    ensures s.Admits(x) <==> g.Alive(x)
  {
    hide Good, G.NumbersAgree;
    AliveIs(View(s), h, g, x);
    if x in s.table.interfaces {
      ServedLocallyIs(s.table.interfaces[x]);
    }
  }

  lemma UnusedIff(s: Session, h: Host, g: G.Guest, id: u32)
    requires Good(View(s), h) && G.NumbersAgree(View(s), g)
    ensures s.table.IsGuestIdAvailable(id) <==> g.Unused(id)
  {
  }

  /** The step refuses exactly when the account says so, and says what it says. */
  ghost predicate Refuses(s: Session, after: Session, g: G.Guest, e: Event) {
    && (after.fatal <==> Refusal(g, e).Some?)
    && (after.fatal ==> after.toHost == s.toHost && after.toGuest == s.toGuest + Refusal(g, e).value)
  }

  lemma NewRefused(w: World, g: G.Guest, e: Event)
    requires Inv(w) && Enabled(w, e) && G.Agrees(w.session, g)
    requires e.NewForwarded? || e.NewFromDisplay? || e.NewTextInput? || e.NewLocal? || e.NewHostOnly?
    ensures Refuses(w.session, Step(w, e).session, g, e)
  {
    var s, h := w.session, w.host;
    hide Good, G.NumbersAgree, G.PlanesAgree, s.table.MapId, s.Admits, s.table.IsGuestIdAvailable;
    if !e.NewHostOnly? {
      UnusedIff(s, h, g, e.id);
    }
    if e.NewForwarded? {
      AdmitsIff(s, h, g, e.sender);
    }
  }

  lemma CompletingIsQuiet(s: Session, h: Host, x: u32)
    requires Good(View(s), h) && !s.fatal && x in s.table.guestToHost && x != 1
    requires s.table.GuestObjectMatches(x, WlBuffer) || s.table.guestToHost[x] in s.deferredBuffers
    ensures !s.CompleteBufferDestroy(x).fatal
  {
    hide Good;
    BufferIs(View(s), h, x);
    hide s.table.RemoveId, s.table.MarkPendingDestroy;
  }

  lemma ForwardedDestroyIsQuiet(s: Session, x: u32)
    requires x in s.table.guestToHost
    ensures s.Admits(x) ==> s.ForwardDestroy(x).fatal == s.fatal
    ensures !s.Admits(x) ==> s.ForwardDestroy(x) == s.Reject()
  {
    hide s.Admits, s.table.RemoveId, s.table.MarkPendingDestroy, PlaneFds;
  }

  lemma DestructorRefused(w: World, g: G.Guest, e: Event)
    requires Inv(w) && Enabled(w, e) && G.Agrees(w.session, g)
    requires e.DestroyForwarded? || e.DestroyBuffer?
    ensures Refuses(w.session, Step(w, e).session, g, e)
  {
    var s, h := w.session, w.host;
    hide Good, G.NumbersAgree, G.PlanesAgree, s.Admits, s.ForwardDestroy, s.CompleteBufferDestroy;
    AdmitsIff(s, h, g, e.sender);
    if e.DestroyForwarded? {
      ForwardedDestroyIsQuiet(s, e.sender);
    } else if s.Admits(e.sender) && !e.deferred {
      DisplayIsNotABuffer(s, h, e.sender);
      CompletingIsQuiet(s, h, e.sender);
    }
  }

  lemma OthersRefused(w: World, g: G.Guest, e: Event)
    requires Inv(w) && Enabled(w, e) && G.Agrees(w.session, g)
    requires e.RetireBuffer? || e.DestroyLocal? || e.DestroyTextInput? || e.DestroyHostOnly? || e.RetireHostOnly?
    ensures Refuses(w.session, Step(w, e).session, g, e)
  {
    var s, h := w.session, w.host;
    hide Good, G.NumbersAgree, G.PlanesAgree, s.Admits, s.CompleteBufferDestroy;
    match e
    case RetireBuffer(host) =>
      DisplayIsNotABuffer(s, h, s.table.hostToGuest[host]);
      HostNamesGuest(s, h, host);
      CompletingIsQuiet(s, h, s.table.hostToGuest[host]);
    case DestroyLocal(x) => AdmitsIff(s, h, g, x);
    case DestroyTextInput(x) => AdmitsIff(s, h, g, x);
    case _ =>
  }

  lemma AddRefused(w: World, g: G.Guest, e: Event)
    requires Inv(w) && Enabled(w, e) && G.Agrees(w.session, g) && e.Add?
    ensures Refuses(w.session, Step(w, e).session, g, e)
  {
    var s, h := w.session, w.host;
    hide Good, G.NumbersAgree, G.PlanesAgree, s.Admits;
    AdmitsIff(s, h, g, e.params);
    PlanesAre(s, g);
  }

  lemma NotAwaited(s: Session, h: Host, g: G.Guest, params: u32)
    requires Good(View(s), h) && Tracks(s, g) && params in g.planes && params in s.table.guestToHost
    ensures s.table.guestToHost[params] !in s.pendingCreates
  {
  }

  /** A request on a live params object: used already, faulty, not to be duplicated, or taken. */
  ghost predicate AnswersImport(s: Session, after: Session, params: u32, request: BufferRequest, syncFds: Option<seq<Fd>>) {
    var planes := Lookup(s.pendingParams, params);
    var code := ParamsErrorCode(planes, request.width, request.height, request.format);
    if params in s.usedParams then after == s.Report(params, 0)
    else if !ValidParams(planes, request.width, request.height, request.format)
    then after.fatal && after.toHost == s.toHost && after.toGuest == s.toGuest + [ProtocolError(params, code)]
    else && (after.fatal <==> syncFds == None || syncFds == Some([]))
         && (after.fatal ==> after.toHost == s.toHost && after.toGuest == s.toGuest)
  }

  lemma CreateRefusedIff(s: Session, params: u32, request: BufferRequest, syncFds: Option<seq<Fd>>)
    requires params in s.table.guestToHost && !s.fatal && s.Admits(params)
    requires params in s.pendingParams ==> s.table.guestToHost[params] !in s.pendingCreates
    ensures AnswersImport(s, s.OnCreate(params, request, syncFds), params, request, syncFds)
  {
    hide s.Admits, ValidParams, ParamsErrorCode, AddPlanes, PlaneFds;
    ValidIsPresent(Lookup(s.pendingParams, params), request.width, request.height, request.format);
  }

  lemma ValidIsPresent(planes: Option<seq<Plane>>, width: i32, height: i32, format: u32)
    ensures ValidParams(planes, width, height, format) ==> planes.Some?
  {
  }

  lemma CreateRefused(w: World, g: G.Guest, e: Event)
    requires Inv(w) && Enabled(w, e) && G.Agrees(w.session, g) && Tracks(w.session, g) && e.Create?
    ensures Refuses(w.session, Step(w, e).session, g, e)
  {
    var s, h := w.session, w.host;
    hide Good, G.NumbersAgree, G.PlanesAgree, Tracks, s.Admits, ValidParams, ParamsErrorCode, s.OnCreate;
    AdmitsIff(s, h, g, e.params);
    PlanesAre(s, g);
    if !s.Admits(e.params) {
      CreateUnadmitted(s, e.params, e.request, e.syncFds);
    } else {
      if e.params in s.pendingParams {
        NotAwaited(s, h, g, e.params);
      }
      CreateRefusedIff(s, e.params, e.request, e.syncFds);
    }
  }

  lemma CreateUnadmitted(s: Session, params: u32, request: BufferRequest, syncFds: Option<seq<Fd>>)
    requires params in s.table.guestToHost && !s.Admits(params)
    ensures s.OnCreate(params, request, syncFds) == s.Reject()
  {
  }

  lemma CreateImmedUnadmitted(s: Session, params: u32, buffer: u32, request: BufferRequest, host: u32, syncFds: Option<seq<Fd>>)
    requires params in s.table.guestToHost && (!s.Admits(params) || !s.table.IsGuestIdAvailable(buffer))
    ensures s.OnCreateImmed(params, buffer, request, host, syncFds) == s.Reject()
  {
    hide s.table.IsGuestIdAvailable;
  }

  lemma CreateImmedRefusedIff(s: Session, params: u32, buffer: u32, request: BufferRequest, host: u32, syncFds: Option<seq<Fd>>)
    requires params in s.table.guestToHost && !s.fatal && s.Admits(params) && s.table.IsGuestIdAvailable(buffer)
    requires host !in s.nativeBuffers && (params in s.pendingParams || params in s.usedParams)
    requires s.table.IsHostIdAvailable(host)
    ensures AnswersImport(s, s.OnCreateImmed(params, buffer, request, host, syncFds), params, request, syncFds)
  {
    hide s.Admits, ValidParams, ParamsErrorCode, AddPlanes, PlaneFds, s.table.RemoveId,
         s.table.GuestObjectVersion;
  }

  lemma AvailableIsNotNative(s: Session, h: Host, host: u32)
    requires Good(View(s), h) && s.table.IsHostIdAvailable(host)
    ensures host !in s.nativeBuffers
  {
  }

  lemma CreateImmedUntracked(s: Session, params: u32, buffer: u32, request: BufferRequest, host: u32, syncFds: Option<seq<Fd>>)
    requires params in s.table.guestToHost && s.Admits(params) && s.table.IsGuestIdAvailable(buffer)
    requires params !in s.pendingParams && params !in s.usedParams
    ensures s.OnCreateImmed(params, buffer, request, host, syncFds) == s
  {
  }

  lemma CreateImmedRefused(w: World, g: G.Guest, e: Event)
    requires Inv(w) && Enabled(w, e) && G.Agrees(w.session, g) && e.CreateImmed?
    ensures Refuses(w.session, Step(w, e).session, g, e)
  {
    var s, h := w.session, w.host;
    hide Good, G.NumbersAgree, G.PlanesAgree, s.Admits, ValidParams, ParamsErrorCode, s.OnCreateImmed,
         s.table.IsGuestIdAvailable;
    AdmitsIff(s, h, g, e.params);
    UnusedIff(s, h, g, e.buffer);
    PlanesAre(s, g);
    if !s.Admits(e.params) || !s.table.IsGuestIdAvailable(e.buffer) {
      CreateImmedUnadmitted(s, e.params, e.buffer, e.request, e.host, e.syncFds);
    } else if e.params !in s.pendingParams && e.params !in s.usedParams {
      CreateImmedUntracked(s, e.params, e.buffer, e.request, e.host, e.syncFds);
    } else {
      AvailableIsNotNative(s, h, e.host);
      CreateImmedRefusedIff(s, e.params, e.buffer, e.request, e.host, e.syncFds);
    }
  }

  lemma DoneIsHarmless(s: Session, host: u32, data: u32)
    ensures s.OnDone(host, data).fatal == s.fatal
  {
    hide s.table.RetireServerDestroyedObject, s.table.MarkPendingDestroyHost;
  }

  lemma DeleteIdIsHarmless(s: Session, host: u32)
    ensures s.OnDeleteId(host).fatal == s.fatal
  {
    hide s.table.RemoveId, s.table.RemoveGuestMapping, s.table.ClearPendingDestroyGuest, s.RemoveNativeBuffer, s.CloseSync;
    ResourcesAreHarmless(s, host);
  }

  lemma ResourcesAreHarmless(s: Session, host: u32)
    ensures s.CloseSync(host).fatal == s.fatal && s.RemoveNativeBuffer(host).CloseSync(host).fatal == s.fatal
    ensures s.RemoveNativeBuffer(host).fatal == s.fatal
  {
  }

  lemma FailedIsHarmless(s: Session, h: Host, params: u32)
    requires Good(View(s), h) && params in h.unanswered
    ensures s.OnFailed(params).fatal == s.fatal
  {
    hide Good, MapsOk, NamesOk, RecordsOk, CreatesOk, HostOk, s.CloseSync, s.table.RemoveHostInterface;
    GoodParts(View(s), h);
    UnansweredIs(s, h, params);
    ResourcesAreHarmless(s, params);
  }

  /** A guest's request ends the connection exactly when its own account refuses it, and the
      guest is then told what the account says; nothing else does, but for a buffer announced
      under a number in use. */
  lemma RefusedIff(w: World, g: G.Guest, e: Event)
    requires Inv(w) && Enabled(w, e) && G.Agrees(w.session, g) && Tracks(w.session, g) && !e.BufferAnnounced?
    ensures Refuses(w.session, Step(w, e).session, g, e)
  {
    hide Inv, Enabled, Step, G.Agrees, Tracks, Refuses;
    if e.NewForwarded? || e.NewFromDisplay? || e.NewTextInput? || e.NewLocal? || e.NewHostOnly? {
      NewRefused(w, g, e);
    } else if e.DestroyForwarded? || e.DestroyBuffer? {
      DestructorRefused(w, g, e);
    } else if e.Add? {
      AddRefused(w, g, e);
    } else if e.Create? {
      CreateRefused(w, g, e);
    } else if e.CreateImmed? {
      CreateImmedRefused(w, g, e);
    } else if e.CallbackDone? || e.HostDeleteId? || e.CreateFailed? {
      EventsNotRefused(w, g, e);
    } else {
      OthersRefused(w, g, e);
    }
  }

  lemma EventsNotRefused(w: World, g: G.Guest, e: Event)
    requires Inv(w) && Enabled(w, e) && (e.CallbackDone? || e.HostDeleteId? || e.CreateFailed?)
    ensures Refuses(w.session, Step(w, e).session, g, e)
  {
    var s, h := w.session, w.host;
    hide Good, s.OnDone, s.OnDeleteId, s.OnFailed;
    match e
    case CallbackDone(host, data) => DoneIsHarmless(s, host, data);
    case HostDeleteId(host) => DeleteIdIsHarmless(s, host);
    case CreateFailed(params) => FailedIsHarmless(s, h, params);
  }

  /** The same after any run: the guest can tell beforehand, from what it has sent and heard. */
  lemma EveryRequestRefusedIff(es: seq<Event>, e: Event)
    requires Legal(BEGIN, es) && Enabled(Run(BEGIN, es), e) && !e.BufferAnnounced?
    ensures var w := Run(BEGIN, es);
            Refuses(w.session, Step(w, e).session, Account(BEGIN, G.BEGIN_GUEST, es), e)
  {
    hide Inv, Enabled, Step, G.Agrees, Refuses;
    EnabledIsLive(Run(BEGIN, es), e);
    BeginInv();
    G.BeginAgrees();
    RunAgrees(BEGIN, G.BEGIN_GUEST, es);
    RunTracks(BEGIN, G.BEGIN_GUEST, es);
    RefusedIff(Run(BEGIN, es), Account(BEGIN, G.BEGIN_GUEST, es), e);
  }

  /** A destructor the guest sends for an object it has alive is always passed on, once, under
      the object's host number, and the host then waits to delete that number. */
  lemma DestructorIsPassedOn(es: seq<Event>, x: u32)
    requires Legal(BEGIN, es) && Enabled(Run(BEGIN, es), DestroyForwarded(x))
    requires Account(BEGIN, G.BEGIN_GUEST, es).Alive(x)
    ensures var w, g := Run(BEGIN, es), Account(BEGIN, G.BEGIN_GUEST, es);
            var v := Step(w, DestroyForwarded(x));
            && !v.session.fatal && x in g.objects && g.objects[x].partner.Some?
            && Sent(w.session.toHost, v.session.toHost) == [DestroyObject(g.objects[x].partner.value)]
            && g.objects[x].partner.value in v.host.dying
  {
    var w, g := Run(BEGIN, es), Account(BEGIN, G.BEGIN_GUEST, es);
    hide Inv, Enabled, G.Agrees, Step, TellsGuest;
    EveryRequestRefusedIff(es, DestroyForwarded(x));
    EveryStepSays(es, DestroyForwarded(x));
    EnabledIsLive(w, DestroyForwarded(x));
    BeginInv();
    G.BeginAgrees();
    RunAgrees(BEGIN, G.BEGIN_GUEST, es);
    PassedOnIsDying(w, g, x);
  }

  lemma PassedOnIsDying(w: World, g: G.Guest, x: u32)
    requires Inv(w) && Enabled(w, DestroyForwarded(x)) && G.Agrees(w.session, g) && x in g.objects && x !in g.ended
    requires g.objects[x].partner.Some?
    requires var v := Step(w, DestroyForwarded(x));
             !v.session.fatal && Sent(w.session.toHost, v.session.toHost) == [DestroyObject(g.objects[x].partner.value)]
    ensures g.objects[x].partner.value in Step(w, DestroyForwarded(x)).host.dying
  {
    hide Good, Enabled, Step, HearsAll, G.NumbersAgree, G.PlanesAgree;
    var host := g.objects[x].partner.value;
    LiveIs(View(w.session), g, x);
    DestructorIs(w, x);
    PlainObjectIs(View(w.session), w.host, x);
    HostHears(w, x);
    HearsOne(w.host, [], DestroyObject(host));
    assert Sent([], [] + [DestroyObject(host)]) == [DestroyObject(host)];
  }

  lemma DestructorIs(w: World, x: u32)
    requires Enabled(w, DestroyForwarded(x))
    ensures !w.session.fatal && x != 1 && !w.session.table.GuestObjectMatches(x, WlBuffer)
  {
  }

  lemma HostHears(w: World, x: u32)
    requires Enabled(w, DestroyForwarded(x))
    ensures var v := Step(w, DestroyForwarded(x)); v.host == HearsAll(w.host, Sent(w.session.toHost, v.session.toHost))
  {
    hide w.session.ForwardDestroy, HearsAll;
  }

  lemma LiveIs(i: Ids, g: G.Guest, x: u32)
    requires G.NumbersAgree(i, g) && x in g.objects && x !in g.ended && g.objects[x].partner.Some?
    ensures x in i.guestToHost && i.guestToHost[x] == g.objects[x].partner.value && x !in i.pendingGuest
  {
  }
}

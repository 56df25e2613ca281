/**
 Whole runs in terms of the guest's account: what is said at each step, which planes an
 import carries, and which requests end the connection.
 */
module Requests {
  import opened Prelude
  import opened ShadowTables
  import opened DmabufParams
  import opened Sessions
  import opened Lifecycle
  import opened Protocol
  import opened ProtocolSteps
  import opened Guarantees
  import opened Conversations
  import A = AsyncCreates
  import G = Guests

  // ---- what is said over a run ----

  ghost function Account(w: World, g: G.Guest, es: seq<Event>): G.Guest
    requires Legal(w, es)
    decreases |es|
  {
    if es == [] then g
    else Account(Step(w, es[0]), Listens(g, es[0], w.session, Step(w, es[0]).session), es[1..])
  }

  lemma EnabledIsLive(w: World, e: Event)
    requires Enabled(w, e)
    ensures !w.session.fatal
  {
  }

  lemma {:induction false} RunAgrees(w: World, g: G.Guest, es: seq<Event>)
    requires Inv(w) && G.Agrees(w.session, g) && Legal(w, es) && !Run(w, es).session.fatal
    ensures Inv(Run(w, es)) && G.Agrees(Run(w, es).session, Account(w, g, es))
    decreases |es|
  {
    hide Inv, Enabled, Step, G.Agrees, Listens;
    if es == [] {
    } else {
      var v := Step(w, es[0]);
      LiveUntilEnd(v, es[1..]);
      StepAccounts(w, g, es[0]);
      assert G.Agrees(v.session, Listens(g, es[0], w.session, v.session));
      StepKeepsInv(w, es[0]);
      RunAgrees(v, Listens(g, es[0], w.session, v.session), es[1..]);
    }
  }

  /** After any run, a step that does not end the connection says to both sides what the
      guest's account calls for. */
  lemma EveryStepSays(es: seq<Event>, e: Event)
    requires Legal(BEGIN, es) && Enabled(Run(BEGIN, es), e) && !Step(Run(BEGIN, es), e).session.fatal
    ensures var w := Run(BEGIN, es);
            Says(w.session, Step(w, e).session, Account(BEGIN, G.BEGIN_GUEST, es), e)
  {
    hide Inv, Step, G.Agrees, Says;
    BeginInv();
    G.BeginAgrees();
    RunAgrees(BEGIN, G.BEGIN_GUEST, es);
    StepAccounts(Run(BEGIN, es), Account(BEGIN, G.BEGIN_GUEST, es), e);
  }

  // ---- planes, computed from the requests alone ----

  /** A params object being filled: the number it has at the host and the planes added. */
  datatype Collection = Collection(host: u32, planes: seq<Plane>)

  function Collected(c: Collection, params: u32, e: Event): Collection {
    match e
    case NewForwarded(_, id, interface, host) =>
      if id == params && interface == LinuxBufferParams then Collection(host, []) else c
    case Add(id, plane, duplicate) =>
      if id == params && plane.fd >= 0 && duplicate.Some? then c.(planes := c.planes + [G.Copy(plane, duplicate.value)]) else c
    case _ => c
  }

  function Collect(c: Collection, params: u32, es: seq<Event>): Collection
    decreases |es|
  {
    if es == [] then c else Collect(Collected(c, params, es[0]), params, es[1..])
  }

  /** The account has what was collected for each params object still to be used. */
  ghost predicate Matches(g: G.Guest, params: u32, c: Collection) {
    params in g.planes ==>
      && params in g.objects && g.objects[params].partner == Some(c.host) && g.planes[params] == c.planes
  }

  /** What a request introduces was not a params object before. */
  ghost predicate IntroducesNew(g: G.Guest, e: Event) {
    && (e.NewForwarded? || e.NewFromDisplay? || e.NewTextInput? || e.NewLocal? ==> e.id !in g.planes)
    && (e.CreateImmed? && e.params in g.planes ==> e.buffer !in g.planes)
  }

  lemma AskingCollects(g: G.Guest, params: u32, c: Collection, e: Event)
    requires Matches(g, params, c) && IntroducesNew(g, e) && (params in g.planes ==> params < GUEST_SERVER_ID_START)
    ensures Matches(G.Asks(g, e), params, Collected(c, params, e))
  {
  }

  /** What is heard changes no planes, and makes nothing but buffers. */
  lemma {:induction false} HearingKeepsPlanes(g: G.Guest, e: Event, ms: seq<GuestMessage>)
    ensures var after := G.HearsAll(g, e, ms);
            && after.planes == g.planes
            && forall x :: x in after.objects ==>
                 (x in g.objects && after.objects[x] == g.objects[x]) || after.objects[x].interface == WlBuffer
  {
    if ms == [] {
    } else {
      HearingKeepsPlanes(g, e, ms[..|ms| - 1]);
    }
  }

  lemma HearingKeepsMatches(g: G.Guest, params: u32, c: Collection, e: Event, ms: seq<GuestMessage>)
    requires Matches(g, params, c)
    requires var after := G.HearsAll(g, e, ms);
             params in after.planes ==> params in after.objects && after.objects[params].interface == LinuxBufferParams
    ensures Matches(G.HearsAll(g, e, ms), params, c)
  {
    HearingKeepsPlanes(g, e, ms);
    hide G.HearsAll;
  }

  lemma CollectorIs(s: Session, h: Host, g: G.Guest, params: u32)
    requires Good(View(s), h) && G.Agrees(s, g) && params in g.planes
    ensures params in g.objects && g.objects[params].interface == LinuxBufferParams && params < GUEST_SERVER_ID_START
    ensures s.table.IsGuestKnown(params)
  {
    hide Good;
    GoodParts(View(s), h);
    hide RecordsOk, CreatesOk;
    ServerNumbersAreBuffers(View(s), h, params);
  }

  lemma AdmittedIntroducesNew(w: World, g: G.Guest, e: Event)
    requires Inv(w) && Enabled(w, e) && G.Agrees(w.session, g) && !Step(w, e).session.fatal
    ensures IntroducesNew(g, e)
  {
    var s, h := w.session, w.host;
    hide Good, G.NumbersAgree, G.PlanesAgree, s.OnAdd, s.OnCreate, s.OnDone, s.OnDeleteId, s.OnCreated, s.OnFailed,
         s.ForwardDestroy, s.DestroyBuffer, s.CompleteBufferDestroy, s.LocalDestroy, s.DestroyWithoutHostDestructor,
         s.OnCreateImmed;
    if e.NewForwarded? || e.NewFromDisplay? || e.NewTextInput? || e.NewLocal? {
      if e.id in g.planes {
        CollectorIs(s, h, g, e.id);
      }
    } else if e.CreateImmed? && e.params in g.planes {
      PlanesAre(s, g);
      CreateImmedAccepted(s, e.params, e.buffer, e.request, e.host, e.syncFds);
      if e.buffer in g.planes {
        CollectorIs(s, h, g, e.buffer);
      }
    }
  }

  lemma StepCollects(w: World, g: G.Guest, e: Event, params: u32, c: Collection)
    requires Inv(w) && Enabled(w, e) && G.Agrees(w.session, g) && !Step(w, e).session.fatal
    requires Matches(g, params, c)
    ensures Matches(Listens(g, e, w.session, Step(w, e).session), params, Collected(c, params, e))
  {
    hide Good, Enabled, Step, G.Agrees, Matches, G.HearsAll, G.Asks, Collected, IntroducesNew;
    var after := Step(w, e).session;
    EnabledIsLive(w, e);
    StepAccounts(w, g, e);
    StepKeepsInv(w, e);
    AdmittedIntroducesNew(w, g, e);
    if params in g.planes {
      CollectorIs(w.session, w.host, g, params);
    }
    AskingCollects(g, params, c, e);
    if params in Listens(g, e, w.session, after).planes {
      CollectorIs(after, Step(w, e).host, Listens(g, e, w.session, after), params);
    }
    HearingKeepsMatches(G.Asks(g, e), params, Collected(c, params, e), e,
                        if |w.session.toGuest| <= |after.toGuest| then after.toGuest[|w.session.toGuest|..] else []);
  }

  lemma {:induction false} RunCollects(w: World, g: G.Guest, es: seq<Event>, params: u32, c: Collection)
    requires Inv(w) && G.Agrees(w.session, g) && Legal(w, es) && !Run(w, es).session.fatal
    requires Matches(g, params, c)
    ensures Matches(Account(w, g, es), params, Collect(c, params, es))
    decreases |es|
  {
    hide Inv, Enabled, Step, G.Agrees, Listens, Matches, Collected;
    if es == [] {
    } else {
      var v := Step(w, es[0]);
      LiveUntilEnd(v, es[1..]);
      StepAccounts(w, g, es[0]);
      assert G.Agrees(v.session, Listens(g, es[0], w.session, v.session));
      StepKeepsInv(w, es[0]);
      StepCollects(w, g, es[0], params, c);
      RunCollects(v, Listens(g, es[0], w.session, v.session), es[1..], params, Collected(c, params, es[0]));
    }
  }

  const NOTHING: Collection := Collection(0, [])

  /** The create is sent under the params object's host number, after exactly the planes the
      guest has added since it made the object, in order and as it gave them but for the
      descriptors, which are duplicates. */
  lemma ImportsWhatWasAdded(es: seq<Event>, e: Event)
    requires Legal(BEGIN, es) && Enabled(Run(BEGIN, es), e) && !Step(Run(BEGIN, es), e).session.fatal
    requires e.Create? || (e.CreateImmed? && e.params in Account(BEGIN, G.BEGIN_GUEST, es).planes)
    ensures var w := Run(BEGIN, es);
            var c := Collect(NOTHING, e.params, es);
            var sent := Sent(w.session.toHost, Step(w, e).session.toHost);
            && |sent| == |c.planes| + 1
            && (forall k | 0 <= k < |c.planes| :: sent[k] == AddPlane(c.host, c.planes[k]))
            && sent[|c.planes|] == if e.Create? then CreateAsync(c.host, e.request)
                                   else CreateImmediate(c.host, e.host, e.request)
  {
    hide Inv, Enabled, Step, G.Agrees, Matches, Collect;
    var w, g := Run(BEGIN, es), Account(BEGIN, G.BEGIN_GUEST, es);
    EnabledIsLive(w, e);
    BeginInv();
    G.BeginAgrees();
    RunAgrees(BEGIN, G.BEGIN_GUEST, es);
    assert Matches(G.BEGIN_GUEST, e.params, NOTHING) by { MatchesAtBegin(e.params); }
    RunCollects(BEGIN, G.BEGIN_GUEST, es, e.params, NOTHING);
    EveryStepSays(es, e);
    MatchesIs(w.session, g, e.params, Collect(NOTHING, e.params, es));
  }

  lemma MatchesAtBegin(params: u32)
    ensures Matches(G.BEGIN_GUEST, params, NOTHING)
  {
  }

  lemma MatchesIs(s: Session, g: G.Guest, params: u32, c: Collection)
    requires G.Agrees(s, g) && Matches(g, params, c)
    ensures params in s.pendingParams <==> params in g.planes
    ensures params in g.planes ==>
              params in g.objects && g.objects[params].partner == Some(c.host) && g.planes[params] == c.planes
  {
  }

  // ---- events of objects the guest has ended ----

  /** The guest has sent the destructor of the object with this host number. */
  ghost predicate Ended(g: G.Guest, h: Host, host: u32) {
    || (exists x :: x in g.ended && x in g.objects && g.objects[x].partner == Some(host))
    || (host in h.served && forall x :: x in g.objects ==> g.objects[x].partner != Some(host))
  }

  /** The event is one its object's interface has. */
  predicate IsOf(kind: A.EventKind, interface: Option<Interface>) {
    && (kind.BufferRelease? <==> interface == Some(WlBuffer))
    && (kind.ParamsCreated? || kind.ParamsFailed? <==> interface == Some(LinuxBufferParams))
  }

  lemma EndedIff(i: Ids, h: Host, g: G.Guest, host: u32)
    requires Good(i, h) && G.NumbersAgree(i, g)
    ensures Ended(g, h, host) <==> host in i.hostToGuest && i.hostToGuest[host] in i.pendingGuest
  {
    if host in i.hostToGuest {
      PairIs(i, h, g, host);
    } else {
      UnpairedIs(i, h, g, host);
    }
  }

  lemma PairIs(i: Ids, h: Host, g: G.Guest, host: u32)
    requires Good(i, h) && G.NumbersAgree(i, g) && host in i.hostToGuest
    ensures Ended(g, h, host) <==> i.hostToGuest[host] in i.pendingGuest
  {
    var x := i.hostToGuest[host];
    if x in i.pendingGuest && x < GUEST_SERVER_ID_START {
      assert x in g.ended && g.objects[x].partner == Some(host);
    }
    OthersDoNotOwn(i, h, g, host);
  }

  lemma OthersDoNotOwn(i: Ids, h: Host, g: G.Guest, host: u32)
    requires Good(i, h) && G.NumbersAgree(i, g)
    ensures forall x :: x in g.objects && g.objects[x].partner == Some(host) ==> host in i.hostToGuest && x == i.hostToGuest[host]
  {
  }

  lemma UnpairedIs(i: Ids, h: Host, g: G.Guest, host: u32)
    requires Good(i, h) && G.NumbersAgree(i, g) && host !in i.hostToGuest
    ensures !Ended(g, h, host)
  {
    OthersDoNotOwn(i, h, g, host);
  }

  /** Deferred is what the host has not been told of. */
  lemma DeferredIff(i: Ids, h: Host, host: u32)
    requires Good(i, h) && host in i.hostToGuest && i.hostToGuest[host] in i.pendingGuest
    ensures host in i.deferred <==> host !in h.dying
  {
  }

  /** An event is dropped unseen exactly when the guest has ended its object, except for the
      answers to a create and for the release of a buffer whose destruction is put off. */
  lemma StaleIff(w: World, g: G.Guest, host: u32, kind: A.EventKind)
    requires Inv(w) && !w.session.fatal && G.Agrees(w.session, g)
    requires IsOf(kind, w.session.table.EventInterface(host))
    ensures A.IsStale(w.session, host, kind) <==>
            Ended(g, w.host, host) && (kind.OtherKind? || (kind.BufferRelease? && host in w.host.dying))
  {
    hide Good, Ended, G.NumbersAgree, G.PlanesAgree;
    var s := w.session;
    EndedIff(View(s), w.host, g, host);
    if s.table.IsPendingDestroyHost(host) {
      DeferredIff(View(s), w.host, host);
    }
  }

  /** The host holds the ended object's number, and knows that it is ended unless that is put off. */
  ghost predicate IsTold(w: World, g: G.Guest, x: u32) {
    && x in g.objects && g.objects[x].partner.Some? && g.objects[x].partner.value in w.host.owned
    && (g.objects[x].partner.value in w.host.dying <==> g.objects[x].partner.value !in w.session.deferredBuffers)
  }

  /** The host has been told of every object the guest has ended, but for buffers whose
      destruction is put off, and of every number that only waits for its `delete_id`. */
  lemma EndedIsDestroyedOrDeferred(es: seq<Event>)
    requires Legal(BEGIN, es) && !Run(BEGIN, es).session.fatal
    ensures var w, g := Run(BEGIN, es), Account(BEGIN, G.BEGIN_GUEST, es);
            && (forall x :: x in g.ended ==> IsTold(w, g, x))
            && (forall host :: host in w.session.table.pendingDestroyHostIds && host in w.host.owned ==> host in w.host.dying)
  {
    hide Inv, G.Agrees;
    BeginInv();
    G.BeginAgrees();
    RunAgrees(BEGIN, G.BEGIN_GUEST, es);
    EndedIsTold(Run(BEGIN, es), Account(BEGIN, G.BEGIN_GUEST, es));
  }

  lemma EndedIsTold(w: World, g: G.Guest)
    requires Inv(w) && !w.session.fatal && G.Agrees(w.session, g)
    ensures forall x :: x in g.ended ==> IsTold(w, g, x)
    ensures forall host :: host in w.session.table.pendingDestroyHostIds && host in w.host.owned ==> host in w.host.dying
  {
    forall x | x in g.ended
      ensures IsTold(w, g, x)
    {
      EndedPairIs(View(w.session), w.host, g, x);
      DeferredIff(View(w.session), w.host, g.objects[x].partner.value);
    }
  }

  lemma EndedPairIs(i: Ids, h: Host, g: G.Guest, x: u32)
    requires Good(i, h) && G.NumbersAgree(i, g) && x in g.ended
    ensures x in g.objects && g.objects[x].partner.Some? && g.objects[x].partner.value in h.owned
    ensures var host := g.objects[x].partner.value; host in i.hostToGuest && i.hostToGuest[host] in i.pendingGuest
  {
  }

  // ---- versions ----

  function OrUnknown(version: Option<u32>): u32 {
    match version case Some(v) => v case None => UNKNOWN_OBJECT_VERSION
  }

  /** A pair is added under these versions, and every other object keeps its own. */
  ghost predicate AddsVersions(t: Table, after: Table, id: u32, guestVersion: u32, host: u32, hostVersion: u32) {
    && after.GuestObjectVersion(id) == Some(guestVersion) && after.HostObjectVersion(host) == Some(hostVersion)
    && (forall x :: t.IsGuestKnown(x) && x != id ==> after.GuestObjectVersion(x) == t.GuestObjectVersion(x))
    && (forall y :: t.IsEventSenderKnown(y) && y != host ==> after.HostObjectVersion(y) == t.HostObjectVersion(y))
  }

  lemma MappedVersions(t: Table, id: u32, interface: Interface, guestVersion: u32, host: u32, hostVersion: u32)
    requires t.Inverse() && !t.IsGuestKnown(id) && !t.IsHostReserved(host)
    ensures var after := t.MapId(id, host).TrackInterfaceWithVersion(id, interface, guestVersion)
                          .SetHostVersion(host, hostVersion);
            AddsVersions(t, after, id, guestVersion, host, hostVersion)
  {
    MapFresh(t, id, host);
    hide t.MapId;
  }

  lemma CursorsDoNotCount(t: Table, host: u32, after: Table, id: u32, guestVersion: u32, partner: u32, hostVersion: u32)
    requires AddsVersions(t.AdvanceHostCursor(host), after, id, guestVersion, partner, hostVersion)
             || AddsVersions(t.AdvanceGuestServerCursor(host), after, id, guestVersion, partner, hostVersion)
    ensures AddsVersions(t, after, id, guestVersion, partner, hostVersion)
  {
    forall x | t.IsGuestKnown(x) && x != id
      ensures after.GuestObjectVersion(x) == t.GuestObjectVersion(x)
    {
      assert t.AdvanceHostCursor(host).GuestObjectVersion(x) == t.GuestObjectVersion(x);
      assert t.AdvanceGuestServerCursor(host).GuestObjectVersion(x) == t.GuestObjectVersion(x);
      assert t.AdvanceHostCursor(host).IsGuestKnown(x) && t.AdvanceGuestServerCursor(host).IsGuestKnown(x);
    }
    forall y | t.IsEventSenderKnown(y) && y != partner
      ensures after.HostObjectVersion(y) == t.HostObjectVersion(y)
    {
      assert t.AdvanceHostCursor(host).HostObjectVersion(y) == t.HostObjectVersion(y);
      assert t.AdvanceGuestServerCursor(host).HostObjectVersion(y) == t.HostObjectVersion(y);
      assert t.AdvanceHostCursor(host).IsEventSenderKnown(y) && t.AdvanceGuestServerCursor(host).IsEventSenderKnown(y);
    }
  }

  lemma GoodIsInverse(s: Session, h: Host)
    requires Good(View(s), h)
    ensures s.table.Inverse()
  {
  }

  /** Whatever makes an object passes its own version on, to each side the one that side
      knows, and the versions of all other objects stay. */
  lemma FactoriesPassVersions(s: Session, h: Host, sender: u32, id: u32, interface: Interface, host: u32)
    requires Good(View(s), h) && s.Admits(sender) && s.table.IsGuestIdAvailable(id) && s.table.IsHostIdAvailable(host)
    ensures var t := s.table;
            var known := if sender in t.guestToHost then t.HostObjectVersion(t.guestToHost[sender]) else None;
            AddsVersions(t, s.ForwardNew(sender, id, interface, host).table, id, OrUnknown(t.GuestObjectVersion(sender)),
                         host, if known.Some? then known.value else OrUnknown(t.GuestObjectVersion(sender)))
  {
    hide AddsVersions, Good, s.Admits, s.table.MapId;
    GoodIsInverse(s, h);
    var t := s.table;
    var known := if sender in t.guestToHost then t.HostObjectVersion(t.guestToHost[sender]) else None;
    var guestVersion := OrUnknown(t.GuestObjectVersion(sender));
    var hostVersion := if known.Some? then known.value else guestVersion;
    MappedVersions(t.AdvanceHostCursor(host), id, interface, guestVersion, host, hostVersion);
    CursorsDoNotCount(t, host, s.ForwardNew(sender, id, interface, host).table, id, guestVersion, host, hostVersion);
  }

  lemma ImmediateTableIs(s: Session, params: u32, buffer: u32, request: BufferRequest, host: u32, syncFds: Option<seq<Fd>>)
    requires params in s.table.guestToHost && params in s.pendingParams && !s.fatal
    requires !s.OnCreateImmed(params, buffer, request, host, syncFds).fatal
    ensures s.table.IsGuestIdAvailable(buffer)
    ensures var version := OrUnknown(s.table.GuestObjectVersion(params));
            s.OnCreateImmed(params, buffer, request, host, syncFds).table
              == s.table.AdvanceHostCursor(host).MapId(buffer, host)
                   .TrackInterfaceWithVersion(buffer, WlBuffer, version).SetHostVersion(host, version)
  {
    hide ValidParams, ParamsErrorCode, s.Admits, s.table.MapId, AddPlanes, PlaneFds, s.table.GuestObjectVersion, s.table.RemoveId,
         s.table.TrackInterfaceWithVersion, s.table.SetHostVersion, s.table.AdvanceHostCursor, s.table.IsGuestKnown;
  }

  /** So do params objects, to the buffers made with them. */
  lemma ParamsPassVersions(s: Session, h: Host, params: u32, buffer: u32, request: BufferRequest, host: u32,
      syncFds: Option<seq<Fd>>)
    requires Good(View(s), h) && params in s.table.guestToHost && params in s.pendingParams && !s.fatal
    requires !s.OnCreateImmed(params, buffer, request, host, syncFds).fatal && s.table.IsHostIdAvailable(host)
    ensures var version := OrUnknown(s.table.GuestObjectVersion(params));
            AddsVersions(s.table, s.OnCreateImmed(params, buffer, request, host, syncFds).table, buffer, version, host, version)
  {
    hide AddsVersions, Good, s.OnCreateImmed, s.table.MapId, s.table.GuestObjectVersion;
    GoodIsInverse(s, h);
    ImmediateTableIs(s, params, buffer, request, host, syncFds);
    var version := OrUnknown(s.table.GuestObjectVersion(params));
    MappedVersions(s.table.AdvanceHostCursor(host), buffer, WlBuffer, version, host, version);
    var after := s.OnCreateImmed(params, buffer, request, host, syncFds).table;
    CursorsDoNotCount(s.table, host, after, buffer, version, host, version);
  }

  lemma AnnouncedTableIs(s: Session, params: u32, buffer: u32, id: u32)
    requires Awaits(s, params, buffer, id)
    ensures var version := OrUnknown(s.table.HostObjectVersion(params));
            s.OnCreated(params, buffer, id).table
              == s.table.AdvanceGuestServerCursor(id).MapId(id, buffer)
                   .TrackInterfaceWithVersion(id, WlBuffer, version).SetHostVersion(buffer, version)
  {
    hide s.table.MapId, s.table.HostObjectVersion;
  }

  lemma AnnouncedVersions(s: Session, h: Host, params: u32, buffer: u32, id: u32)
    requires Good(View(s), h) && Awaits(s, params, buffer, id)
    ensures var version := OrUnknown(s.table.HostObjectVersion(params));
            AddsVersions(s.table, s.OnCreated(params, buffer, id).table, id, version, buffer, version)
  {
    hide AddsVersions, Good, s.OnCreated, s.table.MapId, s.table.HostObjectVersion;
    GoodIsInverse(s, h);
    AnnouncedTableIs(s, params, buffer, id);
    var version := OrUnknown(s.table.HostObjectVersion(params));
    MappedVersions(s.table.AdvanceGuestServerCursor(id), id, WlBuffer, version, buffer, version);
    CursorsDoNotCount(s.table, id, s.OnCreated(params, buffer, id).table, id, version, buffer, version);
  }
}

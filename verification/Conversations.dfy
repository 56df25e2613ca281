/**
 What each step of a connection says to either side, and which requests are refused, in
 terms of the guest's own account and the host's.
 */
module Conversations {
  import opened Prelude
  import opened ShadowTables
  import opened DmabufParams
  import opened Sessions
  import opened Lifecycle
  import opened Protocol
  import opened ProtocolSteps
  import G = Guests

  // ---- what a step says ----

  /** The params object's planes, as the guest gave them, and then the create. */
  function Imports(g: G.Guest, params: u32, create: HostMessage): seq<HostMessage>
    requires params in g.planes && params in g.objects && g.objects[params].partner.Some?
  {
    AddPlanes(g.objects[params].partner.value, g.planes[params]) + [create]
  }

  /** To the host: each object made is announced under its number, each destructor is passed on
      under the partner's, planes and creates likewise. A buffer announced to nobody is
      destroyed. */
  ghost predicate TellsHost(g: G.Guest, e: Event, sent: seq<HostMessage>) {
    match e
    case NewForwarded(_, _, _, host) => sent == [CreateObject(host)]
    case NewFromDisplay(_, _, host) => sent == [CreateObject(host)]
    case NewTextInput(_, host) => sent == [CreateObject(host)]
    case NewHostOnly(_, _, host) => sent == [CreateObject(host)]
    case DestroyForwarded(x) =>
      x in g.objects && g.objects[x].partner.Some? && sent == [DestroyObject(g.objects[x].partner.value)]
    case DestroyBuffer(x, deferred) =>
      x in g.objects && g.objects[x].partner.Some? &&
      sent == if deferred then [] else [DestroyObject(g.objects[x].partner.value)]
    case RetireBuffer(host) => sent == [DestroyObject(host)]
    case DestroyHostOnly(host) => sent == [DestroyObject(host)]
    case Create(p, request, _) =>
      p in g.planes && p in g.objects && g.objects[p].partner.Some? &&
      sent == Imports(g, p, CreateAsync(g.objects[p].partner.value, request))
    case CreateImmed(p, _, request, host, _) =>
      if p in g.planes then
        p in g.objects && g.objects[p].partner.Some? &&
        sent == Imports(g, p, CreateImmediate(g.objects[p].partner.value, host, request))
      else sent == []
    case BufferAnnounced(params, buffer, _) =>
      sent == if exists x :: g.Owns(x, params) then [] else [DestroyObject(buffer)]
    case _ => sent == []
  }

  /** To the guest: what ends or is answered under a live object's number, and `delete_id` for
      each number that is free again. */
  ghost predicate TellsGuest(g: G.Guest, e: Event, sent: seq<GuestMessage>) {
    match e
    case DestroyLocal(x) => sent == if x in g.objects && g.objects[x].partner.None? then [DeleteId(x)] else []
    case DestroyTextInput(x) => sent == [DeleteId(x)]
    case CallbackDone(host, data) =>
      if exists x :: g.Owns(x, host) then exists x :: g.Owns(x, host) && sent == [Done(x, data), DeleteId(x)] else sent == []
    case HostDeleteId(host) =>
      if exists x :: x in g.objects && g.objects[x].partner == Some(host)
      then exists x :: x in g.objects && g.objects[x].partner == Some(host) && sent == [DeleteId(x)]
      else sent == []
    case BufferAnnounced(params, _, id) =>
      if exists x :: g.Owns(x, params) then exists x :: g.Owns(x, params) && sent == [Created(x, id)] else sent == []
    case CreateFailed(params) =>
      if exists x :: g.Owns(x, params) then exists x :: g.Owns(x, params) && sent == [Failed(x)] else sent == []
    case _ => sent == []
  }

  /** One step's messages, and the guest's account after it. */
  ghost predicate Says(s: Session, after: Session, g: G.Guest, e: Event) {
    && |s.toHost| <= |after.toHost| && after.toHost[..|s.toHost|] == s.toHost
    && |s.toGuest| <= |after.toGuest| && after.toGuest[..|s.toGuest|] == s.toGuest
    && TellsHost(g, e, after.toHost[|s.toHost|..])
    && TellsGuest(g, e, after.toGuest[|s.toGuest|..])
  }

  function Listens(g: G.Guest, e: Event, s: Session, after: Session): G.Guest {
    G.HearsAll(G.Asks(g, e), e, if |s.toGuest| <= |after.toGuest| then after.toGuest[|s.toGuest|..] else [])
  }

  /** What is proved of every step. */
  ghost predicate Accounts(s: Session, after: Session, g: G.Guest, e: Event) {
    Says(s, after, g, e) && G.Agrees(after, Listens(g, e, s, after))
  }

  /** A step that tells the guest nothing, or one thing, or two. */
  lemma Quietly(s: Session, after: Session, g: G.Guest, e: Event, toHost: seq<HostMessage>)
    requires after.toHost == s.toHost + toHost && after.toGuest == s.toGuest
    requires TellsHost(g, e, toHost) && TellsGuest(g, e, [])
    requires G.Agrees(after, G.Asks(g, e))
    ensures Accounts(s, after, g, e)
  {
    hide TellsHost, TellsGuest, G.Agrees, G.Asks;
    assert after.toHost[|s.toHost|..] == toHost && after.toGuest[|s.toGuest|..] == [];
  }

  lemma WithOne(s: Session, after: Session, g: G.Guest, e: Event, toHost: seq<HostMessage>, m: GuestMessage)
    requires after.toHost == s.toHost + toHost && after.toGuest == s.toGuest + [m]
    requires TellsHost(g, e, toHost) && TellsGuest(g, e, [m])
    requires G.Agrees(after, G.Hears(G.Asks(g, e), e, m))
    ensures Accounts(s, after, g, e)
  {
    hide TellsHost, TellsGuest, G.Agrees, G.Asks, G.Hears, G.HearsAll;
    assert after.toHost[|s.toHost|..] == toHost && after.toGuest[|s.toGuest|..] == [m];
    G.HearsOne(G.Asks(g, e), e, m);
  }

  lemma WithTwo(s: Session, after: Session, g: G.Guest, e: Event, m: GuestMessage, n: GuestMessage)
    requires after.toHost == s.toHost && after.toGuest == s.toGuest + [m, n]
    requires TellsHost(g, e, []) && TellsGuest(g, e, [m, n])
    requires G.Agrees(after, G.Hears(G.Hears(G.Asks(g, e), e, m), e, n))
    ensures Accounts(s, after, g, e)
  {
    hide TellsHost, TellsGuest, G.Agrees, G.Asks, G.Hears, G.HearsAll;
    assert after.toHost[|s.toHost|..] == [] && after.toGuest[|s.toGuest|..] == [m, n];
    G.HearsTwo(G.Asks(g, e), e, m, n);
  }

  lemma SamePlanesAgree(s: Session, after: Session, g: G.Guest)
    requires G.PlanesAgree(s, g) && after.pendingParams == s.pendingParams && after.usedParams == s.usedParams
    ensures G.PlanesAgree(after, g)
  {
  }

  // ---- new objects ----

  /** Everything but the table, the messages to the host and the planes stays. */
  predicate Quiet(s: Session, after: Session, sent: seq<HostMessage>) {
    && after.toHost == s.toHost + sent && after.toGuest == s.toGuest
    && after.pendingParams == s.pendingParams && after.usedParams == s.usedParams
  }

  lemma NewForwardedDoes(s: Session, sender: u32, id: u32, interface: Interface, host: u32)
    requires s.Admits(sender) && s.table.IsGuestIdAvailable(id) && s.table.IsHostIdAvailable(host)
    requires id !in s.pendingParams
    ensures var after := s.ForwardNew(sender, id, interface, host);
            && View(after) == View(s).Pair(id, host, interface)
            && after.toHost == s.toHost + [CreateObject(host)] && after.toGuest == s.toGuest
            && after.pendingParams == (if interface == LinuxBufferParams then s.pendingParams[id := []] else s.pendingParams)
            && after.usedParams == (if interface == LinuxBufferParams then s.usedParams - {id} else s.usedParams)
  {
    hide s.table.MapId;
    MapFresh(s.table.AdvanceHostCursor(host), id, host);
  }

  lemma NewFromDisplayDoes(s: Session, id: u32, interface: Interface, host: u32)
    requires s.table.IsGuestIdAvailable(id) && s.table.IsHostIdAvailable(host)
    ensures var after := s.DisplayNew(id, interface, host);
            View(after) == View(s).Pair(id, host, interface) && Quiet(s, after, [CreateObject(host)])
  {
    hide s.table.MapId;
    MapFresh(s.table.AdvanceHostCursor(host), id, host);
  }

  lemma NewTextInputDoes(s: Session, id: u32, host: u32)
    requires s.table.IsGuestIdAvailable(id) && s.table.IsHostIdAvailable(host)
    ensures var after := s.TextInputNew(id, host);
            && View(after) == View(s).Pair(id, host, TextInputV3).Record(host, HostTextInputV1)
            && Quiet(s, after, [CreateObject(host)])
  {
    hide s.table.MapId;
    MapFresh(s.table.AdvanceHostCursor(host), id, host);
  }

  lemma NewLocalDoes(s: Session, id: u32, interface: Interface)
    requires s.table.IsGuestIdAvailable(id)
    ensures var after := s.LocalNew(id, interface); View(after) == View(s).Name(id, interface) && Quiet(s, after, [])
  {
  }

  lemma FreshIsQuiet(s: Session, h: Host, g: G.Guest, id: u32)
    requires Good(View(s), h) && G.Agrees(s, g) && !s.table.IsGuestKnown(id)
    ensures id !in View(s).pendingGuest && id !in g.objects && id !in g.ended && !View(s).Known(id)
    ensures id !in g.planes && id !in g.used && id !in s.pendingParams
  {
  }

  /** A number the guest takes changes nothing of its params objects. */
  lemma TakesKeepsPlanes(s: Session, after: Session, g: G.Guest, id: u32, interface: Interface, partner: Option<u32>)
    requires G.PlanesAgree(s, g) && after.pendingParams == s.pendingParams && after.usedParams == s.usedParams
    requires id !in g.planes && id !in g.used
    ensures G.PlanesAgree(after, g.Takes(id, interface, partner))
  {
  }

  lemma CollectsAgrees(s: Session, after: Session, g: G.Guest, id: u32, partner: u32)
    requires G.PlanesAgree(s, g) && id !in g.planes && id !in g.used && id !in g.ended
    requires after.pendingParams == s.pendingParams[id := []] && after.usedParams == s.usedParams - {id}
    ensures G.PlanesAgree(after, g.Takes(id, LinuxBufferParams, Some(partner)).Collects(id))
  {
  }

  lemma NewForwardedSays(s: Session, h: Host, g: G.Guest, sender: u32, id: u32, interface: Interface, host: u32)
    requires Good(View(s), h) && G.Agrees(s, g) && s.Admits(sender)
    requires s.table.IsGuestIdAvailable(id) && s.table.IsHostIdAvailable(host)
    ensures Accounts(s, s.ForwardNew(sender, id, interface, host), g, NewForwarded(sender, id, interface, host))
  {
    hide s.ForwardNew, Good, Accounts, G.NumbersAgree, G.PlanesAgree;
    var after := s.ForwardNew(sender, id, interface, host);
    FreshIsQuiet(s, h, g, id);
    NewForwardedDoes(s, sender, id, interface, host);
    G.PairAgrees(View(s), g, id, host, interface);
    if interface == LinuxBufferParams {
      CollectsAgrees(s, after, g, id, host);
    } else {
      TakesKeepsPlanes(s, after, g, id, interface, Some(host));
    }
    G.PlanesDoNotCount(View(after), g.Takes(id, interface, Some(host)), id);
    Quietly(s, after, g, NewForwarded(sender, id, interface, host), [CreateObject(host)]);
  }

  lemma NewFromDisplaySays(s: Session, h: Host, g: G.Guest, id: u32, interface: Interface, host: u32)
    requires Good(View(s), h) && G.Agrees(s, g)
    requires s.table.IsGuestIdAvailable(id) && s.table.IsHostIdAvailable(host)
    ensures Accounts(s, s.DisplayNew(id, interface, host), g, NewFromDisplay(id, interface, host))
  {
    hide s.DisplayNew, Good, Accounts, G.NumbersAgree, G.PlanesAgree;
    var after := s.DisplayNew(id, interface, host);
    FreshIsQuiet(s, h, g, id);
    NewFromDisplayDoes(s, id, interface, host);
    G.PairAgrees(View(s), g, id, host, interface);
    TakesKeepsPlanes(s, after, g, id, interface, Some(host));
    Quietly(s, after, g, NewFromDisplay(id, interface, host), [CreateObject(host)]);
  }

  lemma NewTextInputSays(s: Session, h: Host, g: G.Guest, id: u32, host: u32)
    requires Good(View(s), h) && G.Agrees(s, g)
    requires s.table.IsGuestIdAvailable(id) && s.table.IsHostIdAvailable(host)
    ensures Accounts(s, s.TextInputNew(id, host), g, NewTextInput(id, host))
  {
    hide s.TextInputNew, Good, Accounts, G.NumbersAgree, G.PlanesAgree;
    var after := s.TextInputNew(id, host);
    FreshIsQuiet(s, h, g, id);
    NewTextInputDoes(s, id, host);
    G.PairAgrees(View(s), g, id, host, TextInputV3);
    G.SameNumbersAgree(View(s).Pair(id, host, TextInputV3), View(after), g.Takes(id, TextInputV3, Some(host)));
    TakesKeepsPlanes(s, after, g, id, TextInputV3, Some(host));
    Quietly(s, after, g, NewTextInput(id, host), [CreateObject(host)]);
  }

  lemma NewLocalSays(s: Session, h: Host, g: G.Guest, id: u32, interface: Interface)
    requires Good(View(s), h) && G.Agrees(s, g) && s.table.IsGuestIdAvailable(id)
    ensures Accounts(s, s.LocalNew(id, interface), g, NewLocal(id, interface))
  {
    hide s.LocalNew, Good, Accounts, G.NumbersAgree, G.PlanesAgree;
    var after := s.LocalNew(id, interface);
    FreshIsQuiet(s, h, g, id);
    NewLocalDoes(s, id, interface);
    G.NameAgrees(View(s), g, id, interface);
    TakesKeepsPlanes(s, after, g, id, interface, None);
    Quietly(s, after, g, NewLocal(id, interface), []);
  }

  /** The guest has no part in it. */
  lemma WithoutGuest(s: Session, after: Session, g: G.Guest, e: Event, toHost: seq<HostMessage>)
    requires G.Agrees(s, g) && Quiet(s, after, toHost)
    requires after.table.guestToHost == s.table.guestToHost && after.table.interfaces == s.table.interfaces
    requires after.table.pendingDestroyGuestIds == s.table.pendingDestroyGuestIds
    requires TellsHost(g, e, toHost) && TellsGuest(g, e, []) && G.Asks(g, e) == g
    ensures Accounts(s, after, g, e)
  {
    hide Accounts, TellsHost, TellsGuest, G.NumbersAgree, G.Asks;
    G.SameNumbersAgree(View(s), View(after), g);
    Quietly(s, after, g, e, toHost);
  }

  lemma HostOnlyDoes(s: Session, interface: Interface, version: u32, barrier: bool, host: u32)
    ensures Quiet(s, s.BindHostOnly(interface, version, barrier, host), [CreateObject(host)])
    ensures Quiet(s, s.DestroyHostOnly(host), [DestroyObject(host)]) && Quiet(s, s.RetireHostOnly(host), [])
  {
    hide s.table.AdvanceHostCursor;
  }

  lemma HostOnlySays(s: Session, g: G.Guest, interface: Interface, version: u32, host: u32)
    requires G.Agrees(s, g)
    ensures Accounts(s, s.BindHostOnly(interface, version, interface == WlCallback, host), g,
                     NewHostOnly(interface, version, host))
    ensures Accounts(s, s.DestroyHostOnly(host), g, DestroyHostOnly(host))
    ensures Accounts(s, s.RetireHostOnly(host), g, RetireHostOnly(host))
  {
    hide Accounts, G.Agrees, Quiet;
    HostOnlyDoes(s, interface, version, interface == WlCallback, host);
    WithoutGuest(s, s.BindHostOnly(interface, version, interface == WlCallback, host), g, NewHostOnly(interface, version, host),
                 [CreateObject(host)]);
    WithoutGuest(s, s.DestroyHostOnly(host), g, DestroyHostOnly(host), [DestroyObject(host)]);
    WithoutGuest(s, s.RetireHostOnly(host), g, RetireHostOnly(host), []);
  }

  // ---- destructors ----

  /** An admitted sender with a host number is an object the guest owns. */
  lemma AdmittedIsOwned(i: Ids, g: G.Guest, x: u32)
    requires G.NumbersAgree(i, g) && x in i.guestToHost && x !in i.pendingGuest
    ensures g.Owns(x, i.guestToHost[x]) && (x in i.interfaces ==> g.objects[x].interface == i.interfaces[x])
  {
  }

  lemma EndedPlanes(s: Session, after: Session, g: G.Guest, x: u32)
    requires G.PlanesAgree(s, g)
    requires after.pendingParams == s.pendingParams - {x} && after.usedParams == s.usedParams - {x}
    ensures G.PlanesAgree(after, g.Ends(x))
  {
  }

  lemma NotParams(s: Session, g: G.Guest, x: u32)
    requires G.Agrees(s, g) && !s.table.GuestObjectMatches(x, LinuxBufferParams)
    ensures s.pendingParams - {x} == s.pendingParams && s.usedParams - {x} == s.usedParams
  {
  }

  lemma DestroyForwardedSays(s: Session, h: Host, g: G.Guest, x: u32)
    requires Good(View(s), h) && G.Agrees(s, g) && s.Admits(x) && x in s.table.guestToHost && x != 1
    requires !s.table.GuestObjectMatches(x, WlBuffer)
    ensures Accounts(s, s.ForwardDestroy(x), g, DestroyForwarded(x))
  {
    hide Good, Accounts, s.ForwardDestroy, G.NumbersAgree, G.PlanesAgree;
    var after := s.ForwardDestroy(x);
    PlainObjectIs(View(s), h, x);
    ForwardDestroyView(s, x);
    AdmittedIsOwned(View(s), g, x);
    G.EndingAgrees(View(s), g, x);
    DestroyFrame(s, g, x);
    G.SameNumbersAgree(View(s).(pendingGuest := View(s).pendingGuest + {x}), View(after), g.Ends(x));
    EndedPlanes(s, after, g, x);
    Quietly(s, after, g, DestroyForwarded(x), [DestroyObject(s.table.guestToHost[x])]);
  }

  lemma DestroyFrame(s: Session, g: G.Guest, x: u32)
    requires G.Agrees(s, g) && s.Admits(x) && x in s.table.guestToHost
    ensures var after := s.ForwardDestroy(x);
            && after.toHost == s.toHost + [DestroyObject(s.table.guestToHost[x])] && after.toGuest == s.toGuest
            && after.pendingParams == s.pendingParams - {x} && after.usedParams == s.usedParams - {x}
  {
    hide G.Agrees, s.ForwardDestroy;
    if !s.table.GuestObjectMatches(x, LinuxBufferParams) {
      NotParams(s, g, x);
      PlainDestroyIs(s, x);
    } else {
      ParamsDestroyIs(s, x);
    }
  }

  lemma PlainDestroyIs(s: Session, x: u32)
    requires s.Admits(x) && x in s.table.guestToHost && !s.table.GuestObjectMatches(x, LinuxBufferParams)
    ensures var after := s.ForwardDestroy(x);
            after == s.(table := after.table, toHost := s.toHost + [DestroyObject(s.table.guestToHost[x])])
  {
    hide s.OnParamsDestroy, s.table.RemoveId, s.table.MarkPendingDestroy;
  }

  lemma OrphaningFrame(s: Session, x: u32)
    ensures var after := s.OnParamsDestroy(x);
            && after.toHost == s.toHost && after.toGuest == s.toGuest && after.table == s.table
            && after.pendingParams == s.pendingParams - {x} && after.usedParams == s.usedParams - {x}
  {
    hide PlaneFds;
  }

  lemma ParamsDestroyIs(s: Session, x: u32)
    requires s.Admits(x) && x in s.table.guestToHost && s.table.GuestObjectMatches(x, LinuxBufferParams)
    ensures var after := s.ForwardDestroy(x);
            && after.toHost == s.toHost + [DestroyObject(s.table.guestToHost[x])] && after.toGuest == s.toGuest
            && after.pendingParams == s.pendingParams - {x} && after.usedParams == s.usedParams - {x}
  {
    hide s.OnParamsDestroy, s.table.RemoveId, s.table.MarkPendingDestroy;
    OrphaningFrame(s, x);
  }

  // ---- buffers ----

  lemma BufferHasNoPlanes(s: Session, g: G.Guest, x: u32)
    requires G.Agrees(s, g) && s.table.GuestObjectMatches(x, WlBuffer)
    ensures s.pendingParams - {x} == s.pendingParams && s.usedParams - {x} == s.usedParams
  {
    hide G.NumbersAgree;
    NotParams(s, g, x);
  }

  lemma DeferFrame(s: Session, x: u32)
    requires s.Admits(x) && x in s.table.guestToHost && s.table.GuestObjectMatches(x, WlBuffer)
    ensures var after := s.DestroyBuffer(x, true); Quiet(s, after, []) && View(after) == View(s).Defer(x, WlBuffer)
  {
  }

  lemma DeferBufferSays(s: Session, g: G.Guest, x: u32)
    requires G.Agrees(s, g) && s.Admits(x) && x in s.table.guestToHost && s.table.GuestObjectMatches(x, WlBuffer)
    ensures Accounts(s, s.DestroyBuffer(x, true), g, DestroyBuffer(x, true))
  {
    hide Accounts, s.DestroyBuffer, G.NumbersAgree, G.PlanesAgree;
    var after := s.DestroyBuffer(x, true);
    DeferFrame(s, x);
    AdmittedIsOwned(View(s), g, x);
    G.DeferAgrees(View(s), g, x, WlBuffer);
    BufferHasNoPlanes(s, g, x);
    EndedPlanes(s, after, g, x);
    Quietly(s, after, g, DestroyBuffer(x, true), []);
  }

  lemma CompleteFrame(s: Session, x: u32)
    requires x in s.table.guestToHost
    requires x >= GUEST_SERVER_ID_START ==> s.table.guestToHost[x] in s.nativeBuffers
    ensures Quiet(s, s.CompleteBufferDestroy(x), [DestroyObject(s.table.guestToHost[x])])
  {
    hide s.table.RemoveId, s.table.MarkPendingDestroy;
  }

  lemma FreesIsEnds(after: Session, g: G.Guest, x: u32)
    requires x >= GUEST_SERVER_ID_START && G.NumbersAgree(View(after), g.Frees(x))
    ensures G.NumbersAgree(View(after), g.Ends(x))
  {
  }

  lemma CompletedAgrees(s: Session, h: Host, g: G.Guest, x: u32)
    requires Good(View(s), h) && G.Agrees(s, g) && s.Admits(x) && x in s.table.guestToHost
    requires x >= GUEST_SERVER_ID_START ==> s.table.guestToHost[x] in s.nativeBuffers
    ensures G.NumbersAgree(View(s.CompleteBufferDestroy(x)), g.Ends(x))
  {
    hide Good, s.CompleteBufferDestroy, G.NumbersAgree, G.PlanesAgree;
    var after := s.CompleteBufferDestroy(x);
    CompleteBufferView(s, x);
    if x >= GUEST_SERVER_ID_START {
      G.ForgetAgrees(View(s), g, x);
      FreesIsEnds(after, g, x);
    } else {
      G.EndingAgrees(View(s), g, x);
      G.SameNumbersAgree(View(s).(pendingGuest := View(s).pendingGuest + {x}), View(after), g.Ends(x));
    }
  }

  lemma CompleteNow(s: Session, x: u32)
    requires s.Admits(x) && x in s.table.guestToHost
    ensures s.DestroyBuffer(x, false) == s.CompleteBufferDestroy(x)
  {
    hide s.CompleteBufferDestroy;
  }

  lemma DestroyBufferSays(s: Session, h: Host, g: G.Guest, x: u32)
    requires Good(View(s), h) && G.Agrees(s, g)
    requires s.Admits(x) && x in s.table.guestToHost && s.table.GuestObjectMatches(x, WlBuffer)
    ensures Accounts(s, s.DestroyBuffer(x, false), g, DestroyBuffer(x, false))
  {
    hide Good, Accounts, s.DestroyBuffer, s.CompleteBufferDestroy, G.NumbersAgree, G.PlanesAgree;
    var after := s.DestroyBuffer(x, false);
    CompleteNow(s, x);
    DisplayIsNotABuffer(s, h, x);
    BufferIs(View(s), h, x);
    CompleteFrame(s, x);
    AdmittedIsOwned(View(s), g, x);
    CompletedAgrees(s, h, g, x);
    BufferHasNoPlanes(s, g, x);
    EndedPlanes(s, after, g, x);
    Quietly(s, after, g, DestroyBuffer(x, false), [DestroyObject(s.table.guestToHost[x])]);
  }

  lemma DeferredIs(s: Session, h: Host, host: u32)
    requires Good(View(s), h) && host in s.deferredBuffers
    ensures host in s.table.hostToGuest
    ensures var x := s.table.hostToGuest[host];
            && Lookup(s.table.guestToHost, x) == Some(host) && x in s.table.pendingDestroyGuestIds
            && (x >= GUEST_SERVER_ID_START ==> host in s.nativeBuffers)
  {
  }

  lemma RetiredAgrees(s: Session, g: G.Guest, x: u32)
    requires G.Agrees(s, g) && x in s.table.guestToHost && x in s.table.pendingDestroyGuestIds
    requires x >= GUEST_SERVER_ID_START ==> s.table.guestToHost[x] in s.nativeBuffers
    ensures G.NumbersAgree(View(s.CompleteBufferDestroy(x)), g)
  {
    hide s.CompleteBufferDestroy, G.NumbersAgree, G.PlanesAgree;
    CompleteBufferView(s, x);
    if x >= GUEST_SERVER_ID_START {
      G.RetireAgrees(View(s), g, x);
    } else {
      G.SameNumbersAgree(View(s), View(s.CompleteBufferDestroy(x)), g);
    }
  }

  lemma RetireBufferSays(s: Session, h: Host, g: G.Guest, host: u32)
    requires Good(View(s), h) && G.Agrees(s, g) && host in s.deferredBuffers
    requires host in s.table.hostToGuest && s.table.hostToGuest[host] in s.table.guestToHost
    ensures Accounts(s, s.RetireDeferred(host), g, RetireBuffer(host))
  {
    hide Good, Accounts, s.CompleteBufferDestroy, G.NumbersAgree, G.PlanesAgree;
    DeferredIs(s, h, host);
    var x := s.table.hostToGuest[host];
    CompleteFrame(s, x);
    RetiredAgrees(s, g, x);
    SamePlanesAgree(s, s.RetireDeferred(host), g);
    Quietly(s, s.RetireDeferred(host), g, RetireBuffer(host), [DestroyObject(host)]);
  }

  // ---- objects without a host destructor ----

  /** An admitted object without a host number is one the proxy serves. */
  lemma ServedIsOwned(i: Ids, g: G.Guest, x: u32)
    requires G.NumbersAgree(i, g) && x in i.interfaces && x !in i.pendingGuest
    ensures x in g.objects && x !in g.ended && g.objects[x].interface == i.interfaces[x]
    ensures g.objects[x].partner.None? <==> x !in i.guestToHost
  {
  }

  lemma DeletedPlanes(s: Session, after: Session, g: G.Guest, x: u32)
    requires G.PlanesAgree(s, g) && x !in g.planes && x !in g.used
    requires after.pendingParams == s.pendingParams && after.usedParams == s.usedParams
    ensures G.PlanesAgree(after, g.Ends(x).Frees(x))
  {
  }

  lemma EndsThenFrees(g: G.Guest, x: u32)
    requires x !in g.planes && x !in g.used
    ensures g.Ends(x).Frees(x) == g.Frees(x)
  {
    assert g.planes - {x} == g.planes && g.used - {x} == g.used;
    assert g.objects - {x} - {x} == g.objects - {x};
    assert g.ended + {x} - {x} == g.ended - {x} && g.ended - {x} - {x} == g.ended - {x};
  }

  lemma OthersHaveNoPlanes(s: Session, g: G.Guest, x: u32)
    requires G.PlanesAgree(s, g) && (x in g.objects ==> g.objects[x].interface != LinuxBufferParams)
    ensures x !in g.planes && x !in g.used
  {
  }

  lemma LocalDestroyFrame(s: Session, x: u32)
    requires s.Admits(x) && x in s.table.interfaces
    ensures var after := s.LocalDestroy(x);
            if x in s.table.guestToHost then after == s
            else && after.toHost == s.toHost && after.toGuest == s.toGuest + [DeleteId(x)]
                 && after.pendingParams == s.pendingParams && after.usedParams == s.usedParams
                 && View(after) == View(s).Unname(x)
  {
    LocalDestroyView(s, x);
  }

  lemma DestroyLocalSays(s: Session, h: Host, g: G.Guest, x: u32)
    requires Good(View(s), h) && G.Agrees(s, g) && s.Admits(x) && s.table.IsLocalOnlyGuestObject(x)
    ensures Accounts(s, s.LocalDestroy(x), g, DestroyLocal(x))
  {
    hide Good, Accounts, s.LocalDestroy, G.NumbersAgree, G.PlanesAgree;
    var after := s.LocalDestroy(x);
    LocalDestroyFrame(s, x);
    ServedIsOwned(View(s), g, x);
    if x in s.table.guestToHost {
      Quietly(s, after, g, DestroyLocal(x), []);
    } else {
      OthersHaveNoPlanes(s, g, x);
      G.UnnameAgrees(View(s), g, x);
      EndsThenFrees(g, x);
      SamePlanesAgree(s, after, g);
      DeletedPlanes(s, after, g, x);
      WithOne(s, after, g, DestroyLocal(x), [], DeleteId(x));
    }
  }

  lemma TextInputFrame(s: Session, x: u32)
    requires s.Admits(x) && s.table.GuestObjectMatches(x, TextInputV3)
    ensures var after := s.DestroyWithoutHostDestructor(x);
            && after.toHost == s.toHost && after.toGuest == s.toGuest + [DeleteId(x)]
            && after.pendingParams == s.pendingParams && after.usedParams == s.usedParams
  {
    hide s.table.RemoveGuestMapping;
  }

  lemma DestroyTextInputSays(s: Session, h: Host, g: G.Guest, x: u32)
    requires Good(View(s), h) && G.Agrees(s, g) && s.Admits(x) && s.table.GuestObjectMatches(x, TextInputV3)
    ensures Accounts(s, s.DestroyWithoutHostDestructor(x), g, DestroyTextInput(x))
  {
    hide Good, Accounts, s.DestroyWithoutHostDestructor, G.NumbersAgree, G.PlanesAgree;
    var after := s.DestroyWithoutHostDestructor(x);
    DisplayIsNotABuffer(s, h, x);
    TextInputDestroyView(s, x);
    TextInputFrame(s, x);
    ServedIsOwned(View(s), g, x);
    OthersHaveNoPlanes(s, g, x);
    G.UnpairAgrees(View(s), g, x, TextInputV3);
    EndsThenFrees(g, x);
    DeletedPlanes(s, after, g, x);
    WithOne(s, after, g, DestroyTextInput(x), [], DeleteId(x));
  }

  // ---- planes and creates ----

  lemma AddDoes(s: Session, params: u32, plane: Plane, duplicate: Option<Fd>)
    requires !s.fatal && !s.OnAdd(params, plane, duplicate).fatal
    ensures var after := s.OnAdd(params, plane, duplicate);
            && after.usedParams == s.usedParams
            && after.pendingParams ==
                 if plane.fd >= 0 && duplicate.Some? && params in s.pendingParams
                 then s.pendingParams[params := s.pendingParams[params] + [G.Copy(plane, duplicate.value)]]
                 else s.pendingParams
  {
    hide s.Admits;
    if plane.fd < 0 {
    } else if duplicate.None? {
    } else if params !in s.pendingParams {
    } else {
    }
  }

  lemma AddedPlanes(s: Session, after: Session, g: G.Guest, params: u32, planes: seq<Plane>)
    requires G.PlanesAgree(s, g) && params in g.planes
    requires after.pendingParams == s.pendingParams[params := planes] && after.usedParams == s.usedParams
    ensures G.PlanesAgree(after, g.(planes := g.planes[params := planes]))
  {
  }

  lemma NumbersOnly(i: Ids, g: G.Guest, planes: map<u32, seq<Plane>>)
    requires G.NumbersAgree(i, g)
    ensures G.NumbersAgree(i, g.(planes := planes))
  {
  }

  lemma AddSays(s: Session, g: G.Guest, params: u32, plane: Plane, duplicate: Option<Fd>)
    requires G.Agrees(s, g) && !s.fatal && !s.OnAdd(params, plane, duplicate).fatal
    ensures Accounts(s, s.OnAdd(params, plane, duplicate), g, Add(params, plane, duplicate))
  {
    hide Accounts, s.OnAdd, G.NumbersAgree, G.PlanesAgree;
    var after := s.OnAdd(params, plane, duplicate);
    AddFrame(s, params, plane, duplicate);
    AddKeeps(s, params, plane, duplicate);
    AddDoes(s, params, plane, duplicate);
    PlanesAre(s, g);
    if plane.fd >= 0 && duplicate.Some? && params in g.planes {
      AddedPlanes(s, after, g, params, after.pendingParams[params]);
      NumbersOnly(View(s), g, g.planes[params := after.pendingParams[params]]);
    } else {
      SamePlanesAgree(s, after, g);
    }
    Quietly(s, after, g, Add(params, plane, duplicate), []);
  }

  lemma PlanesAre(s: Session, g: G.Guest)
    requires G.PlanesAgree(s, g)
    ensures s.pendingParams == g.planes && s.usedParams == g.used
  {
  }

  /** A params object with planes is owned by the guest. */
  lemma CollectorIsOwned(s: Session, g: G.Guest, params: u32)
    requires G.Agrees(s, g) && params in s.pendingParams
    ensures params in g.planes && params in g.objects && params in s.table.guestToHost
    ensures g.objects[params].partner == Some(s.table.guestToHost[params])
    ensures s.pendingParams[params] == g.planes[params]
  {
  }

  lemma ConsumedPlanes(s: Session, after: Session, g: G.Guest, params: u32)
    requires G.PlanesAgree(s, g) && params in g.planes
    requires after.pendingParams == s.pendingParams - {params} && after.usedParams == s.usedParams + {params}
    ensures G.PlanesAgree(after, g.Consumes(params))
  {
  }

  lemma CreateSays(s: Session, g: G.Guest, params: u32, request: BufferRequest, syncFds: Option<seq<Fd>>)
    requires G.Agrees(s, g) && params in s.table.guestToHost
    requires !s.fatal && !s.OnCreate(params, request, syncFds).fatal
    ensures Accounts(s, s.OnCreate(params, request, syncFds), g, Create(params, request, syncFds))
  {
    hide Accounts, s.OnCreate, G.NumbersAgree, G.PlanesAgree, s.Admits, AddPlanes;
    var after := s.OnCreate(params, request, syncFds);
    CreateAccepted(s, params, request, syncFds);
    CollectorIsOwned(s, g, params);
    ConsumedPlanes(s, after, g, params);
    G.PlanesDoNotCount(View(s), g, params);
    G.SameNumbersAgree(View(s), View(after), g.Consumes(params));
    var host := s.table.guestToHost[params];
    Quietly(s, after, g, Create(params, request, syncFds),
            AddPlanes(host, s.pendingParams[params]) + [CreateAsync(host, request)]);
  }

  lemma MappedFrame(t: Table, buffer: u32, host: u32, version: u32)
    requires !t.IsGuestKnown(buffer) && !t.IsHostReserved(host)
    ensures var r := t.AdvanceHostCursor(host).MapId(buffer, host)
                       .TrackInterfaceWithVersion(buffer, WlBuffer, version).SetHostVersion(host, version);
            && r.guestToHost == t.guestToHost[buffer := host] && r.interfaces == t.interfaces[buffer := WlBuffer]
            && r.pendingDestroyGuestIds == t.pendingDestroyGuestIds
  {
    hide t.MapId;
    MapFresh(t.AdvanceHostCursor(host), buffer, host);
  }

  lemma ImmediateTable(s: Session, params: u32, buffer: u32, request: BufferRequest, host: u32, syncFds: Option<seq<Fd>>)
    requires params in s.table.guestToHost && params in s.pendingParams && !s.fatal
    requires !s.OnCreateImmed(params, buffer, request, host, syncFds).fatal && s.table.IsHostIdAvailable(host)
    ensures var r := s.OnCreateImmed(params, buffer, request, host, syncFds).table;
            && r.guestToHost == s.table.guestToHost[buffer := host]
            && r.interfaces == s.table.interfaces[buffer := WlBuffer]
            && r.pendingDestroyGuestIds == s.table.pendingDestroyGuestIds
  {
    hide s.OnCreateImmed, s.Admits, s.table.MapId;
    CreateImmedAccepted(s, params, buffer, request, host, syncFds);
    var version :| s.OnCreateImmed(params, buffer, request, host, syncFds).table
                   == s.table.AdvanceHostCursor(host).MapId(buffer, host)
                        .TrackInterfaceWithVersion(buffer, WlBuffer, version).SetHostVersion(host, version);
    MappedFrame(s.table, buffer, host, version);
  }

  /** The buffer is the guest's at once. */
  lemma ImmediateNumbers(s: Session, h: Host, g: G.Guest, params: u32, buffer: u32, request: BufferRequest, host: u32,
      syncFds: Option<seq<Fd>>)
    requires Good(View(s), h) && G.Agrees(s, g) && params in s.table.guestToHost && params in s.pendingParams && !s.fatal
    requires !s.OnCreateImmed(params, buffer, request, host, syncFds).fatal && s.table.IsHostIdAvailable(host)
    ensures !s.table.IsGuestKnown(buffer)
    ensures G.NumbersAgree(View(s.OnCreateImmed(params, buffer, request, host, syncFds)), g.Takes(buffer, WlBuffer, Some(host)))
  {
    hide Good, s.OnCreateImmed, s.Admits, G.NumbersAgree, G.PlanesAgree;
    var after := s.OnCreateImmed(params, buffer, request, host, syncFds);
    CreateImmedAccepted(s, params, buffer, request, host, syncFds);
    ImmediateTable(s, params, buffer, request, host, syncFds);
    FreshIsQuiet(s, h, g, buffer);
    G.PairAgrees(View(s), g, buffer, host, WlBuffer);
    G.SameNumbersAgree(View(s).Pair(buffer, host, WlBuffer), View(after), g.Takes(buffer, WlBuffer, Some(host)));
  }

  lemma TakesThenConsumes(s: Session, after: Session, g: G.Guest, params: u32, buffer: u32, host: u32)
    requires G.PlanesAgree(s, g) && params in g.planes && buffer !in g.planes && buffer !in g.used
    requires after.pendingParams == s.pendingParams - {params} && after.usedParams == s.usedParams + {params}
    ensures G.PlanesAgree(after, g.Takes(buffer, WlBuffer, Some(host)).Consumes(params))
  {
  }

  lemma CreateImmedSays(s: Session, h: Host, g: G.Guest, params: u32, buffer: u32, request: BufferRequest, host: u32,
      syncFds: Option<seq<Fd>>)
    requires Good(View(s), h) && G.Agrees(s, g) && params in s.table.guestToHost && s.table.IsHostIdAvailable(host)
    requires !s.fatal && !s.OnCreateImmed(params, buffer, request, host, syncFds).fatal
    ensures Accounts(s, s.OnCreateImmed(params, buffer, request, host, syncFds), g,
                     CreateImmed(params, buffer, request, host, syncFds))
  {
    hide Good, Accounts, s.OnCreateImmed, G.NumbersAgree, G.PlanesAgree, s.Admits, AddPlanes;
    var after := s.OnCreateImmed(params, buffer, request, host, syncFds);
    var e := CreateImmed(params, buffer, request, host, syncFds);
    PlanesAre(s, g);
    if params !in s.pendingParams {
      CreateImmedIgnored(s, params, buffer, request, host, syncFds);
      Quietly(s, after, g, e, []);
    } else {
      CreateImmedAccepted(s, params, buffer, request, host, syncFds);
      CollectorIsOwned(s, g, params);
      ImmediateNumbers(s, h, g, params, buffer, request, host, syncFds);
      FreshIsQuiet(s, h, g, buffer);
      TakesThenConsumes(s, after, g, params, buffer, host);
      G.PlanesDoNotCount(View(after), g.Takes(buffer, WlBuffer, Some(host)), params);
      var target := s.table.guestToHost[params];
      Quietly(s, after, g, e, AddPlanes(target, s.pendingParams[params]) + [CreateImmediate(target, host, request)]);
    }
  }

  // ---- events ----

  /** The guest owns what is paired and not ended, and nothing else. */
  lemma OwnerIs(i: Ids, h: Host, g: G.Guest, host: u32)
    requires Good(i, h) && G.NumbersAgree(i, g)
    ensures forall x :: g.Owns(x, host) ==> host in i.hostToGuest && i.hostToGuest[host] == x && x !in i.pendingGuest
    ensures host in i.hostToGuest && i.hostToGuest[host] !in i.pendingGuest ==> g.Owns(i.hostToGuest[host], host)
  {
  }

  lemma BarrierFrame(s: Session, host: u32, data: u32)
    requires host in s.barriers || host !in s.table.hostToGuest || s.table.IsPendingDestroyHost(host)
    ensures var after := s.OnDone(host, data);
            && Quiet(s, after, []) && after.table.guestToHost == s.table.guestToHost
            && after.table.interfaces == s.table.interfaces
            && after.table.pendingDestroyGuestIds == s.table.pendingDestroyGuestIds
  {
  }

  lemma GuestDoneFrame(s: Session, host: u32, data: u32)
    requires host !in s.barriers && host in s.table.hostToGuest && !s.table.IsPendingDestroyHost(host)
    ensures var after := s.OnDone(host, data);
            var x := s.table.hostToGuest[host];
            && after.toHost == s.toHost && after.toGuest == s.toGuest + [Done(x, data), DeleteId(x)]
            && after.pendingParams == s.pendingParams && after.usedParams == s.usedParams
  {
    hide s.table.RetireServerDestroyedObject;
  }

  lemma FreedPlanes(s: Session, after: Session, g: G.Guest, x: u32)
    requires G.PlanesAgree(s, g) && x !in g.planes && x !in g.used
    requires after.pendingParams == s.pendingParams && after.usedParams == s.usedParams
    ensures G.PlanesAgree(after, g.Frees(x))
  {
  }

  lemma GuestDoneSays(s: Session, h: Host, g: G.Guest, host: u32, data: u32)
    requires Good(View(s), h) && G.Agrees(s, g) && host !in s.barriers
    requires s.table.EventInterface(host) == Some(WlCallback) && !s.table.IsPendingDestroyHost(host)
    ensures Accounts(s, s.OnDone(host, data), g, CallbackDone(host, data))
  {
    hide Good, Accounts, s.OnDone, G.NumbersAgree, G.PlanesAgree, MapsOk, NamesOk, RecordsOk, CreatesOk, HostOk;
    var after, e := s.OnDone(host, data), CallbackDone(host, data);
    GoodParts(View(s), h);
    CallbackIs(View(s), h, host);
    var x := s.table.hostToGuest[host];
    HostNamesGuest(s, h, host);
    GuestDoneView(s, host, data);
    GuestDoneFrame(s, host, data);
    OwnerIs(View(s), h, g, host);
    ServedIsOwned(View(s), g, x);
    OthersHaveNoPlanes(s, g, x);
    G.EndAgrees(View(s), g, x);
    FreedPlanes(s, after, g, x);
    assert g.Owns(x, host);
    WithTwo(s, after, g, e, Done(x, data), DeleteId(x));
  }

  lemma GoodParts(i: Ids, h: Host)
    requires Good(i, h)
    ensures MapsOk(i) && NamesOk(i) && RecordsOk(i) && CreatesOk(i, h) && HostOk(i, h)
  {
    hide MapsOk, NamesOk, RecordsOk, CreatesOk, HostOk, DiesOk;
  }

  lemma DoneSays(s: Session, h: Host, g: G.Guest, host: u32, data: u32)
    requires Good(View(s), h) && G.Agrees(s, g) && s.table.EventInterface(host) == Some(WlCallback)
    ensures Accounts(s, s.OnDone(host, data), g, CallbackDone(host, data))
  {
    hide Good, Accounts, s.OnDone, G.NumbersAgree, G.PlanesAgree, MapsOk, NamesOk, RecordsOk, CreatesOk, HostOk;
    if host in s.barriers || s.table.IsPendingDestroyHost(host) {
      GoodParts(View(s), h);
      CallbackIs(View(s), h, host);
      BarrierFrame(s, host, data);
      OwnerIs(View(s), h, g, host);
      WithoutGuest(s, s.OnDone(host, data), g, CallbackDone(host, data), []);
    } else {
      GuestDoneSays(s, h, g, host, data);
    }
  }

  lemma AcknowledgeFrame(s: Session, host: u32)
    requires host in s.table.pendingDestroyHostIds
    ensures var after := s.OnDeleteId(host);
            && Quiet(s, after, []) && after.table.guestToHost == s.table.guestToHost
            && after.table.interfaces == s.table.interfaces
            && after.table.pendingDestroyGuestIds == s.table.pendingDestroyGuestIds
  {
  }

  lemma DeletedFrame(s: Session, host: u32)
    requires host !in s.table.pendingDestroyHostIds && host in s.table.hostToGuest
    requires host in s.orphanedParams ==>
               s.orphanedParams[host] == s.table.hostToGuest[host] && s.table.hostToGuest[host] in s.table.interfaces
    ensures var after := s.OnDeleteId(host);
            && after.toHost == s.toHost && after.toGuest == s.toGuest + [DeleteId(s.table.hostToGuest[host])]
            && after.pendingParams == s.pendingParams && after.usedParams == s.usedParams
  {
    hide s.table.RemoveId, s.table.RemoveGuestMapping, s.table.ClearPendingDestroyGuest, s.RemoveNativeBuffer, s.CloseSync;
    ResourcesAside(s, host);
  }

  /** Dropping a buffer's or a create's descriptors says nothing. */
  lemma ResourcesAside(s: Session, host: u32)
    ensures Quiet(s, s.RemoveNativeBuffer(host), []) && s.RemoveNativeBuffer(host).table == s.table
    ensures Quiet(s, s.CloseSync(host), []) && s.CloseSync(host).table == s.table
    ensures var after := s.RemoveNativeBuffer(host).CloseSync(host); Quiet(s, after, []) && after.table == s.table
  {
  }

  /** A number waiting for `delete_id` is nobody's, any other is that of an ended object. */
  lemma DeletedIs(i: Ids, h: Host, g: G.Guest, host: u32)
    requires Good(i, h) && G.NumbersAgree(i, g) && host in h.dying
    ensures host in i.pendingHost ==> forall x :: x in g.objects ==> g.objects[x].partner != Some(host)
    ensures host !in i.pendingHost ==>
              && host in i.hostToGuest && i.hostToGuest[host] in g.ended && i.hostToGuest[host] in g.objects
              && g.objects[i.hostToGuest[host]].partner == Some(host)
              && forall x :: x in g.objects && g.objects[x].partner == Some(host) ==> x == i.hostToGuest[host]
  {
    DyingIs(i, h, host);
  }

  lemma EndedHaveNoPlanes(s: Session, g: G.Guest, x: u32)
    requires G.PlanesAgree(s, g) && x in g.ended
    ensures x !in g.planes && x !in g.used
  {
  }

  lemma DeletedNumbers(s: Session, h: Host, g: G.Guest, host: u32)
    requires Good(View(s), h) && G.NumbersAgree(View(s), g) && host in h.dying && host !in s.table.pendingDestroyHostIds
    ensures host in s.table.hostToGuest
    ensures G.NumbersAgree(View(s.OnDeleteId(host)), g.Frees(s.table.hostToGuest[host]))
  {
    hide Good, s.OnDeleteId, G.NumbersAgree, MapsOk, NamesOk, RecordsOk, CreatesOk, HostOk;
    GoodParts(View(s), h);
    DyingIs(View(s), h, host);
    HostNamesGuest(s, h, host);
    var x := s.table.hostToGuest[host];
    if host in s.orphanedParams {
      OrphanDeletedView(s, host);
      G.UnpairAgrees(View(s), g, x, LinuxBufferParams);
    } else {
      ObjectDeletedView(s, host);
      G.ForgetAgrees(View(s), g, x);
    }
  }

  lemma DeleteIdSays(s: Session, h: Host, g: G.Guest, host: u32)
    requires Good(View(s), h) && G.Agrees(s, g) && host in h.dying
    ensures Accounts(s, s.OnDeleteId(host), g, HostDeleteId(host))
  {
    hide Good, Accounts, s.OnDeleteId, G.NumbersAgree, G.PlanesAgree, MapsOk, NamesOk, RecordsOk, CreatesOk, HostOk;
    var after, e := s.OnDeleteId(host), HostDeleteId(host);
    DeletedIs(View(s), h, g, host);
    if host in s.table.pendingDestroyHostIds {
      AcknowledgeFrame(s, host);
      WithoutGuest(s, after, g, e, []);
    } else {
      GoodParts(View(s), h);
      DyingIs(View(s), h, host);
      var x := s.table.hostToGuest[host];
      DeletedFrame(s, host);
      DeletedNumbers(s, h, g, host);
      EndedHaveNoPlanes(s, g, x);
      FreedPlanes(s, after, g, x);
      WithOne(s, after, g, e, [], DeleteId(x));
    }
  }

  lemma DiscardFrame(s: Session, params: u32, buffer: u32)
    ensures Quiet(s, s.DiscardHostBuffer(params, buffer), [DestroyObject(buffer)])
    ensures var t := s.DiscardHostBuffer(params, buffer).table;
            && t.guestToHost == s.table.guestToHost && t.hostToGuest == s.table.hostToGuest
            && t.interfaces == s.table.interfaces && t.pendingDestroyGuestIds == s.table.pendingDestroyGuestIds
  {
    hide s.CloseSync;
    ResourcesAside(s, params);
  }

  lemma ReleaseFrame(s: Session, params: u32)
    ensures Quiet(s, s.ReleaseOrphan(params), [])
    ensures var t := s.ReleaseOrphan(params).table;
            && t.guestToHost == s.table.guestToHost && t.interfaces == s.table.interfaces
            && t.pendingDestroyGuestIds == s.table.pendingDestroyGuestIds
  {
  }

  lemma OrphanAnnouncedFrame(s: Session, params: u32, buffer: u32, id: u32)
    requires params in s.orphanedParams && s.table.IsEventSenderKnown(params) && s.table.IsHostIdAvailable(buffer)
    ensures var after := s.OnCreated(params, buffer, id);
            && Quiet(s, after, [DestroyObject(buffer)]) && after.table.guestToHost == s.table.guestToHost
            && after.table.interfaces == s.table.interfaces
            && after.table.pendingDestroyGuestIds == s.table.pendingDestroyGuestIds
  {
    hide s.DiscardHostBuffer, s.ReleaseOrphan;
    DiscardFrame(s, params, buffer);
    ReleaseFrame(s.DiscardHostBuffer(params, buffer), params);
  }

  lemma OrphansHaveNoOwner(i: Ids, h: Host, g: G.Guest, params: u32)
    requires Good(i, h) && G.NumbersAgree(i, g) && params in i.orphans
    ensures forall x :: !g.Owns(x, params)
  {
    hide Good;
    OwnerIs(i, h, g, params);
    GoodParts(i, h);
    hide MapsOk, NamesOk, RecordsOk, HostOk, G.NumbersAgree;
  }

  lemma OrphanAnnouncedSays(s: Session, h: Host, g: G.Guest, params: u32, buffer: u32, id: u32)
    requires Good(View(s), h) && G.Agrees(s, g) && params in h.unanswered
    requires params in s.orphanedParams && s.table.IsHostIdAvailable(buffer)
    ensures Accounts(s, s.OnCreated(params, buffer, id), g, BufferAnnounced(params, buffer, id))
  {
    hide Good, Accounts, s.OnCreated, G.NumbersAgree, G.PlanesAgree, MapsOk, NamesOk, RecordsOk, CreatesOk, HostOk;
    GoodParts(View(s), h);
    UnansweredIs(s, h, params);
    OrphanAnnouncedFrame(s, params, buffer, id);
    OrphansHaveNoOwner(View(s), h, g, params);
    WithoutGuest(s, s.OnCreated(params, buffer, id), g, BufferAnnounced(params, buffer, id), [DestroyObject(buffer)]);
  }

  /** The create is live, and what is announced can be taken. */
  predicate Awaits(s: Session, params: u32, buffer: u32, id: u32) {
    && params in s.pendingCreates && params !in s.orphanedParams
    && params in s.table.hostToGuest && s.table.hostToGuest[params] == s.pendingCreates[params].guestParams
    && s.table.hostToGuest[params] !in s.table.pendingDestroyGuestIds
    && s.table.IsHostIdAvailable(buffer) && buffer !in s.nativeBuffers
    && s.table.IsGuestServerIdFree(id)
  }

  lemma LiveAnnouncedFrame(s: Session, params: u32, buffer: u32, id: u32)
    requires Awaits(s, params, buffer, id)
    ensures var after := s.OnCreated(params, buffer, id);
            && after.toHost == s.toHost && after.toGuest == s.toGuest + [Created(s.table.hostToGuest[params], id)]
            && after.pendingParams == s.pendingParams && after.usedParams == s.usedParams
            && View(after) == View(s).Expose(params, id, buffer)
  {
    hide s.table.MapId;
    CreatedLiveView(s, params, buffer, id);
    MapFresh(s.table.AdvanceGuestServerCursor(id), id, buffer);
  }

  lemma LiveAnnouncedSays(s: Session, h: Host, g: G.Guest, params: u32, buffer: u32, id: u32)
    requires Good(View(s), h) && G.Agrees(s, g) && Awaits(s, params, buffer, id)
    ensures Accounts(s, s.OnCreated(params, buffer, id), g, BufferAnnounced(params, buffer, id))
  {
    hide Good, Accounts, s.OnCreated, G.NumbersAgree, G.PlanesAgree;
    var after, e := s.OnCreated(params, buffer, id), BufferAnnounced(params, buffer, id);
    LiveAnnouncedFrame(s, params, buffer, id);
    var x := s.table.hostToGuest[params];
    OwnerIs(View(s), h, g, params);
    assert g.Owns(x, params);
    FreshIsQuiet(s, h, g, id);
    G.ExposeAgrees(View(s), g, params, id, buffer);
    TakesKeepsPlanes(s, after, g, id, WlBuffer, Some(buffer));
    WithOne(s, after, g, e, [], Created(x, id));
  }

  lemma AwaitsIs(s: Session, h: Host, params: u32, buffer: u32, id: u32)
    requires Good(View(s), h) && params in h.unanswered && params !in s.orphanedParams
    requires s.table.IsHostIdAvailable(buffer) && s.table.IsGuestServerIdFree(id)
    ensures Awaits(s, params, buffer, id)
  {
    UnansweredIs(s, h, params);
  }

  lemma FailedFrame(s: Session, params: u32)
    requires s.table.IsEventSenderKnown(params) && (params in s.orphanedParams <==> params !in s.pendingCreates)
    requires params in s.pendingCreates ==>
               && params in s.table.hostToGuest && s.table.hostToGuest[params] == s.pendingCreates[params].guestParams
               && s.table.hostToGuest[params] !in s.table.pendingDestroyGuestIds
    ensures var after := s.OnFailed(params);
            && after.toHost == s.toHost
            && after.toGuest == (if params in s.orphanedParams then s.toGuest
                                 else s.toGuest + [Failed(s.table.hostToGuest[params])])
            && after.pendingParams == s.pendingParams && after.usedParams == s.usedParams
            && after.table.guestToHost == s.table.guestToHost && after.table.interfaces == s.table.interfaces
            && after.table.pendingDestroyGuestIds == s.table.pendingDestroyGuestIds
  {
    hide s.CloseSync, s.ReleaseOrphan;
    ResourcesAside(s, params);
    if params in s.orphanedParams {
      ReleaseFrame(s.CloseSync(params).(orphanedParams := s.orphanedParams - {params}), params);
    }
  }

  lemma FailedSays(s: Session, h: Host, g: G.Guest, params: u32)
    requires Good(View(s), h) && G.Agrees(s, g) && params in h.unanswered
    ensures Accounts(s, s.OnFailed(params), g, CreateFailed(params))
  {
    hide Good, Accounts, s.OnFailed, G.NumbersAgree, G.PlanesAgree, MapsOk, NamesOk, RecordsOk, CreatesOk, HostOk;
    var after, e := s.OnFailed(params), CreateFailed(params);
    GoodParts(View(s), h);
    UnansweredIs(s, h, params);
    FailedFrame(s, params);
    SamePlanesAgree(s, after, g);
    G.SameNumbersAgree(View(s), View(after), g);
    if params in s.orphanedParams {
      OrphansHaveNoOwner(View(s), h, g, params);
      Quietly(s, after, g, e, []);
    } else {
      var x := s.table.hostToGuest[params];
      OwnerIs(View(s), h, g, params);
      assert g.Owns(x, params);
      WithOne(s, after, g, e, [], Failed(x));
    }
  }

  // ---- every step ----

  lemma NewObjectSays(w: World, g: G.Guest, e: Event)
    requires Inv(w) && Enabled(w, e) && G.Agrees(w.session, g) && !Step(w, e).session.fatal
    requires e.NewForwarded? || e.NewFromDisplay? || e.NewTextInput? || e.NewLocal? || e.NewHostOnly?
    ensures Accounts(w.session, Step(w, e).session, g, e)
  {
    hide Good, Accounts, G.Agrees;
    var s, h := w.session, w.host;
    match e
    case NewForwarded(sender, id, interface, host) => NewForwardedSays(s, h, g, sender, id, interface, host);
    case NewFromDisplay(id, interface, host) => NewFromDisplaySays(s, h, g, id, interface, host);
    case NewTextInput(id, host) => NewTextInputSays(s, h, g, id, host);
    case NewLocal(id, interface) => NewLocalSays(s, h, g, id, interface);
    case NewHostOnly(interface, version, host) => HostOnlySays(s, g, interface, version, host);
  }

  lemma DestroySays(w: World, g: G.Guest, e: Event)
    requires Inv(w) && Enabled(w, e) && G.Agrees(w.session, g) && !Step(w, e).session.fatal
    requires e.DestroyForwarded? || e.DestroyBuffer? || e.RetireBuffer? || e.DestroyLocal? || e.DestroyTextInput?
             || e.DestroyHostOnly? || e.RetireHostOnly?
    ensures Accounts(w.session, Step(w, e).session, g, e)
  {
    hide Good, Accounts, G.Agrees;
    var s, h := w.session, w.host;
    match e
    case DestroyForwarded(x) => DestroyForwardedSays(s, h, g, x);
    case DestroyBuffer(x, deferred) =>
      if deferred {
        DeferBufferSays(s, g, x);
      } else {
        DestroyBufferSays(s, h, g, x);
      }
    case RetireBuffer(host) => RetireBufferSays(s, h, g, host);
    case DestroyLocal(x) => DestroyLocalSays(s, h, g, x);
    case DestroyTextInput(x) => DestroyTextInputSays(s, h, g, x);
    case DestroyHostOnly(host) => HostOnlySays(s, g, WlDisplay, 0, host);
    case RetireHostOnly(host) => HostOnlySays(s, g, WlDisplay, 0, host);
  }

  lemma ParamsSay(w: World, g: G.Guest, e: Event)
    requires Inv(w) && Enabled(w, e) && G.Agrees(w.session, g) && !Step(w, e).session.fatal
    requires e.Add? || e.Create? || e.CreateImmed?
    ensures Accounts(w.session, Step(w, e).session, g, e)
  {
    hide Good, Accounts, G.Agrees;
    var s, h := w.session, w.host;
    hide s.OnAdd, s.OnCreate, s.OnCreateImmed;
    match e
    case Add(params, plane, duplicate) => AddSays(s, g, params, plane, duplicate);
    case Create(params, request, syncFds) => CreateSays(s, g, params, request, syncFds);
    case CreateImmed(params, buffer, request, host, syncFds) => CreateImmedSays(s, h, g, params, buffer, request, host, syncFds);
  }

  lemma HostEventSays(w: World, g: G.Guest, e: Event)
    requires Inv(w) && Enabled(w, e) && G.Agrees(w.session, g) && !Step(w, e).session.fatal
    requires e.CallbackDone? || e.HostDeleteId? || e.BufferAnnounced? || e.CreateFailed?
    ensures Accounts(w.session, Step(w, e).session, g, e)
  {
    hide Good, Accounts, G.Agrees;
    var s, h := w.session, w.host;
    hide s.OnDone, s.OnDeleteId, s.OnCreated, s.OnFailed;
    match e
    case CallbackDone(host, data) => DoneSays(s, h, g, host, data);
    case HostDeleteId(host) => DeleteIdSays(s, h, g, host);
    case BufferAnnounced(params, buffer, id) =>
      if !s.table.IsHostIdAvailable(buffer) {
        BadBufferIsFatal(s, h, params, buffer, id);
      } else if params in s.orphanedParams {
        OrphanAnnouncedSays(s, h, g, params, buffer, id);
      } else {
        AwaitsIs(s, h, params, buffer, id);
        LiveAnnouncedSays(s, h, g, params, buffer, id);
      }
    case CreateFailed(params) => FailedSays(s, h, g, params);
  }

  /** What every step that does not end the connection says to either side, and that the
      proxy's bookkeeping goes on agreeing with the guest's account. */
  lemma StepAccounts(w: World, g: G.Guest, e: Event)
    requires Inv(w) && Enabled(w, e) && G.Agrees(w.session, g) && !Step(w, e).session.fatal
    ensures Accounts(w.session, Step(w, e).session, g, e)
  {
    hide Inv, Enabled, Step, Accounts, G.Agrees;
    if e.NewForwarded? || e.NewFromDisplay? || e.NewTextInput? || e.NewLocal? || e.NewHostOnly? {
      NewObjectSays(w, g, e);
    } else if e.Add? || e.Create? || e.CreateImmed? {
      ParamsSay(w, g, e);
    } else if e.CallbackDone? || e.HostDeleteId? || e.BufferAnnounced? || e.CreateFailed? {
      HostEventSays(w, g, e);
    } else {
      DestroySays(w, g, e);
    }
  }
}

/**
 Every step of the protocol keeps the invariant.

 Each handler is shown to perform a few moves of the `Lifecycle` machine (the
 lemmas named `...View`), so that the moves' own proofs apply (`...Keeps`).
 */
module ProtocolSteps {
  import opened Prelude
  import opened ShadowTables
  import opened DmabufParams
  import opened Sessions
  import opened Lifecycle
  import opened Protocol

  lemma HearsOne(h: Host, before: seq<HostMessage>, m: HostMessage)
    ensures HearsAll(h, Sent(before, before + [m])) == Hears(h, m)
  {
    assert Sent(before, before + [m]) == [m];
    assert [m][..0] == [];
  }

  lemma HearsNothing(h: Host, before: seq<HostMessage>)
    ensures HearsAll(h, Sent(before, before)) == h
  {
  }

  lemma {:induction false} HearsPlanes(h: Host, params: u32, planes: seq<Plane>)
    ensures HearsAll(h, AddPlanes(params, planes)) == h
  {
    if planes != [] {
      var last := |planes| - 1;
      assert AddPlanes(params, planes)[..last] == AddPlanes(params, planes[..last]);
      HearsPlanes(h, params, planes[..last]);
    }
  }

  lemma HearsCreate(h: Host, before: seq<HostMessage>, params: u32, planes: seq<Plane>, create: HostMessage)
    ensures HearsAll(h, Sent(before, before + AddPlanes(params, planes) + [create])) == Hears(h, create)
  {
    var ms := AddPlanes(params, planes) + [create];
    assert Sent(before, before + AddPlanes(params, planes) + [create]) == ms;
    assert ms[..|ms| - 1] == AddPlanes(params, planes);
    HearsPlanes(h, params, planes);
  }

  // ---- every handler is a few moves of the abstract machine ----

  lemma NewForwardedKeeps(s: Session, h: Host, sender: u32, id: u32, interface: Interface, host: u32)
    requires Good(View(s), h) && s.Admits(sender)
    requires s.table.IsGuestIdAvailable(id) && s.table.IsHostIdAvailable(host)
    ensures Good(View(s.ForwardNew(sender, id, interface, host)), h.Learns(host))
  {
    MapFresh(s.table.AdvanceHostCursor(host), id, host);
    PairKeepsGood(View(s), h, id, host, interface);
    assert View(s.ForwardNew(sender, id, interface, host)) == View(s).Pair(id, host, interface);
  }

  lemma NewFromDisplayKeeps(s: Session, h: Host, id: u32, interface: Interface, host: u32)
    requires Good(View(s), h)
    requires s.table.IsGuestIdAvailable(id) && s.table.IsHostIdAvailable(host)
    ensures Good(View(s.DisplayNew(id, interface, host)), h.Learns(host))
  {
    MapFresh(s.table.AdvanceHostCursor(host), id, host);
    PairKeepsGood(View(s), h, id, host, interface);
    assert View(s.DisplayNew(id, interface, host)) == View(s).Pair(id, host, interface);
  }

  lemma NewTextInputKeeps(s: Session, h: Host, id: u32, host: u32)
    requires Good(View(s), h)
    requires s.table.IsGuestIdAvailable(id) && s.table.IsHostIdAvailable(host)
    ensures Good(View(s.TextInputNew(id, host)), h.Learns(host))
  {
    MapFresh(s.table.AdvanceHostCursor(host), id, host);
    PairKeepsGood(View(s), h, id, host, TextInputV3);
    RecordKeepsGood(View(s).Pair(id, host, TextInputV3), h.Learns(host), host);
    assert View(s.TextInputNew(id, host)) == View(s).Pair(id, host, TextInputV3).Record(host, HostTextInputV1);
  }

  lemma NewLocalKeeps(s: Session, h: Host, id: u32, interface: Interface)
    requires Good(View(s), h) && s.table.IsGuestIdAvailable(id)
    ensures Good(View(s.LocalNew(id, interface)), h)
  {
    NameKeepsGood(View(s), h, id, interface);
    assert View(s.LocalNew(id, interface)) == View(s).Name(id, interface);
  }

  lemma NewHostOnlyKeeps(s: Session, h: Host, interface: Interface, version: u32, host: u32)
    requires Good(View(s), h) && s.table.IsHostIdAvailable(host) && interface != LinuxBufferParams
    ensures Good(View(s.BindHostOnly(interface, version, interface == WlCallback, host)), h.Learns(host))
  {
    BindKeepsGood(View(s), h, host, interface);
    assert View(s.BindHostOnly(interface, version, interface == WlCallback, host)) == View(s).Bind(host, interface);
  }

  /** A server-numbered object is a buffer the host numbered, and only that. */
  lemma ServerNumbersAreBuffers(i: Ids, h: Host, guest: u32)
    requires MapsOk(i) && NamesOk(i) && HostOk(i, h)
    requires guest in i.guestToHost && guest != 1
    ensures guest >= GUEST_SERVER_ID_START <==> i.guestToHost[guest] in h.served
    ensures guest >= GUEST_SERVER_ID_START && guest in i.interfaces ==> i.interfaces[guest] == WlBuffer
  {
  }

  lemma ForwardDestroyView(s: Session, sender: u32)
    requires s.Admits(sender) && sender in s.table.guestToHost && sender < GUEST_SERVER_ID_START
    requires s.table.guestToHost[sender] !in s.deferredBuffers
    requires s.table.guestToHost[sender] in s.pendingCreates ==> s.table.GuestObjectMatches(sender, LinuxBufferParams)
    ensures View(s.ForwardDestroy(sender)) ==
            if s.table.guestToHost[sender] in s.pendingCreates then View(s).Orphan(sender) else View(s).Doom(sender)
  {
  }

  lemma PlainObjectIs(i: Ids, h: Host, g: u32)
    requires Good(i, h) && g in i.guestToHost && g != 1 && g !in i.pendingGuest
    requires g in i.interfaces ==> i.interfaces[g] != WlBuffer
    ensures g < GUEST_SERVER_ID_START && i.guestToHost[g] !in h.served && i.guestToHost[g] !in i.deferred
    ensures i.guestToHost[g] in i.creates ==> g in i.interfaces && i.interfaces[g] == LinuxBufferParams
  {
    ServerNumbersAreBuffers(i, h, g);
  }

  lemma DestroyForwardedKeeps(s: Session, h: Host, sender: u32)
    requires Good(View(s), h) && s.Admits(sender) && sender in s.table.guestToHost && sender != 1
    requires !s.table.GuestObjectMatches(sender, WlBuffer)
    ensures Good(View(s.ForwardDestroy(sender)), Hears(h, DestroyObject(s.table.guestToHost[sender])))
  {
    hide Good, s.ForwardDestroy;
    PlainObjectIs(View(s), h, sender);
    ForwardDestroyView(s, sender);
    if s.table.guestToHost[sender] in s.pendingCreates {
      OrphanKeepsGood(View(s), h, sender);
    } else {
      DoomKeepsGood(View(s), h, sender);
    }
  }

  lemma DeferBufferKeeps(s: Session, h: Host, sender: u32)
    requires Good(View(s), h) && s.Admits(sender) && sender in s.table.guestToHost
    requires s.table.GuestObjectMatches(sender, WlBuffer)
    ensures Good(View(s.DestroyBuffer(sender, true)), h)
  {
    DeferKeepsGood(View(s), h, sender);
    assert View(s.DestroyBuffer(sender, true)) == View(s).Defer(sender, WlBuffer);
  }

  lemma CompleteBufferView(s: Session, guest: u32)
    requires guest in s.table.guestToHost
    requires guest >= GUEST_SERVER_ID_START ==> s.table.guestToHost[guest] in s.nativeBuffers
    ensures View(s.CompleteBufferDestroy(guest)) ==
            if guest >= GUEST_SERVER_ID_START then View(s).Forget(guest) else View(s).Doom(guest)
  {
  }

  lemma BuffersAreNotParams(i: Ids, h: Host, guest: u32)
    requires MapsOk(i) && RecordsOk(i) && CreatesOk(i, h) && guest in i.guestToHost
    requires (guest in i.interfaces && i.interfaces[guest] == WlBuffer) || i.guestToHost[guest] in i.deferred
    ensures i.guestToHost[guest] !in i.creates && i.guestToHost[guest] !in i.orphans
  {
  }

  lemma BufferIs(i: Ids, h: Host, g: u32)
    requires Good(i, h) && g in i.guestToHost && g != 1
    requires (g in i.interfaces && i.interfaces[g] == WlBuffer) || i.guestToHost[g] in i.deferred
    ensures g >= GUEST_SERVER_ID_START <==> i.guestToHost[g] in h.served
    ensures g >= GUEST_SERVER_ID_START ==> i.guestToHost[g] in i.natives
    ensures i.guestToHost[g] !in i.creates && i.guestToHost[g] !in i.orphans
  {
    ServerNumbersAreBuffers(i, h, g);
    BuffersAreNotParams(i, h, g);
  }

  lemma CompleteBufferKeeps(s: Session, h: Host, guest: u32)
    requires Good(View(s), h) && guest in s.table.guestToHost && guest != 1
    requires s.table.GuestObjectMatches(guest, WlBuffer) || s.table.guestToHost[guest] in s.deferredBuffers
    ensures Good(View(s.CompleteBufferDestroy(guest)), Hears(h, DestroyObject(s.table.guestToHost[guest])))
  {
    hide Good, s.CompleteBufferDestroy;
    BufferIs(View(s), h, guest);
    CompleteBufferView(s, guest);
    if guest >= GUEST_SERVER_ID_START {
      ForgetServedKeepsGood(View(s), h, guest);
    } else {
      DoomKeepsGood(View(s), h, guest);
    }
  }

  lemma LocalDestroyView(s: Session, id: u32)
    requires s.Admits(id) && id in s.table.interfaces
    ensures View(s.LocalDestroy(id)) == if id in s.table.guestToHost then View(s) else View(s).Unname(id)
  {
  }

  lemma DestroyLocalKeeps(s: Session, h: Host, id: u32)
    requires Good(View(s), h) && s.Admits(id) && s.table.IsLocalOnlyGuestObject(id)
    ensures Good(View(s.LocalDestroy(id)), h)
  {
    LocalDestroyView(s, id);
    if id !in s.table.guestToHost {
      UnnameKeepsGood(View(s), h, id);
    }
  }

  lemma TextInputDestroyView(s: Session, id: u32)
    requires s.Admits(id) && s.table.GuestObjectMatches(id, TextInputV3)
    requires Lookup(s.table.hostToGuest, s.table.guestToHost[id]) == Some(id)
    ensures View(s.DestroyWithoutHostDestructor(id)) == View(s).Unpair(id, TextInputV3)
  {
  }

  lemma DestroyTextInputKeeps(s: Session, h: Host, id: u32)
    requires Good(View(s), h) && s.Admits(id) && s.table.GuestObjectMatches(id, TextInputV3)
    ensures Good(View(s.DestroyWithoutHostDestructor(id)), h)
  {
    TextInputDestroyView(s, id);
    UnpairTextInputKeepsGood(View(s), h, id);
  }

  lemma DestroyHostOnlyView(s: Session, host: u32)
    requires s.table.IsHostOnly(host) && host !in s.barriers
    ensures View(s.DestroyHostOnly(host)) == View(s).Fade(host)
  {
  }

  lemma DestroyHostOnlyKeeps(s: Session, h: Host, host: u32)
    requires Good(View(s), h) && host in s.hostOnly
    ensures Good(View(s.DestroyHostOnly(host)), h.Loses(host)) && host !in h.served
  {
    DestroyHostOnlyView(s, host);
    FadeKeepsGood(View(s), h, host);
  }

  lemma RetireHostOnlyView(s: Session, host: u32)
    requires host !in s.table.pendingDestroyHostIds
    ensures View(s.RetireHostOnly(host)) == View(s).Retire(host)
  {
  }

  lemma RetireHostOnlyKeeps(s: Session, h: Host, host: u32)
    requires Good(View(s), h) && host in s.hostOnly && host !in h.dying
    ensures Good(View(s.RetireHostOnly(host)), h)
  {
    RetireHostOnlyView(s, host);
    RetireKeepsGood(View(s), h, host);
  }

  lemma AddFrame(s: Session, params: u32, plane: Plane, duplicate: Option<Fd>)
    ensures var after := s.OnAdd(params, plane, duplicate);
            after == s.(pendingParams := after.pendingParams, closedFds := after.closedFds,
                        fatal := after.fatal, toGuest := after.toGuest)
            && (!after.fatal ==> after.toGuest == s.toGuest)
  {
    if !s.Admits(params) {
    } else if plane.fd < 0 {
    } else if params in s.usedParams {
    } else if duplicate.None? {
    } else if params !in s.pendingParams {
    } else {
    }
  }

  lemma AddKeeps(s: Session, params: u32, plane: Plane, duplicate: Option<Fd>)
    ensures View(s.OnAdd(params, plane, duplicate)) == View(s)
    ensures s.OnAdd(params, plane, duplicate).toHost == s.toHost
  {
    AddFrame(s, params, plane, duplicate);
    hide s.OnAdd;
  }

  lemma CreateAccepted(s: Session, params: u32, request: BufferRequest, syncFds: Option<seq<Fd>>)
    requires params in s.table.guestToHost && !s.OnCreate(params, request, syncFds).fatal && !s.fatal
    ensures s.Admits(params) && s.CanProcess(params, syncFds)
    ensures var host := s.table.guestToHost[params];
            && host !in s.pendingCreates
            && s.OnCreate(params, request, syncFds) == s.(
                 pendingParams := s.pendingParams - {params},
                 usedParams := s.usedParams + {params},
                 toHost := s.toHost + AddPlanes(host, s.pendingParams[params]) + [CreateAsync(host, request)],
                 pendingCreates := s.pendingCreates[host := PendingCreate(params, request.width, request.height, syncFds.value)])
  {
    hide ValidPlane, ParamsErrorCode, s.Admits;
    if !s.Admits(params) {
    } else if !ValidParams(Lookup(s.pendingParams, params), request.width, request.height, request.format) {
    } else if !s.CanProcess(params, syncFds) {
    } else {
    }
  }

  lemma CreateView(s: Session, params: u32, request: BufferRequest, syncFds: Option<seq<Fd>>)
    requires params in s.table.guestToHost && !s.OnCreate(params, request, syncFds).fatal && !s.fatal
    ensures params in s.pendingParams && s.Admits(params) && syncFds.Some?
    ensures var host := s.table.guestToHost[params];
            && View(s.OnCreate(params, request, syncFds)) == View(s).Begin(host,
                 PendingCreate(params, request.width, request.height, syncFds.value))
            && s.OnCreate(params, request, syncFds).toHost
                 == s.toHost + AddPlanes(host, s.pendingParams[params]) + [CreateAsync(host, request)]
  {
    CreateAccepted(s, params, request, syncFds);
    hide s.OnCreate;
  }

  lemma CreateImmedAccepted(s: Session, params: u32, buffer: u32, request: BufferRequest, host: u32, syncFds: Option<seq<Fd>>)
    requires params in s.table.guestToHost && params in s.pendingParams && !s.fatal
    requires !s.OnCreateImmed(params, buffer, request, host, syncFds).fatal
    ensures s.Admits(params) && s.CanProcess(params, syncFds) && s.table.IsGuestIdAvailable(buffer)
    ensures var target := s.table.guestToHost[params];
            var after := s.OnCreateImmed(params, buffer, request, host, syncFds);
            && after == s.(
                 table := after.table,
                 pendingParams := s.pendingParams - {params},
                 usedParams := s.usedParams + {params},
                 toHost := s.toHost + AddPlanes(target, s.pendingParams[params]) + [CreateImmediate(target, host, request)],
                 nativeBuffers := s.nativeBuffers[host := NativeBuffer(request.width, request.height, syncFds.value)])
            && exists version: u32 :: after.table == s.table.AdvanceHostCursor(host).MapId(buffer, host)
                                       .TrackInterfaceWithVersion(buffer, WlBuffer, version)
                                       .SetHostVersion(host, version)
  {
    hide ValidParams, ParamsErrorCode, s.Admits;
    if !s.Admits(params) {
    } else if !ValidParams(Some(s.pendingParams[params]), request.width, request.height, request.format) {
    } else if !s.CanProcess(params, syncFds) {
    } else {
    }
  }

  lemma CreateImmedView(s: Session, params: u32, buffer: u32, request: BufferRequest, host: u32, syncFds: Option<seq<Fd>>)
    requires params in s.table.guestToHost && params in s.pendingParams && s.table.IsHostIdAvailable(host) && !s.fatal
    requires !s.OnCreateImmed(params, buffer, request, host, syncFds).fatal
    ensures s.table.IsGuestIdAvailable(buffer)
    ensures var after := s.OnCreateImmed(params, buffer, request, host, syncFds);
            var target := s.table.guestToHost[params];
            && View(after) == View(s).Pair(buffer, host, WlBuffer).Import(host)
            && after.toHost == s.toHost + AddPlanes(target, s.pendingParams[params])
                               + [CreateImmediate(target, host, request)]
  {
    CreateImmedAccepted(s, params, buffer, request, host, syncFds);
    hide s.OnCreateImmed;
    MapFresh(s.table.AdvanceHostCursor(host), buffer, host);
  }

  lemma CreateKeeps(s: Session, h: Host, params: u32, request: BufferRequest, syncFds: Option<seq<Fd>>)
    requires Good(View(s), h) && params in s.table.guestToHost
    requires s.table.GuestObjectMatches(params, LinuxBufferParams)
    requires !s.OnCreate(params, request, syncFds).fatal && !s.fatal
    ensures Good(View(s.OnCreate(params, request, syncFds)), h.Asked(s.table.guestToHost[params]))
  {
    CreateView(s, params, request, syncFds);
    BeginKeepsGood(View(s), h, s.table.guestToHost[params],
                   PendingCreate(params, request.width, request.height, syncFds.value));
  }

  lemma CreateImmedKeeps(s: Session, h: Host, params: u32, buffer: u32, request: BufferRequest, host: u32,
      syncFds: Option<seq<Fd>>)
    requires Good(View(s), h) && params in s.table.guestToHost && params in s.pendingParams
    requires s.table.IsHostIdAvailable(host) && !s.fatal
    requires !s.OnCreateImmed(params, buffer, request, host, syncFds).fatal
    ensures Good(View(s.OnCreateImmed(params, buffer, request, host, syncFds)), h.Learns(host))
  {
    CreateImmedView(s, params, buffer, request, host, syncFds);
    PairKeepsGood(View(s), h, buffer, host, WlBuffer);
    ImportKeepsGood(View(s).Pair(buffer, host, WlBuffer), h.Learns(host), host);
  }

  // ---- events ----

  lemma BarrierDoneView(s: Session, host: u32, data: u32)
    requires host in s.barriers && s.table.IsHostOnly(host) && host !in s.hostOnly
    ensures View(s.OnDone(host, data)) == View(s).Fade(host)
    ensures s.OnDone(host, data).toHost == s.toHost
  {
  }

  lemma GuestDoneView(s: Session, host: u32, data: u32)
    requires host !in s.barriers && host !in s.table.hostInterfaces && host in s.table.hostToGuest
    requires Lookup(s.table.guestToHost, s.table.hostToGuest[host]) == Some(host)
    requires s.table.hostToGuest[host] in s.table.interfaces
    ensures View(s.OnDone(host, data)) ==
            if s.table.hostToGuest[host] in s.table.pendingDestroyGuestIds then View(s)
            else View(s).End(s.table.hostToGuest[host])
    ensures s.OnDone(host, data).toHost == s.toHost
  {
    var guest := s.table.hostToGuest[host];
    if guest !in s.table.pendingDestroyGuestIds {
      var removed := s.table.RemoveGuestMapping(guest);
      assert removed.hostInterfaces == s.table.hostInterfaces[host := s.table.interfaces[guest]];
      assert removed.IsHostOnly(host);
      assert removed.hostInterfaces - {host} == s.table.hostInterfaces - {host};
    }
  }

  /** A dispatchable callback is either a barrier of the proxy or a live guest object. */
  lemma CallbackIs(i: Ids, h: Host, host: u32)
    requires MapsOk(i) && NamesOk(i) && RecordsOk(i) && CreatesOk(i, h)
    requires if host in i.hostInterfaces then i.hostInterfaces[host] == WlCallback
             else host in i.hostToGuest && i.hostToGuest[host] in i.interfaces
                  && i.interfaces[i.hostToGuest[host]] == WlCallback
    ensures host in i.barriers ==> host !in i.hostOnly && host in i.hostInterfaces && host !in i.hostToGuest
    ensures host !in i.barriers ==> host in i.hostToGuest && host !in i.hostInterfaces && host !in i.deferred
                                    && host !in i.creates
                                    && i.hostToGuest[host] != 1 && i.hostToGuest[host] < GUEST_SERVER_ID_START
                                    && i.hostToGuest[host] in i.interfaces
  {
  }

  lemma DoomedAlready(i: Ids, guest: u32)
    requires guest in i.pendingGuest && guest in i.guestToHost && i.guestToHost[guest] !in i.deferred
    ensures i.Doom(guest) == i
  {
  }

  lemma GuestDoneKeeps(s: Session, h: Host, host: u32, data: u32)
    requires Good(View(s), h) && s.table.EventInterface(host) == Some(WlCallback) && host !in s.barriers
    ensures Good(View(s.OnDone(host, data)), h.Loses(host)) && s.OnDone(host, data).toHost == s.toHost
  {
    CallbackIs(View(s), h, host);
    var guest := s.table.hostToGuest[host];
    HostNamesGuest(s, h, host);
    GuestDoneView(s, host, data);
    var after := s.OnDone(host, data);
    hide MapsOk, NamesOk, RecordsOk, CreatesOk, HostOk, s.OnDone, s.table.EventInterface;
    if guest in s.table.pendingDestroyGuestIds {
      DoomKeepsGood(View(s), h, guest);
      DoomedAlready(View(s), guest);
    } else {
      EndKeepsGood(View(s), h, guest);
    }
  }

  lemma DoneKeeps(s: Session, h: Host, host: u32, data: u32)
    requires Good(View(s), h) && s.table.EventInterface(host) == Some(WlCallback)
    ensures Good(View(s.OnDone(host, data)), h.Loses(host)) && s.OnDone(host, data).toHost == s.toHost
  {
    CallbackIs(View(s), h, host);
    hide MapsOk, NamesOk, RecordsOk, CreatesOk, HostOk;
    if host in s.barriers {
      BarrierDoneView(s, host, data);
      FadeKeepsGood(View(s), h, host);
    } else {
      GuestDoneKeeps(s, h, host, data);
    }
  }

  lemma AcknowledgeView(s: Session, host: u32)
    requires host in s.table.pendingDestroyHostIds && host !in s.nativeBuffers
    ensures View(s.OnDeleteId(host)) == View(s).Acknowledge(host)
    ensures s.OnDeleteId(host).toHost == s.toHost
  {
  }

  lemma OrphanDeletedView(s: Session, host: u32)
    requires host !in s.table.pendingDestroyHostIds && host in s.orphanedParams
    requires Lookup(s.table.hostToGuest, host) == Some(s.orphanedParams[host])
    requires Lookup(s.table.guestToHost, s.orphanedParams[host]) == Some(host)
    requires s.table.GuestObjectMatches(s.orphanedParams[host], LinuxBufferParams)
    ensures View(s.OnDeleteId(host)) == View(s).Unpair(s.orphanedParams[host], LinuxBufferParams)
    ensures s.OnDeleteId(host).toHost == s.toHost
  {
  }

  lemma ObjectDeletedView(s: Session, host: u32)
    requires host !in s.table.pendingDestroyHostIds && host !in s.orphanedParams
    requires host !in s.pendingCreates && host !in s.deferredBuffers
    requires host in s.table.hostToGuest && Lookup(s.table.guestToHost, s.table.hostToGuest[host]) == Some(host)
    ensures View(s.OnDeleteId(host)) == View(s).Forget(s.table.hostToGuest[host])
    ensures s.OnDeleteId(host).toHost == s.toHost
  {
  }

  /** What `delete_id` may legitimately name. */
  lemma DyingIs(i: Ids, h: Host, host: u32)
    requires MapsOk(i) && NamesOk(i) && CreatesOk(i, h) && HostOk(i, h) && host in h.dying
    ensures host in i.pendingHost ==> host !in i.natives
    ensures host !in i.pendingHost ==>
              && host in i.hostToGuest
                                    && i.hostToGuest[host] != 1 && i.hostToGuest[host] < GUEST_SERVER_ID_START
              && i.hostToGuest[host] in i.pendingGuest
              && (host !in i.orphans ==> host !in i.creates && host !in i.deferred)
              && (host in i.orphans ==> Lookup(i.interfaces, i.orphans[host]) == Some(LinuxBufferParams))
              && (host in i.orphans ==> i.orphans[host] == i.hostToGuest[host])
  {
  }

  lemma DeleteIdKeeps(s: Session, h: Host, host: u32)
    requires Good(View(s), h) && host in h.dying
    ensures Good(View(s.OnDeleteId(host)), h.Deletes(host)) && s.OnDeleteId(host).toHost == s.toHost
  {
    var i := View(s);
    DyingIs(i, h, host);
    if host in i.pendingHost {
      AcknowledgeView(s, host);
      AcknowledgeKeepsGood(i, h, host);
    } else if host in i.orphans {
      OrphanDeletedView(s, host);
      UnpairOrphanKeepsGood(i, h, i.hostToGuest[host]);
    } else {
      ObjectDeletedView(s, host);
      ForgetDeletedKeepsGood(i, h, i.hostToGuest[host]);
    }
  }

  lemma CreatedOrphanView(s: Session, params: u32, buffer: u32, guestBuffer: u32)
    requires params in s.orphanedParams && params !in s.pendingCreates
    requires s.table.IsEventSenderKnown(params) && s.table.IsHostIdAvailable(buffer)
    ensures var after := s.OnCreated(params, buffer, guestBuffer);
            && after.toHost == s.toHost + [DestroyObject(buffer)]
            && View(after) == View(s).Reserve(buffer).AnswerOrphan(params)
  {
    DiscardView(s, params, buffer);
    ReleaseView(s.DiscardHostBuffer(params, buffer), params);
    hide s.DiscardHostBuffer;
  }

  lemma DiscardView(s: Session, params: u32, buffer: u32)
    requires params !in s.pendingCreates && s.table.IsHostIdAvailable(buffer)
    ensures var after := s.DiscardHostBuffer(params, buffer);
            && after.toHost == s.toHost + [DestroyObject(buffer)]
            && View(after) == View(s).Reserve(buffer).(orphans := View(s).orphans - {params})
  {
  }

  lemma ReleaseView(s: Session, params: u32)
    ensures s.ReleaseOrphan(params).toHost == s.toHost
    ensures View(s.ReleaseOrphan(params)) ==
            if params in s.table.hostToGuest then View(s)
            else View(s.(table := s.table.RemoveHostInterface(params)))
  {
  }

  lemma CreatedLiveView(s: Session, params: u32, buffer: u32, guestBuffer: u32)
    requires params in s.pendingCreates && params !in s.orphanedParams
    requires params in s.table.hostToGuest && s.table.hostToGuest[params] == s.pendingCreates[params].guestParams
    requires s.table.hostToGuest[params] !in s.table.pendingDestroyGuestIds
    requires s.table.IsHostIdAvailable(buffer) && buffer !in s.nativeBuffers
    requires s.table.IsGuestServerIdFree(guestBuffer)
    ensures var after := s.OnCreated(params, buffer, guestBuffer);
            && after.toHost == s.toHost
            && View(after) == View(s).Expose(params, guestBuffer, buffer)
  {
    hide s.table.MapId;
    MapFresh(s.table.AdvanceGuestServerCursor(guestBuffer), guestBuffer, buffer);
  }

  /** An unanswered create is either live or an orphan, and dispatchable either way. */
  lemma UnansweredIs(s: Session, h: Host, params: u32)
    requires MapsOk(View(s)) && RecordsOk(View(s)) && CreatesOk(View(s), h) && params in h.unanswered
    ensures s.table.EventInterface(params) == Some(LinuxBufferParams)
    ensures params in s.orphanedParams <==> params !in s.pendingCreates
    ensures params in s.pendingCreates ==>
              && params in s.table.hostToGuest && s.table.hostToGuest[params] == s.pendingCreates[params].guestParams
              && s.table.hostToGuest[params] !in s.table.pendingDestroyGuestIds
  {
  }

  lemma HearsDiscard(h: Host, before: seq<HostMessage>, params: u32, buffer: u32)
    requires buffer !in h.served
    ensures HearsAll(h.Answers(params).Serves(buffer), Sent(before, before + [DestroyObject(buffer)])) == h.Answers(params)
  {
    HearsOne(h.Answers(params).Serves(buffer), before, DestroyObject(buffer));
    assert h.served + {buffer} - {buffer} == h.served;
  }

  lemma CreatedOrphanKeeps(s: Session, h: Host, params: u32, buffer: u32, guestBuffer: u32)
    requires Good(View(s), h) && params in h.unanswered && params in s.orphanedParams && buffer !in h.served
    requires s.table.IsHostIdAvailable(buffer)
    ensures var after := s.OnCreated(params, buffer, guestBuffer);
            Good(View(after), HearsAll(h.Answers(params).Serves(buffer), Sent(s.toHost, after.toHost)))
  {
    UnansweredIs(s, h, params);
    hide MapsOk, NamesOk, RecordsOk, CreatesOk, HostOk, HearsAll;
    CreatedOrphanView(s, params, buffer, guestBuffer);
    hide s.OnCreated;
    ReserveKeepsGood(View(s), h, buffer);
    AnswerOrphanKeepsGood(View(s).Reserve(buffer), h, params);
    HearsDiscard(h, s.toHost, params, buffer);
  }

  lemma CreatedLiveKeeps(s: Session, h: Host, params: u32, buffer: u32, guestBuffer: u32)
    requires Good(View(s), h) && params in h.unanswered && params !in s.orphanedParams && buffer !in h.owned
    requires s.table.IsHostIdAvailable(buffer) && s.table.IsGuestServerIdFree(guestBuffer)
    ensures var after := s.OnCreated(params, buffer, guestBuffer);
            Good(View(after), HearsAll(h.Answers(params).Serves(buffer), Sent(s.toHost, after.toHost)))
  {
    UnansweredIs(s, h, params);
    assert buffer !in s.nativeBuffers;
    hide MapsOk, NamesOk, RecordsOk, CreatesOk, HostOk, HearsAll;
    CreatedLiveView(s, params, buffer, guestBuffer);
    hide s.OnCreated;
    ExposeKeepsGood(View(s), h, params, guestBuffer, buffer);
    HearsNothing(h.Answers(params).Serves(buffer), s.toHost);
  }

  lemma FailedView(s: Session, h: Host, params: u32)
    requires CreatesOk(View(s), h) && params in h.unanswered
    ensures var after := s.OnFailed(params);
            && after.toHost == s.toHost
            && View(after) == if params in s.orphanedParams then View(s).AnswerOrphan(params) else View(s).Answer(params)
  {
  }

  lemma FailedKeeps(s: Session, h: Host, params: u32)
    requires Good(View(s), h) && params in h.unanswered
    ensures Good(View(s.OnFailed(params)), h.Answers(params)) && s.OnFailed(params).toHost == s.toHost
  {
    FailedView(s, h, params);
    if params in s.orphanedParams {
      AnswerOrphanKeepsGood(View(s), h, params);
    } else {
      AnswerKeepsGood(View(s), h, params);
    }
  }

  // ---- every step keeps the invariant ----

  lemma NewObjectKeepsInv(w: World, e: Event)
    requires Inv(w) && Enabled(w, e)
    requires e.NewForwarded? || e.NewFromDisplay? || e.NewTextInput? || e.NewLocal? || e.NewHostOnly?
    ensures Inv(Step(w, e))
  {
    var s, h := w.session, w.host;
    hide Good;
    match e
    case NewForwarded(sender, id, interface, host) =>
      if s.Admits(sender) && s.table.IsGuestIdAvailable(id) {
        NewForwardedKeeps(s, h, sender, id, interface, host);
        HearsOne(h, s.toHost, CreateObject(host));
      }
    case NewFromDisplay(id, interface, host) =>
      if s.table.IsGuestIdAvailable(id) {
        NewFromDisplayKeeps(s, h, id, interface, host);
        HearsOne(h, s.toHost, CreateObject(host));
      }
    case NewTextInput(id, host) =>
      if s.table.IsGuestIdAvailable(id) {
        NewTextInputKeeps(s, h, id, host);
        HearsOne(h, s.toHost, CreateObject(host));
      }
    case NewLocal(id, interface) =>
      if s.table.IsGuestIdAvailable(id) {
        NewLocalKeeps(s, h, id, interface);
        HearsNothing(h, s.toHost);
      }
    case NewHostOnly(interface, version, host) =>
      NewHostOnlyKeeps(s, h, interface, version, host);
      HearsOne(h, s.toHost, CreateObject(host));
  }

  lemma DestroyKeepsInv(w: World, e: Event)
    requires Inv(w) && Enabled(w, e)
    requires e.DestroyForwarded? || e.DestroyBuffer? || e.RetireBuffer?
    ensures Inv(Step(w, e))
  {
    var s, h := w.session, w.host;
    hide Good;
    match e
    case DestroyForwarded(sender) =>
      if s.Admits(sender) {
        DestroyForwardedKeeps(s, h, sender);
        HearsOne(h, s.toHost, DestroyObject(s.table.guestToHost[sender]));
      }
    case DestroyBuffer(sender, deferred) =>
      if !s.Admits(sender) {
      } else if deferred {
        DeferBufferKeeps(s, h, sender);
        HearsNothing(h, s.toHost);
      } else {
        DisplayIsNotABuffer(s, h, sender);
        CompleteBufferKeeps(s, h, sender);
        HearsOne(h, s.toHost, DestroyObject(s.table.guestToHost[sender]));
      }
    case RetireBuffer(host) =>
      var guest := s.table.hostToGuest[host];
      HostNamesGuest(s, h, host);
      DisplayIsNotABuffer(s, h, guest);
      CompleteBufferKeeps(s, h, guest);
      HearsOne(h, s.toHost, DestroyObject(s.table.guestToHost[guest]));
  }

  lemma DisplayIsNotABuffer(s: Session, h: Host, guest: u32)
    requires Good(View(s), h) && guest in s.table.guestToHost
    ensures s.table.GuestObjectMatches(guest, WlBuffer) ==> guest != 1
    ensures s.table.guestToHost[guest] in s.deferredBuffers ==> guest != 1
    ensures Lookup(s.table.hostToGuest, s.table.guestToHost[guest]) == Some(guest)
  {
  }

  lemma HostNamesGuest(s: Session, h: Host, host: u32)
    requires Good(View(s), h) && host in s.table.hostToGuest
    ensures Lookup(s.table.guestToHost, s.table.hostToGuest[host]) == Some(host)
  {
  }

  lemma QuietDestroyKeepsInv(w: World, e: Event)
    requires Inv(w) && Enabled(w, e)
    requires e.DestroyLocal? || e.DestroyTextInput? || e.DestroyHostOnly? || e.RetireHostOnly?
    ensures Inv(Step(w, e))
  {
    var s, h := w.session, w.host;
    hide Good;
    match e
    case DestroyLocal(id) =>
      if s.Admits(id) {
        DestroyLocalKeeps(s, h, id);
        HearsNothing(h, s.toHost);
      }
    case DestroyTextInput(id) =>
      if s.Admits(id) {
        DestroyTextInputKeeps(s, h, id);
        HearsNothing(h, s.toHost);
      }
    case DestroyHostOnly(host) =>
      DestroyHostOnlyKeeps(s, h, host);
      HearsOne(h, s.toHost, DestroyObject(host));
    case RetireHostOnly(host) =>
      RetireHostOnlyKeeps(s, h, host);
      HearsNothing(h, s.toHost);
  }

  lemma CreateImmedIgnored(s: Session, params: u32, buffer: u32, request: BufferRequest, host: u32, syncFds: Option<seq<Fd>>)
    requires params in s.table.guestToHost && params !in s.pendingParams && !s.fatal
    requires !s.OnCreateImmed(params, buffer, request, host, syncFds).fatal
    ensures s.OnCreateImmed(params, buffer, request, host, syncFds) == s
  {
  }

  lemma AddKeepsInv(w: World, e: Event)
    requires Inv(w) && Enabled(w, e) && e.Add?
    ensures Inv(Step(w, e))
  {
    hide Good, w.session.OnAdd;
    AddKeeps(w.session, e.params, e.plane, e.duplicate);
    HearsNothing(w.host, w.session.toHost);
  }

  lemma CreateKeepsInv(w: World, e: Event)
    requires Inv(w) && Enabled(w, e) && e.Create?
    ensures Inv(Step(w, e))
  {
    var s, h := w.session, w.host;
    hide Good, s.OnCreate;
    if !s.OnCreate(e.params, e.request, e.syncFds).fatal {
      CreateKeeps(s, h, e.params, e.request, e.syncFds);
      CreateView(s, e.params, e.request, e.syncFds);
      HearsCreate(h, s.toHost, s.table.guestToHost[e.params], s.pendingParams[e.params],
                  CreateAsync(s.table.guestToHost[e.params], e.request));
    }
  }

  lemma CreateImmedKeepsInv(w: World, e: Event)
    requires Inv(w) && Enabled(w, e) && e.CreateImmed?
    ensures Inv(Step(w, e))
  {
    var s, h := w.session, w.host;
    hide Good, s.OnCreateImmed;
    if s.OnCreateImmed(e.params, e.buffer, e.request, e.host, e.syncFds).fatal {
    } else if e.params !in s.pendingParams {
      CreateImmedIgnored(s, e.params, e.buffer, e.request, e.host, e.syncFds);
      HearsNothing(h, s.toHost);
    } else {
      CreateImmedKeeps(s, h, e.params, e.buffer, e.request, e.host, e.syncFds);
      CreateImmedView(s, e.params, e.buffer, e.request, e.host, e.syncFds);
      HearsCreate(h, s.toHost, s.table.guestToHost[e.params], s.pendingParams[e.params],
                  CreateImmediate(s.table.guestToHost[e.params], e.host, e.request));
    }
  }

  lemma ParamsRequestKeepsInv(w: World, e: Event)
    requires Inv(w) && Enabled(w, e)
    requires e.Add? || e.Create? || e.CreateImmed?
    ensures Inv(Step(w, e))
  {
    if e.Add? {
      AddKeepsInv(w, e);
    } else if e.Create? {
      CreateKeepsInv(w, e);
    } else {
      CreateImmedKeepsInv(w, e);
    }
    hide Inv, Step, Enabled;
  }

  lemma HostEventKeepsInv(w: World, e: Event)
    requires Inv(w) && Enabled(w, e)
    requires e.CallbackDone? || e.HostDeleteId? || e.BufferAnnounced? || e.CreateFailed?
    ensures Inv(Step(w, e))
  {
    var s, h := w.session, w.host;
    hide Good;
    match e
    case CallbackDone(host, data) =>
      DoneKeeps(s, h, host, data);
      HearsNothing(h.Loses(host), s.toHost);
    case HostDeleteId(host) =>
      DeleteIdKeeps(s, h, host);
      HearsNothing(h.Deletes(host), s.toHost);
    case BufferAnnounced(params, buffer, guestBuffer) =>
      if !s.table.IsHostIdAvailable(buffer) {
        BadBufferIsFatal(s, h, params, buffer, guestBuffer);
      } else if params in s.orphanedParams {
        CreatedOrphanKeeps(s, h, params, buffer, guestBuffer);
      } else {
        CreatedLiveKeeps(s, h, params, buffer, guestBuffer);
      }
    case CreateFailed(params) =>
      FailedKeeps(s, h, params);
      HearsNothing(h.Answers(params), s.toHost);
  }

  lemma BadBufferIsFatal(s: Session, h: Host, params: u32, buffer: u32, guestBuffer: u32)
    requires Good(View(s), h) && params in h.unanswered && !s.table.IsHostIdAvailable(buffer)
    ensures s.OnCreated(params, buffer, guestBuffer).fatal
  {
    UnansweredIs(s, h, params);
  }

  /** The two maps stay mutually inverse, the reservation classes stay disjoint, every
      unanswered create stays tracked, and every number the host holds stays reserved. */
  lemma StepKeepsInv(w: World, e: Event)
    requires Inv(w) && Enabled(w, e)
    ensures Inv(Step(w, e))
  {
    hide Inv, Enabled, Step;
    if e.NewForwarded? || e.NewFromDisplay? || e.NewTextInput? || e.NewLocal? || e.NewHostOnly? {
      NewObjectKeepsInv(w, e);
    } else if e.DestroyForwarded? || e.DestroyBuffer? || e.RetireBuffer? {
      DestroyKeepsInv(w, e);
    } else if e.DestroyLocal? || e.DestroyTextInput? || e.DestroyHostOnly? || e.RetireHostOnly? {
      QuietDestroyKeepsInv(w, e);
    } else if e.Add? || e.Create? || e.CreateImmed? {
      ParamsRequestKeepsInv(w, e);
    } else {
      HostEventKeepsInv(w, e);
    }
  }

  lemma {:induction false} RunKeepsInv(w: World, es: seq<Event>)
    requires Inv(w) && Legal(w, es)
    ensures Inv(Run(w, es))
    decreases |es|
  {
    hide Inv, Enabled, Step;
    if es != [] {
      StepKeepsInv(w, es[0]);
      RunKeepsInv(Step(w, es[0]), es[1..]);
    }
  }
}

/**
 The mutable per-client context of the handlers. `State` is its value as a
 `Session`; each method performs its handler statement by statement and is proved
 to have the effect of the session function of the same name.

 The numbers a handler allocates come from the table's own allocators; what the
 kernel returns (`duplicate`, `syncFds`) is a parameter.
 */
module Contexts {
  import opened Prelude
  import opened ShadowTables
  import opened DmabufParams
  import opened Sessions

  /** A session whose buffer number has just been paired with `host`. */
  function Paired(s: Session, params: u32, buffer: u32, host: u32): Session {
    var version := match s.table.GuestObjectVersion(params) case Some(v) => v case None => UNKNOWN_OBJECT_VERSION;
    s.(table := s.table.AdvanceHostCursor(host).MapId(buffer, host)
                       .TrackInterfaceWithVersion(buffer, WlBuffer, version).SetHostVersion(host, version))
  }

  /** The accepted part of `create_immed`, one step after the other. */
  lemma ImportIs(s: Session, params: u32, buffer: u32, request: BufferRequest, host: u32, syncFds: Option<seq<Fd>>)
    requires params in s.table.guestToHost && params in s.pendingParams && params !in s.usedParams && s.Admits(params)
    requires s.table.IsGuestIdAvailable(buffer) && s.table.IsHostIdAvailable(host)
    requires ValidParams(Some(s.pendingParams[params]), request.width, request.height, request.format)
    ensures var m := Paired(s, params, buffer, host);
            var p := m.ProcessParams(params, syncFds, CreateImmediate(s.table.guestToHost[params], host, request));
            && (m.CanProcess(params, syncFds) ==> syncFds.Some?)
            && s.OnCreateImmed(params, buffer, request, host, syncFds) ==
               if !m.CanProcess(params, syncFds) then p.(table := m.table.RemoveId(buffer))
               else if host in s.nativeBuffers then p.Reject().(closedFds := p.closedFds + syncFds.value)
               else p.(nativeBuffers := s.nativeBuffers[host := NativeBuffer(request.width, request.height, syncFds.value)])
  {
    hide ValidParams, ParamsErrorCode;
    MapIdKeeps(s.table.AdvanceHostCursor(host), buffer, host, params);
    hide s.table.MapId, s.table.RemoveId;
  }

  class Context {
    const table: ShadowTable
    var pendingParams: map<u32, seq<Plane>>
    var usedParams: set<u32>
    var pendingCreates: map<u32, PendingCreate>
    var orphanedParams: map<u32, u32>
    var nativeBuffers: map<u32, NativeBuffer>
    var deferredBuffers: set<u32>
    var hostOnly: set<u32>
    var barriers: set<u32>
    var toHost: seq<HostMessage>
    var toGuest: seq<GuestMessage>
    var closedFds: seq<Fd>
    var fatal: bool

    function State(): Session
      reads this, table
    {
      Session(table.State(), pendingParams, usedParams, pendingCreates, orphanedParams, nativeBuffers,
              deferredBuffers, hostOnly, barriers, toHost, toGuest, closedFds, fatal)
    }

    /** A connection starts with the display paired. */
    constructor ()
      ensures State() == START
      ensures fresh(table)
    {
      table := new ShadowTable();
      pendingParams, usedParams := map[], {};
      pendingCreates, orphanedParams := map[], map[];
      nativeBuffers, deferredBuffers := map[], {};
      hostOnly, barriers := {}, {};
      toHost, toGuest, closedFds, fatal := [], [], [], false;
      new;
      table.MapId(1, 1);
      table.TrackInterface(1, WlDisplay);
    }

    predicate Admits(sender: u32)
      reads this, table
    {
      State().Admits(sender)
    }

    method ClosePlanes(planes: seq<Plane>)
      modifies this`closedFds
      ensures closedFds == old(closedFds) + PlaneFds(planes)
    {
      var i := 0;
      while i < |planes|
        invariant 0 <= i <= |planes|
        invariant closedFds == old(closedFds) + PlaneFds(planes)[..i]
      {
        closedFds := closedFds + [planes[i].fd];
        i := i + 1;
      }
      assert PlaneFds(planes)[..|planes|] == PlaneFds(planes);
    }

    method DiscardPlanes(params: u32)
      modifies this
      ensures State() == old(State()).DiscardPlanes(params)
    {
      if params in pendingParams {
        var planes := pendingParams[params];
        pendingParams := pendingParams - {params};
        ClosePlanes(planes);
      }
    }

    method CloseSync(host: u32)
      modifies this
      ensures State() == old(State()).CloseSync(host)
    {
      if host in pendingCreates {
        closedFds := closedFds + pendingCreates[host].syncFds;
        pendingCreates := pendingCreates - {host};
      }
    }

    method RemoveNativeBuffer(host: u32)
      modifies this
      ensures State() == old(State()).RemoveNativeBuffer(host)
    {
      if host in nativeBuffers {
        closedFds := closedFds + nativeBuffers[host].syncFds;
        nativeBuffers := nativeBuffers - {host};
      }
    }

    // ---- requests ----

    method OnCreateParams(id: u32)
      modifies this
      ensures State() == old(State()).OnCreateParams(id)
    {
      usedParams := usedParams - {id};
      var previous := Lookup(pendingParams, id);
      pendingParams := pendingParams[id := []];
      if previous.Some? {
        ClosePlanes(previous.value);
      }
    }

    /** A forwarded request with one new-ID argument. `host` is the number the allocator
        chose; without one the request was refused or every number is taken. */
    method ForwardNew(sender: u32, id: u32, interface: Interface) returns (host: Option<u32>)
      modifies this, table
      ensures host.Some? ==>
                && old(table.State()).IsNextHost(host.value)
                && State() == old(State()).ForwardNew(sender, id, interface, host.value)
      ensures host.None? ==>
                || (State() == old(State()).Reject()
                    && !(old(Admits(sender)) && old(table.State()).IsGuestIdAvailable(id)))
                || old(table.State()).Exhausted()
    {
      hide table.State().MapId, table.State().TrackInterfaceWithVersion, table.State().SetHostVersion,
        table.State().IsGuestIdAvailable, table.State().IsNextHost, table.State().Exhausted, table.State().AdvanceHostCursor;
      if !Admits(sender) || !table.State().IsGuestIdAvailable(id) {
        fatal := true;
        return None;
      }
      var version := match table.State().GuestObjectVersion(sender) case Some(v) => v case None => UNKNOWN_OBJECT_VERSION;
      var hostVersion :=
        if sender in table.guestToHost && table.State().HostObjectVersion(table.guestToHost[sender]).Some?
        then table.State().HostObjectVersion(table.guestToHost[sender]).value else version;
      if interface == LinuxBufferParams {
        OnCreateParams(id);
      }
      host := PairFresh(id, interface, version, hostVersion);
    }

    /** Allocate a host number for `id` and record both sides. */
    method PairFresh(id: u32, interface: Interface, version: u32, hostVersion: u32) returns (host: Option<u32>)
      modifies this, table
      ensures host.Some? ==>
                && old(table.State()).IsNextHost(host.value)
                && State() == old(State()).(
                     table := old(table.State()).AdvanceHostCursor(host.value).MapId(id, host.value)
                                .TrackInterfaceWithVersion(id, interface, version)
                                .SetHostVersion(host.value, hostVersion),
                     toHost := old(toHost) + [CreateObject(host.value)])
      ensures host.None? ==> old(table.State()).Exhausted()
    {
      host := table.AllocateHostId();
      if host.Some? {
        table.MapId(id, host.value);
        table.TrackInterfaceWithVersion(id, interface, version);
        table.SetHostVersion(host.value, hostVersion);
        toHost := toHost + [CreateObject(host.value)];
      }
    }

    method DisplayNew(id: u32, interface: Interface) returns (host: Option<u32>)
      modifies this, table
      ensures host.Some? ==>
                && old(table.State()).IsNextHost(host.value)
                && State() == old(State()).DisplayNew(id, interface, host.value)
      ensures host.None? ==>
                || (State() == old(State()).Reject() && !old(table.State()).IsGuestIdAvailable(id))
                || old(table.State()).Exhausted()
    {
      if !table.State().IsGuestIdAvailable(id) {
        fatal := true;
        return None;
      }
      host := table.AllocateHostId();
      if host.Some? {
        table.MapId(id, host.value);
        table.TrackInterface(id, interface);
        toHost := toHost + [CreateObject(host.value)];
      }
    }

    method OnParamsDestroy(id: u32)
      modifies this
      ensures State() == old(State()).OnParamsDestroy(id)
    {
      usedParams := usedParams - {id};
      if id in table.guestToHost && table.guestToHost[id] in pendingCreates {
        CloseSync(table.guestToHost[id]);
        orphanedParams := orphanedParams[table.guestToHost[id] := id];
      }
      DiscardPlanes(id);
    }

    method ForwardDestroy(sender: u32)
      requires sender in table.guestToHost
      modifies this, table
      ensures State() == old(State()).ForwardDestroy(sender)
    {
      if !Admits(sender) {
        fatal := true;
        return;
      }
      if table.State().GuestObjectMatches(sender, LinuxBufferParams) {
        OnParamsDestroy(sender);
      }
      toHost := toHost + [DestroyObject(table.guestToHost[sender])];
      if sender >= GUEST_SERVER_ID_START {
        table.RemoveId(sender);
      } else {
        table.MarkPendingDestroy(sender);
      }
    }

    method CompleteBufferDestroy(guest: u32)
      requires guest in table.guestToHost
      modifies this, table
      ensures State() == old(State()).CompleteBufferDestroy(guest)
    {
      var host := table.guestToHost[guest];
      toHost := toHost + [DestroyObject(host)];
      deferredBuffers := deferredBuffers - {host};
      if guest >= GUEST_SERVER_ID_START {
        if host !in nativeBuffers {
          fatal := true;
          return;
        }
        RemoveNativeBuffer(host);
        table.RemoveId(guest);
      } else {
        table.MarkPendingDestroy(guest);
      }
    }

    method DestroyBuffer(sender: u32, deferred: bool)
      requires sender in table.guestToHost
      modifies this, table
      ensures State() == old(State()).DestroyBuffer(sender, deferred)
    {
      if !Admits(sender) {
        fatal := true;
      } else if deferred {
        deferredBuffers := deferredBuffers + {table.guestToHost[sender]};
        table.RetireGuestObject(sender);
      } else {
        CompleteBufferDestroy(sender);
      }
    }

    method QueueLocalDeleteId(id: u32)
      modifies this, table
      ensures State() == old(State()).LocalDestroy(id)
    {
      if !Admits(id) {
        fatal := true;
      } else if id in table.interfaces && id !in table.guestToHost {
        toGuest := toGuest + [DeleteId(id)];
        table.RemoveId(id);
      }
    }

    method DestroyWithoutHostDestructor(id: u32)
      modifies this, table
      ensures State() == old(State()).DestroyWithoutHostDestructor(id)
    {
      if !Admits(id) {
        fatal := true;
      } else if id in table.interfaces {
        toGuest := toGuest + [DeleteId(id)];
        table.RemoveGuestMapping(id);
      }
    }

    /** A global or callback of the proxy's own. */
    method BindHostOnly(interface: Interface, version: u32, barrier: bool) returns (host: Option<u32>)
      modifies this, table
      ensures host.Some? ==>
                && old(table.State()).IsNextHost(host.value)
                && State() == old(State()).BindHostOnly(interface, version, barrier, host.value)
      ensures host.None? ==> old(table.State()).Exhausted()
    {
      host := table.AllocateHostId();
      if host.Some? {
        table.TrackHostInterfaceWithVersion(host.value, interface, version);
        toHost := toHost + [CreateObject(host.value)];
        if barrier {
          barriers := barriers + {host.value};
        } else {
          hostOnly := hostOnly + {host.value};
        }
      }
    }

    method DestroyHostOnly(host: u32)
      modifies this, table
      ensures State() == old(State()).DestroyHostOnly(host)
    {
      toHost := toHost + [DestroyObject(host)];
      var inserted := table.MarkPendingDestroyHost(host);
      hostOnly := hostOnly - {host};
    }

    // ---- linux-dmabuf requests ----

    method QueueProtocolError(culprit: u32, code: u32)
      modifies this
      ensures State() == old(State()).Report(culprit, code)
    {
      toGuest := toGuest + [ProtocolError(culprit, code)];
      fatal := true;
    }

    method OnAdd(params: u32, plane: Plane, duplicate: Option<Fd>)
      modifies this
      ensures State() == old(State()).OnAdd(params, plane, duplicate)
    {
      if !Admits(params) {
        fatal := true;
        return;
      }
      if plane.fd < 0 {
        return;
      }
      if params in usedParams {
        QueueProtocolError(params, 0);
        return;
      }
      if plane.planeIdx > 1 {
        QueueProtocolError(params, 1);
        return;
      }
      if params in pendingParams {
        var i := 0;
        while i < |pendingParams[params]|
          invariant 0 <= i <= |pendingParams[params]|
          invariant forall j | 0 <= j < i :: pendingParams[params][j].planeIdx != plane.planeIdx
        {
          if pendingParams[params][i].planeIdx == plane.planeIdx {
            QueueProtocolError(params, 2);
            return;
          }
          i := i + 1;
        }
      }
      if duplicate.None? {
        return;
      }
      if params in pendingParams {
        pendingParams := pendingParams[params := pendingParams[params] + [plane.(fd := duplicate.value)]];
      } else {
        closedFds := closedFds + [duplicate.value];
      }
    }

    method QueuePlanes(host: u32, planes: seq<Plane>)
      modifies this`toHost
      ensures toHost == old(toHost) + AddPlanes(host, planes)
    {
      var i := 0;
      while i < |planes|
        invariant 0 <= i <= |planes|
        invariant toHost == old(toHost) + AddPlanes(host, planes)[..i]
      {
        toHost := toHost + [AddPlane(host, planes[i])];
        i := i + 1;
      }
      assert AddPlanes(host, planes)[..|planes|] == AddPlanes(host, planes);
    }

    /** Hand every consumed plane to the host, then the create request. */
    method ProcessParams(params: u32, syncFds: Option<seq<Fd>>, create: HostMessage) returns (processed: bool)
      modifies this
      ensures State() == old(State()).ProcessParams(params, syncFds, create)
      ensures processed == old(State()).CanProcess(params, syncFds)
    {
      if params !in pendingParams {
        return false;
      }
      var planes := pendingParams[params];
      pendingParams := pendingParams - {params};
      if params !in table.guestToHost || syncFds.None? || syncFds.value == [] {
        ClosePlanes(planes);
        fatal := true;
        return false;
      }
      QueuePlanes(table.guestToHost[params], planes);
      toHost := toHost + [create];
      usedParams := usedParams + {params};
      processed := true;
    }

    method OnCreate(params: u32, request: BufferRequest, syncFds: Option<seq<Fd>>)
      requires params in table.guestToHost
      modifies this
      ensures State() == old(State()).OnCreate(params, request, syncFds)
    {
      if !Admits(params) {
        fatal := true;
        return;
      }
      if params in usedParams {
        QueueProtocolError(params, 0);
        return;
      }
      var planes := Lookup(pendingParams, params);
      if !ValidParams(planes, request.width, request.height, request.format) {
        QueueProtocolError(params, ParamsErrorCode(planes, request.width, request.height, request.format));
        DiscardPlanes(params);
        return;
      }
      var host := table.guestToHost[params];
      var processed := ProcessParams(params, syncFds, CreateAsync(host, request));
      if processed {
        if host in pendingCreates {
          closedFds := closedFds + syncFds.value;
          fatal := true;
        } else {
          pendingCreates := pendingCreates[host := PendingCreate(params, request.width, request.height, syncFds.value)];
        }
      }
    }

    /** `host` is the number allocated for the buffer, if the request got that far. */
    method OnCreateImmed(params: u32, buffer: u32, request: BufferRequest, syncFds: Option<seq<Fd>>) returns (host: Option<u32>)
      requires params in table.guestToHost
      modifies this, table
      ensures host.Some? ==> old(table.State()).IsNextHost(host.value)
      ensures || State() == old(State()).OnCreateImmed(params, buffer, request, if host.Some? then host.value else 0, syncFds)
              || (host.None? && old(table.State()).Exhausted())
    {
      host := None;
      if !Admits(params) || !table.State().IsGuestIdAvailable(buffer) {
        fatal := true;
        return;
      }
      if params in usedParams {
        QueueProtocolError(params, 0);
        return;
      }
      if params !in pendingParams {
        return;
      }
      var planes := Some(pendingParams[params]);
      if !ValidParams(planes, request.width, request.height, request.format) {
        QueueProtocolError(params, ParamsErrorCode(planes, request.width, request.height, request.format));
        DiscardPlanes(params);
        return;
      }
      host := ImportPlanes(params, buffer, request, syncFds);
    }

    /** Pair a new buffer number with the next host number. */
    method PairBuffer(params: u32, buffer: u32) returns (host: Option<u32>)
      modifies table
      ensures host.Some? ==>
                old(table.State()).IsNextHost(host.value) && State() == Paired(old(State()), params, buffer, host.value)
      ensures host.None? ==> old(table.State()).Exhausted()
    {
      var version := match table.State().GuestObjectVersion(params) case Some(v) => v case None => UNKNOWN_OBJECT_VERSION;
      host := table.AllocateHostId();
      if host.Some? {
        table.MapId(buffer, host.value);
        table.TrackInterfaceWithVersion(buffer, WlBuffer, version);
        table.SetHostVersion(host.value, version);
      }
    }

    /** The accepted part of `create_immed`. */
    method ImportPlanes(params: u32, buffer: u32, request: BufferRequest, syncFds: Option<seq<Fd>>) returns (host: Option<u32>)
      requires params in table.guestToHost && params in pendingParams && params !in usedParams && Admits(params)
      requires table.State().IsGuestIdAvailable(buffer)
      requires ValidParams(Some(pendingParams[params]), request.width, request.height, request.format)
      modifies this, table
      ensures host.Some? ==> old(table.State()).IsNextHost(host.value)
      ensures host.Some? ==> State() == old(State()).OnCreateImmed(params, buffer, request, host.value, syncFds)
      ensures host.None? ==> old(table.State()).Exhausted()
    {
      hide ValidParams, ParamsErrorCode;
      ghost var before := State();
      var target := table.guestToHost[params];
      host := PairBuffer(params, buffer);
      if host.Some? {
        ImportIs(before, params, buffer, request, host.value, syncFds);
        ghost var paired := State();
        hide before.OnCreateImmed, before.ProcessParams, before.CanProcess, before.table.IsNextHost, Paired,
             before.table.RemoveId;
        var processed := ProcessParams(params, syncFds, CreateImmediate(target, host.value, request));
        if !processed {
          table.RemoveId(buffer);
        } else {
          RegisterNative(host.value, NativeBuffer(request.width, request.height, syncFds.value));
        }
      }
    }

    /** Only a vacant host number takes a buffer. */
    method RegisterNative(host: u32, buffer: NativeBuffer)
      modifies this`nativeBuffers, this`closedFds, this`fatal
      ensures State() == if host in old(nativeBuffers) then old(State()).Reject().(closedFds := old(closedFds) + buffer.syncFds)
                         else old(State()).(nativeBuffers := old(nativeBuffers)[host := buffer])
    {
      if host in nativeBuffers {
        closedFds := closedFds + buffer.syncFds;
        fatal := true;
      } else {
        nativeBuffers := nativeBuffers[host := buffer];
      }
    }

    // ---- events ----

    method OnDone(host: u32, data: u32)
      modifies this, table
      ensures State() == old(State()).OnDone(host, data)
    {
      if !table.State().IsEventSenderKnown(host) || table.State().IsPendingDestroyHost(host) {
        return;
      }
      if host in barriers {
        barriers := barriers - {host};
        var inserted := table.MarkPendingDestroyHost(host);
        return;
      }
      if host in table.hostToGuest {
        var guest := table.hostToGuest[host];
        toGuest := toGuest + [Done(guest, data)];
        toGuest := toGuest + [DeleteId(guest)];
        var retained := table.RetireServerDestroyedObject(guest);
      }
    }

    method OnDeleteId(host: u32)
      modifies this, table
      ensures State() == old(State()).OnDeleteId(host)
    {
      hide table.State().RemoveId, table.State().RemoveGuestMapping, table.State().ClearPendingDestroyGuest;
      var consumed := table.ConsumeHostDeleteId(host);
      if consumed {
        RemoveNativeBuffer(host);
        return;
      }
      assert table.State() == old(table.State());
      if host in orphanedParams {
        AcknowledgeOrphan(host, orphanedParams[host]);
        return;
      }
      if host in table.hostToGuest {
        var guest := table.hostToGuest[host];
        ReleaseResources(host);
        table.RemoveId(guest);
        toGuest := toGuest + [DeleteId(guest)];
      }
    }

    /** The `delete_id` of a destroyed params object whose create is unanswered. */
    method AcknowledgeOrphan(host: u32, guest: u32)
      modifies this`toGuest, table
      ensures State()
           == if Lookup(old(table.hostToGuest), host) == Some(guest) && guest in old(table.interfaces)
              then old(State()).(table := old(table.State()).RemoveGuestMapping(guest).ClearPendingDestroyGuest(guest),
                                 toGuest := old(toGuest) + [DeleteId(guest)])
              else old(State())
    {
      hide table.State().RemoveGuestMapping, table.State().ClearPendingDestroyGuest;
      if Lookup(table.hostToGuest, host) == Some(guest) && guest in table.interfaces {
        toGuest := toGuest + [DeleteId(guest)];
        table.RemoveGuestMapping(guest);
        table.ClearPendingDestroyGuest(guest);
      }
    }

    method ReleaseResources(host: u32)
      modifies this
      ensures State() == old(State()).RemoveNativeBuffer(host).CloseSync(host)
    {
      RemoveNativeBuffer(host);
      CloseSync(host);
    }

    method DiscardHostBuffer(params: u32, buffer: u32)
      modifies this, table
      ensures State() == old(State()).DiscardHostBuffer(params, buffer)
    {
      var version := match table.State().HostObjectVersion(params) case Some(v) => v case None => UNKNOWN_OBJECT_VERSION;
      table.TrackHostInterfaceWithVersion(buffer, WlBuffer, version);
      toHost := toHost + [DestroyObject(buffer)];
      var inserted := table.MarkPendingDestroyHost(buffer);
      orphanedParams := orphanedParams - {params};
      CloseSync(params);
    }

    method ReleaseOrphan(params: u32)
      modifies this, table
      ensures State() == old(State()).ReleaseOrphan(params)
    {
      if params !in table.hostToGuest {
        table.RemoveHostInterface(params);
      }
    }

    /** Forward `created` under a fresh guest server number; the sender is translated
        as it was when the event arrived. */
    method ExposeBuffer(params: u32, buffer: u32) returns (guestBuffer: Option<u32>)
      requires GUEST_SERVER_ID_START <= table.nextGuestServerId
      modifies this, table
      ensures guestBuffer.Some? ==>
                && old(table.State()).IsNextServer(guestBuffer.value)
                && State() == old(State()).ExposeBuffer(params, buffer, guestBuffer.value)
      ensures guestBuffer.None? ==> old(table.State()).ServerRangeExhausted()
    {
      var version := match table.State().HostObjectVersion(params) case Some(v) => v case None => UNKNOWN_OBJECT_VERSION;
      var guestParams := Lookup(table.hostToGuest, params);
      guestBuffer := table.AllocateGuestServerId();
      if guestBuffer.Some? {
        table.MapId(guestBuffer.value, buffer);
        table.TrackInterfaceWithVersion(guestBuffer.value, WlBuffer, version);
        table.SetHostVersion(buffer, version);
        if guestParams.Some? {
          toGuest := toGuest + [Created(guestParams.value, guestBuffer.value)];
        }
      }
    }

    /** `guestBuffer` is the number the buffer was exposed under, if it was. */
    method OnCreated(params: u32, buffer: u32) returns (guestBuffer: Option<u32>)
      requires GUEST_SERVER_ID_START <= table.nextGuestServerId
      modifies this, table
      ensures guestBuffer.Some? ==> old(table.State()).IsNextServer(guestBuffer.value)
      ensures || State() == old(State()).OnCreated(params, buffer, if guestBuffer.Some? then guestBuffer.value else 0)
              || (guestBuffer.None? && old(table.State()).ServerRangeExhausted())
    {
      guestBuffer := None;
      if !table.State().IsEventSenderKnown(params) {
        return;
      }
      if !table.State().IsHostIdAvailable(buffer) {
        fatal := true;
        return;
      }
      if params in orphanedParams {
        DiscardHostBuffer(params, buffer);
        ReleaseOrphan(params);
        return;
      }
      if params in table.hostToGuest {
        var guest := table.hostToGuest[params];
        if guest in table.pendingDestroyGuestIds {
          DiscardHostBuffer(params, buffer);
          return;
        }
        if params in pendingCreates {
          var pending := pendingCreates[params];
          if pending.guestParams != guest {
            CloseSync(params);
            fatal := true;
            return;
          }
          if buffer in nativeBuffers {
            CloseSync(params);
            guestBuffer := ExposeBuffer(params, buffer);
            fatal := true;
            return;
          }
          pendingCreates := pendingCreates - {params};
          nativeBuffers := nativeBuffers[buffer := NativeBuffer(pending.width, pending.height, pending.syncFds)];
        }
      }
      guestBuffer := ExposeBuffer(params, buffer);
    }

    method OnFailed(params: u32)
      modifies this, table
      ensures State() == old(State()).OnFailed(params)
    {
      if !table.State().IsEventSenderKnown(params) {
        return;
      }
      if params in orphanedParams {
        orphanedParams := orphanedParams - {params};
        CloseSync(params);
        ReleaseOrphan(params);
        return;
      }
      if params in table.hostToGuest {
        var guest := table.hostToGuest[params];
        if guest in table.pendingDestroyGuestIds {
          CloseSync(params);
          return;
        }
        if params in pendingCreates && pendingCreates[params].guestParams != guest {
          CloseSync(params);
          fatal := true;
          return;
        }
        CloseSync(params);
        toGuest := toGuest + [Failed(guest)];
      }
    }
  }
}

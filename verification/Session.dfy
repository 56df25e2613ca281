/**
 The ID-lifecycle part of the per-client context: the shadow table, the
 linux-dmabuf params bookkeeping and the ordered outgoing messages, with the
 handlers that decide when a number may be used again
 (sommelier/src/handler/display.rs, callback.rs, linux_dmabuf.rs, shm.rs and the
 dispatch arms emitted by wayland_codegen/src/generator.rs).

 Messages are kept as structured values; their byte form is the subject of the
 `Wire` module. The forwarded copy of a message and the messages its handler
 queues form one ordered stream per direction, as they do in the dispatch loop.
 */
module Sessions {
  import opened Prelude
  import opened ShadowTables
  import opened DmabufParams

  /** Resources of one asynchronous create, keyed by host params ID. */
  datatype PendingCreate = PendingCreate(guestParams: u32, width: i32, height: i32, syncFds: seq<Fd>)

  datatype NativeBuffer = NativeBuffer(width: i32, height: i32, syncFds: seq<Fd>)

  datatype BufferRequest = BufferRequest(width: i32, height: i32, format: u32, flags: u32)

  datatype HostMessage =
    | CreateObject(id: u32)
    | DestroyObject(id: u32)
    | AddPlane(params: u32, plane: Plane)
    | CreateAsync(params: u32, request: BufferRequest)
    | CreateImmediate(params: u32, buffer: u32, request: BufferRequest)

  datatype GuestMessage =
    | DeleteId(id: u32)
    | Done(callback: u32, data: u32)
    | Created(params: u32, buffer: u32)
    | Failed(params: u32)
    | ProtocolError(culprit: u32, code: u32)

  function AddPlanes(params: u32, planes: seq<Plane>): (messages: seq<HostMessage>)
    ensures |messages| == |planes|
    ensures forall i | 0 <= i < |planes| :: messages[i] == AddPlane(params, planes[i])
  {
    seq(|planes|, i requires 0 <= i < |planes| => AddPlane(params, planes[i]))
  }

  function PlaneFds(planes: seq<Plane>): (fds: seq<Fd>)
    ensures |fds| == |planes|
  {
    seq(|planes|, i requires 0 <= i < |planes| => planes[i].fd)
  }

  datatype Session = Session(
    table: Table,
    pendingParams: map<u32, seq<Plane>>,
    usedParams: set<u32>,
    pendingCreates: map<u32, PendingCreate>,
    orphanedParams: map<u32, u32>,
    nativeBuffers: map<u32, NativeBuffer>,
    deferredBuffers: set<u32>,
    hostOnly: set<u32>,
    barriers: set<u32>,
    toHost: seq<HostMessage>,
    toGuest: seq<GuestMessage>,
    closedFds: seq<Fd>,
    fatal: bool)
  {
    // ---- shared pieces ----

    /** The guard in front of every generated request arm. */
    predicate Admits(sender: u32) {
      && sender !in table.pendingDestroyGuestIds
      && (sender in table.guestToHost || table.IsLocalOnlyGuestObject(sender))
    }

    /** The dispatcher reports an error and the connection is closed. */
    function Reject(): Session {
      this.(fatal := true)
    }

    /** A fatal `wl_display.error` is queued for the guest. */
    function Report(culprit: u32, code: u32): Session {
      this.(fatal := true, toGuest := toGuest + [ProtocolError(culprit, code)])
    }

    function DiscardPlanes(params: u32): Session {
      if params !in pendingParams then this
      else this.(pendingParams := pendingParams - {params},
                 closedFds := closedFds + PlaneFds(pendingParams[params]))
    }

    function CloseSync(host: u32): Session {
      if host !in pendingCreates then this
      else this.(pendingCreates := pendingCreates - {host},
                 closedFds := closedFds + pendingCreates[host].syncFds)
    }

    function RemoveNativeBuffer(host: u32): Session {
      if host !in nativeBuffers then this
      else this.(nativeBuffers := nativeBuffers - {host},
                 closedFds := closedFds + nativeBuffers[host].syncFds)
    }

    // ---- requests ----

    /** A forwarded request with one typed new-ID argument; `host` is the allocated number. */
    function ForwardNew(sender: u32, id: u32, interface: Interface, host: u32): Session {
      if !Admits(sender) || !table.IsGuestIdAvailable(id) then Reject()
      else
        var version := match table.GuestObjectVersion(sender) case Some(v) => v case None => UNKNOWN_OBJECT_VERSION;
        var hostVersion := if sender in table.guestToHost && table.HostObjectVersion(table.guestToHost[sender]).Some?
                           then table.HostObjectVersion(table.guestToHost[sender]).value else version;
        var s := if interface == LinuxBufferParams then OnCreateParams(id) else this;
        s.(table := table.AdvanceHostCursor(host).MapId(id, host)
                         .TrackInterfaceWithVersion(id, interface, version)
                         .SetHostVersion(host, hostVersion),
           toHost := toHost + [CreateObject(host)])
    }

    function OnCreateParams(id: u32): Session {
      DiscardPlanes(id).(usedParams := usedParams - {id},
                         pendingParams := pendingParams[id := []])
    }

    /** `wl_display.sync` and `wl_display.get_registry`. */
    function DisplayNew(id: u32, interface: Interface, host: u32): Session {
      if !table.IsGuestIdAvailable(id) then Reject()
      else this.(table := table.AdvanceHostCursor(host).MapId(id, host).TrackInterface(id, interface),
                 toHost := toHost + [CreateObject(host)])
    }

    /** A forwarded destructor request. */
    function ForwardDestroy(sender: u32): Session
      requires sender in table.guestToHost
    {
      if !Admits(sender) then Reject()
      else
        var s := if table.GuestObjectMatches(sender, LinuxBufferParams) then OnParamsDestroy(sender) else this;
        s.(table := if sender >= GUEST_SERVER_ID_START then table.RemoveId(sender)
                    else table.MarkPendingDestroy(sender),
           toHost := toHost + [DestroyObject(table.guestToHost[sender])])
    }

    function OnParamsDestroy(id: u32): Session {
      var s := this.(usedParams := usedParams - {id});
      var t := if id in table.guestToHost && table.guestToHost[id] in pendingCreates
               then s.CloseSync(table.guestToHost[id])
                     .(orphanedParams := orphanedParams[table.guestToHost[id] := id])
               else s;
      t.DiscardPlanes(id)
    }

    /** `wl_buffer.destroy`: either deferred until the compositor is done, or completed now. */
    function DestroyBuffer(sender: u32, deferred: bool): Session
      requires sender in table.guestToHost
    {
      if !Admits(sender) then Reject()
      else if deferred then
        this.(table := table.RetireGuestObject(sender),
              deferredBuffers := deferredBuffers + {table.guestToHost[sender]})
      else CompleteBufferDestroy(sender)
    }

    /** Queue the host destructor and apply the ID-ownership policy of `complete_queued_buffer_destroy`. */
    function CompleteBufferDestroy(guest: u32): Session
      requires guest in table.guestToHost
    {
      var host := table.guestToHost[guest];
      var s := this.(toHost := toHost + [DestroyObject(host)], deferredBuffers := deferredBuffers - {host});
      if guest >= GUEST_SERVER_ID_START then
        if host !in nativeBuffers then s.Reject()
        else s.RemoveNativeBuffer(host).(table := table.RemoveId(guest))
      else s.(table := table.MarkPendingDestroy(guest))
    }

    /** A deferred buffer became idle (`retire_eligible_buffers`, `wl_buffer.release`). */
    function RetireDeferred(host: u32): Session
      requires host in table.hostToGuest && table.hostToGuest[host] in table.guestToHost
    {
      CompleteBufferDestroy(table.hostToGuest[host])
    }

    /** A synthetic guest object is bound; no host object backs it. */
    function LocalNew(id: u32, interface: Interface): Session {
      if !table.IsGuestIdAvailable(id) then Reject()
      else this.(table := table.TrackInterface(id, interface))
    }

    function LocalDestroy(id: u32): Session {
      if !Admits(id) then Reject()
      else if id in table.interfaces && id !in table.guestToHost
      then this.(table := table.RemoveId(id), toGuest := toGuest + [DeleteId(id)])
      else this
    }

    /** `zwp_text_input_manager_v3.get_text_input`: a guest v3 object backed by a host v1 object. */
    function TextInputNew(id: u32, host: u32): Session {
      if !table.IsGuestIdAvailable(id) then Reject()
      else this.(table := table.AdvanceHostCursor(host).MapId(id, host)
                               .TrackInterfaceWithVersion(id, TextInputV3, 1)
                               .TrackHostInterfaceWithVersion(host, HostTextInputV1, 1),
                 toHost := toHost + [CreateObject(host)])
    }

    /** `zwp_text_input_v3.destroy`: the backing host object has no destructor. */
    function DestroyWithoutHostDestructor(id: u32): Session {
      if !Admits(id) then Reject()
      else if id !in table.interfaces then this
      else this.(table := table.RemoveGuestMapping(id), toGuest := toGuest + [DeleteId(id)])
    }

    /** An object the proxy binds for itself, or (as a `barrier`) a `wl_display.sync` of its own. */
    function BindHostOnly(interface: Interface, version: u32, barrier: bool, host: u32): Session {
      this.(table := table.AdvanceHostCursor(host).TrackHostInterfaceWithVersion(host, interface, version),
            toHost := toHost + [CreateObject(host)],
            hostOnly := if barrier then hostOnly else hostOnly + {host},
            barriers := if barrier then barriers + {host} else barriers)
    }

    function DestroyHostOnly(host: u32): Session {
      this.(table := table.MarkPendingDestroyHost(host),
            toHost := toHost + [DestroyObject(host)],
            hostOnly := hostOnly - {host})
    }

    /** A host-only object whose protocol has no destructor. */
    function RetireHostOnly(host: u32): Session {
      this.(table := table.RetireHostInterface(host), hostOnly := hostOnly - {host})
    }

    // ---- linux-dmabuf requests ----

    /** `zwp_linux_buffer_params_v1.add`; `duplicate` is `None` when `dup` fails. */
    function OnAdd(params: u32, plane: Plane, duplicate: Option<Fd>): Session {
      if !Admits(params) then Reject()
      else if plane.fd < 0 then this
      else if params in usedParams then Report(params, 0)
      else if plane.planeIdx > 1 then Report(params, 1)
      else if params in pendingParams
              && exists i | 0 <= i < |pendingParams[params]| :: pendingParams[params][i].planeIdx == plane.planeIdx
      then Report(params, 2)
      else if duplicate.None? then this
      else if params !in pendingParams then this.(closedFds := closedFds + [duplicate.value])
      else this.(pendingParams := pendingParams[params := pendingParams[params] + [plane.(fd := duplicate.value)]])
    }

    /** Whether `process_params` reaches its CREATE request. */
    predicate CanProcess(params: u32, syncFds: Option<seq<Fd>>) {
      params in pendingParams && params in table.guestToHost && syncFds.Some? && syncFds.value != []
    }

    /** The outcome of `process_params` for one consumed plane list. `syncFds` holds the
        duplicated descriptors, `None` when duplication fails. */
    function ProcessParams(params: u32, syncFds: Option<seq<Fd>>, create: HostMessage): Session {
      if params !in pendingParams then this
      else if !CanProcess(params, syncFds) then
        // Duplicates made before the failure are dropped with the vector that owns them.
        DiscardPlanes(params).Reject()
      else
        this.(pendingParams := pendingParams - {params},
              usedParams := usedParams + {params},
              toHost := toHost + AddPlanes(table.guestToHost[params], pendingParams[params]) + [create])
    }

    function OnCreate(params: u32, request: BufferRequest, syncFds: Option<seq<Fd>>): Session
      requires params in table.guestToHost
    {
      var host := table.guestToHost[params];
      if !Admits(params) then Reject()
      else if params in usedParams then Report(params, 0)
      else if !ValidParams(Lookup(pendingParams, params), request.width, request.height, request.format) then
        Report(params, ParamsErrorCode(Lookup(pendingParams, params), request.width, request.height, request.format))
          .DiscardPlanes(params)
      else
        var s := ProcessParams(params, syncFds, CreateAsync(host, request));
        if !CanProcess(params, syncFds) then s
        else if host in pendingCreates then s.Reject().(closedFds := s.closedFds + syncFds.value)
        else s.(pendingCreates := pendingCreates[host := PendingCreate(params, request.width, request.height, syncFds.value)])
    }

    function OnCreateImmed(params: u32, buffer: u32, request: BufferRequest, host: u32, syncFds: Option<seq<Fd>>): Session
      requires params in table.guestToHost
    {
      if !Admits(params) || !table.IsGuestIdAvailable(buffer) then Reject()
      else if params in usedParams then Report(params, 0)
      else if params !in pendingParams then this
      else if !ValidParams(Some(pendingParams[params]), request.width, request.height, request.format) then
        Report(params, ParamsErrorCode(Some(pendingParams[params]), request.width, request.height, request.format))
          .DiscardPlanes(params)
      else
        var version := match table.GuestObjectVersion(params) case Some(v) => v case None => UNKNOWN_OBJECT_VERSION;
        var mapped := this.(table := table.AdvanceHostCursor(host).MapId(buffer, host)
                                       .TrackInterfaceWithVersion(buffer, WlBuffer, version)
                                       .SetHostVersion(host, version));
        var create := CreateImmediate(table.guestToHost[params], host, request);
        if !CanProcess(params, syncFds) then
          var s := DiscardPlanes(params).Reject();
          s.(table := mapped.table.RemoveId(buffer))
        else
          var s := mapped.ProcessParams(params, syncFds, create);
          if host in nativeBuffers then s.Reject().(closedFds := s.closedFds + syncFds.value)
          else s.(nativeBuffers := nativeBuffers[host := NativeBuffer(request.width, request.height, syncFds.value)])
    }

    // ---- events ----

    /** `wl_callback.done`. */
    function OnDone(host: u32, data: u32): Session {
      if !table.IsEventSenderKnown(host) || table.IsPendingDestroyHost(host) then this
      else if host in barriers then
        this.(table := table.MarkPendingDestroyHost(host), barriers := barriers - {host})
      else if host !in table.hostToGuest then this
      else
        var guest := table.hostToGuest[host];
        this.(table := table.RetireServerDestroyedObject(guest),
              toGuest := toGuest + [Done(guest, data), DeleteId(guest)])
    }

    /** `wl_display.delete_id`. */
    function OnDeleteId(host: u32): Session {
      if host in table.pendingDestroyHostIds then
        RemoveNativeBuffer(host).(table := table.ConsumeHostDeleteId(host))
      else if host in orphanedParams then
        var guest := orphanedParams[host];
        if Lookup(table.hostToGuest, host) == Some(guest) && guest in table.interfaces
        then this.(table := table.RemoveGuestMapping(guest).ClearPendingDestroyGuest(guest),
                   toGuest := toGuest + [DeleteId(guest)])
        else this
      else if host in table.hostToGuest then
        var guest := table.hostToGuest[host];
        RemoveNativeBuffer(host).CloseSync(host)
          .(table := table.RemoveId(guest), toGuest := toGuest + [DeleteId(guest)])
      else this
    }

    /** A host buffer nobody can use any more: destroy it, keep its number. */
    function DiscardHostBuffer(params: u32, buffer: u32): Session {
      var version := match table.HostObjectVersion(params) case Some(v) => v case None => UNKNOWN_OBJECT_VERSION;
      CloseSync(params)
        .(table := table.TrackHostInterfaceWithVersion(buffer, WlBuffer, version).MarkPendingDestroyHost(buffer),
          toHost := toHost + [DestroyObject(buffer)],
          orphanedParams := orphanedParams - {params})
    }

    /** Release a params number that was kept only to dispatch the late answer. */
    function ReleaseOrphan(params: u32): Session {
      if params in table.hostToGuest then this
      else this.(table := table.RemoveHostInterface(params))
    }

    /** `zwp_linux_buffer_params_v1.created`; `guestBuffer` is the fresh guest server ID. */
    function OnCreated(params: u32, buffer: u32, guestBuffer: u32): Session {
      if !table.IsEventSenderKnown(params) then this
      else if !table.IsHostIdAvailable(buffer) then Reject()
      else if params in orphanedParams then DiscardHostBuffer(params, buffer).ReleaseOrphan(params)
      else if params !in table.hostToGuest then ExposeBuffer(params, buffer, guestBuffer)
      else
        var guest := table.hostToGuest[params];
        if guest in table.pendingDestroyGuestIds then DiscardHostBuffer(params, buffer)
        else if params !in pendingCreates then ExposeBuffer(params, buffer, guestBuffer)
        else
          var pending := pendingCreates[params];
          if pending.guestParams != guest then CloseSync(params).Reject()
          else if buffer in nativeBuffers then
            CloseSync(params).ExposeBuffer(params, buffer, guestBuffer).Reject()
          else
            this.(pendingCreates := pendingCreates - {params},
                  nativeBuffers := nativeBuffers[buffer := NativeBuffer(pending.width, pending.height, pending.syncFds)])
                .ExposeBuffer(params, buffer, guestBuffer)
    }

    /** The generated arm for a forwarded `created`: translate the new ID, then the sender. */
    function ExposeBuffer(params: u32, buffer: u32, guestBuffer: u32): Session {
      var version := match table.HostObjectVersion(params) case Some(v) => v case None => UNKNOWN_OBJECT_VERSION;
      this.(table := table.AdvanceGuestServerCursor(guestBuffer).MapId(guestBuffer, buffer)
                          .TrackInterfaceWithVersion(guestBuffer, WlBuffer, version)
                          .SetHostVersion(buffer, version),
            toGuest := if params in table.hostToGuest
                       then toGuest + [Created(table.hostToGuest[params], guestBuffer)] else toGuest)
    }

    /** `zwp_linux_buffer_params_v1.failed`. */
    function OnFailed(params: u32): Session {
      if !table.IsEventSenderKnown(params) then this
      else if params in orphanedParams then
        CloseSync(params).(orphanedParams := orphanedParams - {params}).ReleaseOrphan(params)
      else if params !in table.hostToGuest then this
      else
        var guest := table.hostToGuest[params];
        if guest in table.pendingDestroyGuestIds then CloseSync(params)
        else if params in pendingCreates && pendingCreates[params].guestParams != guest then CloseSync(params).Reject()
        else CloseSync(params).(toGuest := toGuest + [Failed(guest)])
    }
  }

  /** `Client::run` pairs the display before the first message. */
  const START: Session :=
    Session(EMPTY.MapId(1, 1).TrackInterface(1, WlDisplay), map[], {}, map[], map[], map[], {}, {}, {}, [], [], [], false)
}

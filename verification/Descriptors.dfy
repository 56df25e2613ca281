/**
 Descriptor accounting for the objects a session owns: duplicated plane
 descriptors, the synchronization descriptors of creates and buffers, and those
 handed to the host inside a message. Nothing leaks and nothing is closed twice,
 on any path, whether or not the handler ends the connection.
 */
module Descriptors {
  import opened Prelude
  import opened ShadowTables
  import opened DmabufParams
  import opened Sessions
  import opened Protocol

  /** All descriptors in a table of lists, with multiplicity. */
  ghost function Pool(m: map<u32, seq<Fd>>): multiset<Fd> {
    if m == map[] then multiset{}
    else var k :| k in m; multiset(m[k]) + Pool(m - {k})
  }

  lemma {:induction false} PoolRemove(m: map<u32, seq<Fd>>, k: u32)
    requires k in m
    ensures Pool(m) == multiset(m[k]) + Pool(m - {k})
    decreases |m|
  {
    var c :| c in m && Pool(m) == multiset(m[c]) + Pool(m - {c});
    if c != k {
      PoolRemove(m - {c}, k);
      PoolRemove(m - {k}, c);
      assert m - {c} - {k} == m - {k} - {c};
    }
  }

  lemma PoolInsert(m: map<u32, seq<Fd>>, k: u32, fds: seq<Fd>)
    requires k !in m
    ensures Pool(m[k := fds]) == Pool(m) + multiset(fds)
  {
    PoolRemove(m[k := fds], k);
    assert m[k := fds] - {k} == m;
  }

  lemma PoolExtend(m: map<u32, seq<Fd>>, k: u32, fd: Fd)
    requires k in m
    ensures Pool(m[k := m[k] + [fd]]) == Pool(m) + multiset{fd}
  {
    PoolRemove(m, k);
    PoolRemove(m[k := m[k] + [fd]], k);
    assert m[k := m[k] + [fd]] - {k} == m - {k};
  }

  function PlaneLists(m: map<u32, seq<Plane>>): map<u32, seq<Fd>> {
    map k | k in m :: PlaneFds(m[k])
  }

  function CreateLists(m: map<u32, PendingCreate>): map<u32, seq<Fd>> {
    map k | k in m :: m[k].syncFds
  }

  function BufferLists(m: map<u32, NativeBuffer>): map<u32, seq<Fd>> {
    map k | k in m :: m[k].syncFds
  }

  /** The descriptors that travel with a message. */
  function MessageFds(m: HostMessage): seq<Fd> {
    match m
    case AddPlane(_, plane) => [plane.fd]
    case _ => []
  }

  function AllMessageFds(ms: seq<HostMessage>): multiset<Fd> {
    if ms == [] then multiset{} else AllMessageFds(ms[..|ms| - 1]) + multiset(MessageFds(ms[|ms| - 1]))
  }

  /** Descriptors the session must still close. */
  ghost function Held(s: Session): multiset<Fd> {
    Pool(PlaneLists(s.pendingParams)) + Pool(CreateLists(s.pendingCreates)) + Pool(BufferLists(s.nativeBuffers))
  }

  /** Every descriptor the session has ever owned: held, closed, or sent. */
  ghost function Account(s: Session): multiset<Fd> {
    Held(s) + multiset(s.closedFds) + AllMessageFds(s.toHost)
  }

  // ---- single movements ----

  lemma MessageFdsOne(a: seq<HostMessage>, m: HostMessage)
    ensures AllMessageFds(a + [m]) == AllMessageFds(a) + multiset(MessageFds(m))
  {
    assert (a + [m])[..|a + [m]| - 1] == a;
  }

  lemma {:induction false} MessageFdsAppend(a: seq<HostMessage>, b: seq<HostMessage>)
    ensures AllMessageFds(a + b) == AllMessageFds(a) + AllMessageFds(b)
  {
    if b == [] {
      assert a + b == a;
    } else {
      var init, last := b[..|b| - 1], b[|b| - 1];
      assert a + b == a + init + [last];
      MessageFdsOne(a + init, last);
      MessageFdsAppend(a, init);
    }
  }

  lemma {:induction false} PlanesCarryTheirFds(params: u32, planes: seq<Plane>)
    ensures AllMessageFds(AddPlanes(params, planes)) == multiset(PlaneFds(planes))
  {
    if planes == [] {
      assert AddPlanes(params, planes) == [];
    } else {
      var init, last := planes[..|planes| - 1], planes[|planes| - 1];
      PlanesCarryTheirFds(params, init);
      AddPlanesOne(params, init, last);
      assert planes == init + [last];
      MessageFdsOne(AddPlanes(params, init), AddPlane(params, last));
      hide AllMessageFds, AddPlanes, PlaneFds;
    }
  }

  lemma AddPlanesOne(params: u32, planes: seq<Plane>, plane: Plane)
    ensures AddPlanes(params, planes + [plane]) == AddPlanes(params, planes) + [AddPlane(params, plane)]
    ensures PlaneFds(planes + [plane]) == PlaneFds(planes) + [plane.fd]
  {
  }

  lemma CloseMoves(rest: multiset<Fd>, fds: seq<Fd>, left: multiset<Fd>, closed: seq<Fd>, sent: multiset<Fd>)
    ensures left + rest + multiset(closed + fds) + sent == multiset(fds) + left + rest + multiset(closed) + sent
  {
  }

  lemma PlaneListsWithout(m: map<u32, seq<Plane>>, k: u32)
    ensures PlaneLists(m - {k}) == PlaneLists(m) - {k}
  {
  }

  lemma CreateListsWithout(m: map<u32, PendingCreate>, k: u32)
    ensures CreateLists(m - {k}) == CreateLists(m) - {k}
  {
  }

  lemma BufferListsWithout(m: map<u32, NativeBuffer>, k: u32)
    ensures BufferLists(m - {k}) == BufferLists(m) - {k}
  {
  }

  lemma DiscardConserves(s: Session, params: u32)
    ensures Account(s.DiscardPlanes(params)) == Account(s)
    ensures params !in s.DiscardPlanes(params).pendingParams
  {
    if params in s.pendingParams {
      PoolRemove(PlaneLists(s.pendingParams), params);
      PlaneListsWithout(s.pendingParams, params);
      var left := Pool(PlaneLists(s.pendingParams) - {params});
      var rest := Pool(CreateLists(s.pendingCreates)) + Pool(BufferLists(s.nativeBuffers));
      hide Pool, AllMessageFds;
      CloseMoves(rest, PlaneFds(s.pendingParams[params]), left, s.closedFds, AllMessageFds(s.toHost));
    }
  }

  lemma CloseSyncConserves(s: Session, host: u32)
    ensures Account(s.CloseSync(host)) == Account(s)
  {
    if host in s.pendingCreates {
      PoolRemove(CreateLists(s.pendingCreates), host);
      CreateListsWithout(s.pendingCreates, host);
      var left := Pool(CreateLists(s.pendingCreates) - {host});
      var rest := Pool(PlaneLists(s.pendingParams)) + Pool(BufferLists(s.nativeBuffers));
      hide Pool, AllMessageFds;
      CloseMoves(rest, s.pendingCreates[host].syncFds, left, s.closedFds, AllMessageFds(s.toHost));
    }
  }

  lemma RemoveNativeConserves(s: Session, host: u32)
    ensures Account(s.RemoveNativeBuffer(host)) == Account(s)
  {
    if host in s.nativeBuffers {
      PoolRemove(BufferLists(s.nativeBuffers), host);
      BufferListsWithout(s.nativeBuffers, host);
      var left := Pool(BufferLists(s.nativeBuffers) - {host});
      var rest := Pool(PlaneLists(s.pendingParams)) + Pool(CreateLists(s.pendingCreates));
      hide Pool, AllMessageFds;
      CloseMoves(rest, s.nativeBuffers[host].syncFds, left, s.closedFds, AllMessageFds(s.toHost));
    }
  }

  lemma TrackLists(m: map<u32, seq<Plane>>, params: u32)
    ensures PlaneLists(m[params := []]) == PlaneLists(m)[params := []]
  {
  }

  lemma TrackConserves(s: Session, params: u32)
    requires params !in s.pendingParams
    ensures Account(s.(pendingParams := s.pendingParams[params := []])) == Account(s)
  {
    TrackLists(s.pendingParams, params);
    PoolInsert(PlaneLists(s.pendingParams), params, []);
    hide Pool;
  }

  lemma AppendPlaneAdds(s: Session, params: u32, plane: Plane)
    requires params in s.pendingParams
    ensures Account(s.(pendingParams := s.pendingParams[params := s.pendingParams[params] + [plane]]))
         == Account(s) + multiset{plane.fd}
  {
    PlanesExtend(s.pendingParams, params, plane);
    PoolExtend(PlaneLists(s.pendingParams), params, plane.fd);
  }

  lemma PlanesExtend(m: map<u32, seq<Plane>>, params: u32, plane: Plane)
    requires params in m
    ensures PlaneLists(m[params := m[params] + [plane]]) == PlaneLists(m)[params := PlaneFds(m[params]) + [plane.fd]]
  {
    assert PlaneFds(m[params] + [plane]) == PlaneFds(m[params]) + [plane.fd];
  }

  /** Consumed planes leave with the messages that add them. */
  lemma ConsumeConserves(s: Session, params: u32, create: HostMessage, target: u32)
    requires params in s.pendingParams && MessageFds(create) == []
    ensures Account(s.(pendingParams := s.pendingParams - {params},
                       toHost := s.toHost + AddPlanes(target, s.pendingParams[params]) + [create])) == Account(s)
  {
    var planes := s.pendingParams[params];
    PoolRemove(PlaneLists(s.pendingParams), params);
    PlaneListsWithout(s.pendingParams, params);
    MessageFdsOne(s.toHost + AddPlanes(target, planes), create);
    MessageFdsAppend(s.toHost, AddPlanes(target, planes));
    PlanesCarryTheirFds(target, planes);
  }

  lemma BeginLists(m: map<u32, PendingCreate>, host: u32, create: PendingCreate)
    ensures CreateLists(m[host := create]) == CreateLists(m)[host := create.syncFds]
  {
  }

  lemma BeginAdds(s: Session, host: u32, create: PendingCreate)
    requires host !in s.pendingCreates
    ensures Account(s.(pendingCreates := s.pendingCreates[host := create])) == Account(s) + multiset(create.syncFds)
  {
    BeginLists(s.pendingCreates, host, create);
    PoolInsert(CreateLists(s.pendingCreates), host, create.syncFds);
    hide Pool;
  }

  lemma ImportLists(m: map<u32, NativeBuffer>, host: u32, buffer: NativeBuffer)
    ensures BufferLists(m[host := buffer]) == BufferLists(m)[host := buffer.syncFds]
  {
  }

  lemma ImportAdds(s: Session, host: u32, buffer: NativeBuffer)
    requires host !in s.nativeBuffers
    ensures Account(s.(nativeBuffers := s.nativeBuffers[host := buffer])) == Account(s) + multiset(buffer.syncFds)
  {
    ImportLists(s.nativeBuffers, host, buffer);
    PoolInsert(BufferLists(s.nativeBuffers), host, buffer.syncFds);
    hide Pool;
  }

  // ---- handlers ----

  /** Nothing that counts towards the account differs. */
  predicate SameBooks(s: Session, after: Session) {
    && after.pendingParams == s.pendingParams && after.pendingCreates == s.pendingCreates
    && after.nativeBuffers == s.nativeBuffers && after.closedFds == s.closedFds
    && (after.toHost == s.toHost
        || (|after.toHost| == |s.toHost| + 1 && after.toHost[..|s.toHost|] == s.toHost
            && MessageFds(after.toHost[|s.toHost|]) == []))
  }

  lemma SameBooksConserve(s: Session, after: Session)
    requires SameBooks(s, after)
    ensures Account(after) == Account(s)
  {
    if after.toHost != s.toHost {
      MessageFdsOne(s.toHost, after.toHost[|s.toHost|]);
      assert after.toHost == s.toHost + [after.toHost[|s.toHost|]];
    }
  }

  lemma ParamsConserve(s: Session, id: u32)
    ensures Account(s.OnCreateParams(id)) == Account(s)
    ensures s.OnCreateParams(id).toHost == s.toHost
  {
    hide Account;
    var d := s.DiscardPlanes(id).(usedParams := s.usedParams - {id});
    DiscardConserves(s, id);
    SameBooksConserve(s.DiscardPlanes(id), d);
    TrackConserves(d, id);
    assert s.OnCreateParams(id) == d.(pendingParams := d.pendingParams[id := []]);
  }

  lemma ForwardNewConserves(s: Session, sender: u32, id: u32, interface: Interface, host: u32)
    ensures Account(s.ForwardNew(sender, id, interface, host)) == Account(s)
  {
    hide Account, s.OnCreateParams, s.table.MapId;
    var after := s.ForwardNew(sender, id, interface, host);
    ParamsConserve(s, id);
    if !s.Admits(sender) || !s.table.IsGuestIdAvailable(id) || interface != LinuxBufferParams {
      SameBooksConserve(s, after);
    } else {
      SameBooksConserve(s.OnCreateParams(id), after);
    }
  }

  lemma DisplayNewConserves(s: Session, id: u32, interface: Interface, host: u32)
    ensures Account(s.DisplayNew(id, interface, host)) == Account(s)
  {
    hide Account, s.table.MapId;
    SameBooksConserve(s, s.DisplayNew(id, interface, host));
  }

  lemma TextInputNewConserves(s: Session, id: u32, host: u32)
    ensures Account(s.TextInputNew(id, host)) == Account(s)
  {
    hide Account, s.table.MapId;
    SameBooksConserve(s, s.TextInputNew(id, host));
  }

  lemma UnpairedNewConserves(s: Session, id: u32, interface: Interface, version: u32, barrier: bool, host: u32)
    ensures Account(s.LocalNew(id, interface)) == Account(s)
    ensures Account(s.BindHostOnly(interface, version, barrier, host)) == Account(s)
  {
    hide Account;
    SameBooksConserve(s, s.LocalNew(id, interface));
    SameBooksConserve(s, s.BindHostOnly(interface, version, barrier, host));
  }

  lemma ParamsDestroyConserves(s: Session, id: u32)
    ensures Account(s.OnParamsDestroy(id)) == Account(s)
    ensures s.OnParamsDestroy(id).toHost == s.toHost
  {
    hide Account;
    var a := s.(usedParams := s.usedParams - {id});
    SameBooksConserve(s, a);
    if id in s.table.guestToHost && s.table.guestToHost[id] in s.pendingCreates {
      var host := s.table.guestToHost[id];
      CloseSyncConserves(a, host);
      var b := a.CloseSync(host).(orphanedParams := s.orphanedParams[host := id]);
      SameBooksConserve(a.CloseSync(host), b);
      DiscardConserves(b, id);
      assert s.OnParamsDestroy(id) == b.DiscardPlanes(id);
    } else {
      DiscardConserves(a, id);
      assert s.OnParamsDestroy(id) == a.DiscardPlanes(id);
    }
  }

  lemma ForwardDestroyConserves(s: Session, sender: u32)
    requires sender in s.table.guestToHost
    ensures Account(s.ForwardDestroy(sender)) == Account(s)
  {
    hide Account, s.OnParamsDestroy;
    ParamsDestroyConserves(s, sender);
    var after := s.ForwardDestroy(sender);
    if !s.Admits(sender) || !s.table.GuestObjectMatches(sender, LinuxBufferParams) {
      SameBooksConserve(s, after);
    } else {
      SameBooksConserve(s.OnParamsDestroy(sender), after);
    }
  }

  lemma CompleteBufferConserves(s: Session, guest: u32)
    requires guest in s.table.guestToHost
    ensures Account(s.CompleteBufferDestroy(guest)) == Account(s)
  {
    hide Account;
    var host := s.table.guestToHost[guest];
    var a := s.(toHost := s.toHost + [DestroyObject(host)], deferredBuffers := s.deferredBuffers - {host});
    SameBooksConserve(s, a);
    RemoveNativeConserves(a, host);
    var after := s.CompleteBufferDestroy(guest);
    if guest >= GUEST_SERVER_ID_START && host in s.nativeBuffers {
      SameBooksConserve(a.RemoveNativeBuffer(host), after);
    } else {
      SameBooksConserve(a, after);
    }
  }

  lemma QuietConserves(s: Session, id: u32)
    ensures Account(s.LocalDestroy(id)) == Account(s)
    ensures Account(s.DestroyWithoutHostDestructor(id)) == Account(s)
    ensures Account(s.DestroyHostOnly(id)) == Account(s)
    ensures Account(s.RetireHostOnly(id)) == Account(s)
  {
    GuestSideIsQuiet(s, id);
    HostSideIsQuiet(s, id);
    hide *;
    SameBooksConserve(s, s.LocalDestroy(id));
    SameBooksConserve(s, s.DestroyWithoutHostDestructor(id));
    SameBooksConserve(s, s.DestroyHostOnly(id));
    SameBooksConserve(s, s.RetireHostOnly(id));
  }

  lemma GuestSideIsQuiet(s: Session, id: u32)
    ensures SameBooks(s, s.LocalDestroy(id)) && SameBooks(s, s.DestroyWithoutHostDestructor(id))
  {
    hide s.table.RemoveId, s.table.RemoveGuestMapping;
  }

  lemma HostSideIsQuiet(s: Session, host: u32)
    ensures SameBooks(s, s.DestroyHostOnly(host)) && SameBooks(s, s.RetireHostOnly(host))
  {
    hide s.table.MarkPendingDestroyHost, s.table.RetireHostInterface;
  }

  /** Whether `add` gets as far as duplicating its descriptor. */
  predicate Duplicates(s: Session, params: u32, plane: Plane) {
    && s.Admits(params) && plane.fd >= 0 && params !in s.usedParams && plane.planeIdx <= 1
    && !(params in s.pendingParams
         && exists i | 0 <= i < |s.pendingParams[params]| :: s.pendingParams[params][i].planeIdx == plane.planeIdx)
  }

  lemma CloseAdds(s: Session, fds: seq<Fd>)
    ensures Account(s.(closedFds := s.closedFds + fds)) == Account(s) + multiset(fds)
  {
  }

  lemma AddConserves(s: Session, params: u32, plane: Plane, duplicate: Option<Fd>)
    ensures Account(s.OnAdd(params, plane, duplicate)) ==
            Account(s) + if Duplicates(s, params, plane) && duplicate.Some? then multiset{duplicate.value} else multiset{}
  {
    hide Account;
    if !Duplicates(s, params, plane) {
      SameBooksConserve(s, s.OnAdd(params, plane, duplicate));
    } else if duplicate.None? {
      SameBooksConserve(s, s.OnAdd(params, plane, duplicate));
    } else if params in s.pendingParams {
      AppendPlaneAdds(s, params, plane.(fd := duplicate.value));
    } else {
      CloseAdds(s, [duplicate.value]);
    }
  }

  /** Whether `create` gets as far as sending its planes. */
  predicate Consumes(s: Session, params: u32, request: BufferRequest, syncFds: Option<seq<Fd>>) {
    && s.Admits(params) && params !in s.usedParams
    && ValidParams(Lookup(s.pendingParams, params), request.width, request.height, request.format)
    && s.CanProcess(params, syncFds)
  }

  lemma ProcessConserves(s: Session, params: u32, syncFds: Option<seq<Fd>>, create: HostMessage)
    requires MessageFds(create) == []
    ensures Account(s.ProcessParams(params, syncFds, create)) == Account(s)
  {
    hide Account;
    if params !in s.pendingParams {
    } else if !s.CanProcess(params, syncFds) {
      DiscardConserves(s, params);
      SameBooksConserve(s.DiscardPlanes(params), s.DiscardPlanes(params).Reject());
    } else {
      ConsumeConserves(s, params, create, s.table.guestToHost[params]);
      var consumed := s.(pendingParams := s.pendingParams - {params},
                         toHost := s.toHost + AddPlanes(s.table.guestToHost[params], s.pendingParams[params]) + [create]);
      SameBooksConserve(consumed, s.ProcessParams(params, syncFds, create));
    }
  }

  lemma ReportConserves(s: Session, params: u32, code: u32)
    ensures Account(s.Report(params, code)) == Account(s)
    ensures Account(s.Report(params, code).DiscardPlanes(params)) == Account(s)
    ensures Account(s.Reject()) == Account(s)
  {
    hide Account;
    SameBooksConserve(s, s.Report(params, code));
    DiscardConserves(s.Report(params, code), params);
    SameBooksConserve(s, s.Reject());
  }

  lemma CreateConserves(s: Session, params: u32, request: BufferRequest, syncFds: Option<seq<Fd>>)
    requires params in s.table.guestToHost
    ensures Account(s.OnCreate(params, request, syncFds)) ==
            Account(s) + if Consumes(s, params, request, syncFds) then multiset(syncFds.value) else multiset{}
  {
    hide Account, ValidParams, ParamsErrorCode, s.Admits;
    var host := s.table.guestToHost[params];
    var code := ParamsErrorCode(Lookup(s.pendingParams, params), request.width, request.height, request.format);
    if !s.Admits(params) {
      ReportConserves(s, params, 0);
    } else if params in s.usedParams {
      ReportConserves(s, params, 0);
    } else if !ValidParams(Lookup(s.pendingParams, params), request.width, request.height, request.format) {
      ReportConserves(s, params, code);
    } else {
      ProcessConserves(s, params, syncFds, CreateAsync(host, request));
      var p := s.ProcessParams(params, syncFds, CreateAsync(host, request));
      if s.CanProcess(params, syncFds) {
        if host in s.pendingCreates {
          CloseAdds(p.Reject(), syncFds.value);
          SameBooksConserve(p, p.Reject());
        } else {
          BeginAdds(p, host, PendingCreate(params, request.width, request.height, syncFds.value));
        }
      }
    }
  }

  /** Whether `create_immed` gets as far as sending its planes. */
  predicate ConsumesAtOnce(s: Session, params: u32, buffer: u32, request: BufferRequest, syncFds: Option<seq<Fd>>) {
    s.table.IsGuestIdAvailable(buffer) && params in s.pendingParams && Consumes(s, params, request, syncFds)
  }

  lemma CreateImmedConserves(s: Session, params: u32, buffer: u32, request: BufferRequest, host: u32, syncFds: Option<seq<Fd>>)
    requires params in s.table.guestToHost && s.table.IsHostIdAvailable(host)
    ensures Account(s.OnCreateImmed(params, buffer, request, host, syncFds)) ==
            Account(s) + if ConsumesAtOnce(s, params, buffer, request, syncFds) then multiset(syncFds.value) else multiset{}
  {
    hide Account, ValidParams, ParamsErrorCode, s.Admits, s.table.MapId;
    var target := s.table.guestToHost[params];
    var code := ParamsErrorCode(Lookup(s.pendingParams, params), request.width, request.height, request.format);
    if !s.Admits(params) || !s.table.IsGuestIdAvailable(buffer) {
      ReportConserves(s, params, 0);
    } else if params in s.usedParams || params !in s.pendingParams {
      ReportConserves(s, params, 0);
    } else if !ValidParams(Some(s.pendingParams[params]), request.width, request.height, request.format) {
      ReportConserves(s, params, code);
    } else if !s.CanProcess(params, syncFds) {
      ReportConserves(s.DiscardPlanes(params), params, 0);
      DiscardConserves(s, params);
      SameBooksConserve(s.DiscardPlanes(params), s.OnCreateImmed(params, buffer, request, host, syncFds));
    } else {
      ImmediateConserves(s, params, buffer, request, host, syncFds);
    }
  }

  /** The state in which an accepted `create_immed` has sent its messages. */
  function Consumed(s: Session, params: u32, table: Table, target: u32, create: HostMessage): Session
    requires params in s.pendingParams
  {
    s.(table := table,
       pendingParams := s.pendingParams - {params},
       usedParams := s.usedParams + {params},
       toHost := s.toHost + AddPlanes(target, s.pendingParams[params]) + [create])
  }

  lemma ConsumedConserves(s: Session, params: u32, table: Table, target: u32, create: HostMessage)
    requires params in s.pendingParams && MessageFds(create) == []
    ensures Account(Consumed(s, params, table, target, create)) == Account(s)
  {
    ConsumeConserves(s, params, create, target);
    hide Account;
    var c := s.(pendingParams := s.pendingParams - {params},
                toHost := s.toHost + AddPlanes(target, s.pendingParams[params]) + [create]);
    SameBooksConserve(c, Consumed(s, params, table, target, create));
  }

  lemma ImmediateIs(s: Session, params: u32, buffer: u32, request: BufferRequest, host: u32, syncFds: Option<seq<Fd>>)
    requires params in s.table.guestToHost && s.table.IsHostIdAvailable(host)
    requires ConsumesAtOnce(s, params, buffer, request, syncFds)
    ensures var after := s.OnCreateImmed(params, buffer, request, host, syncFds);
            var target := s.table.guestToHost[params];
            var c := Consumed(s, params, after.table, target, CreateImmediate(target, host, request));
            after == if host in s.nativeBuffers then c.Reject().(closedFds := c.closedFds + syncFds.value)
                     else c.(nativeBuffers := c.nativeBuffers[host := NativeBuffer(request.width, request.height, syncFds.value)])
  {
    MapIdKeeps(s.table.AdvanceHostCursor(host), buffer, host, params);
    hide ValidParams, ParamsErrorCode, s.table.MapId;
  }

  lemma ImmediateConserves(s: Session, params: u32, buffer: u32, request: BufferRequest, host: u32, syncFds: Option<seq<Fd>>)
    requires params in s.table.guestToHost && s.table.IsHostIdAvailable(host)
    requires ConsumesAtOnce(s, params, buffer, request, syncFds)
    ensures Account(s.OnCreateImmed(params, buffer, request, host, syncFds)) == Account(s) + multiset(syncFds.value)
  {
    ImmediateIs(s, params, buffer, request, host, syncFds);
    var after := s.OnCreateImmed(params, buffer, request, host, syncFds);
    hide Account, s.OnCreateImmed, ValidParams, s.Admits;
    var target := s.table.guestToHost[params];
    var create := CreateImmediate(target, host, request);
    ConsumedConserves(s, params, after.table, target, create);
    var c := Consumed(s, params, after.table, target, create);
    if host in s.nativeBuffers {
      CloseAdds(c.Reject(), syncFds.value);
      SameBooksConserve(c, c.Reject());
    } else {
      ImportAdds(c, host, NativeBuffer(request.width, request.height, syncFds.value));
    }
  }

  lemma DoneConserves(s: Session, host: u32, data: u32)
    ensures Account(s.OnDone(host, data)) == Account(s)
  {
    hide Account;
    SameBooksConserve(s, s.OnDone(host, data));
  }

  lemma DeleteIdBooks(s: Session, host: u32)
    ensures var after, removed := s.OnDeleteId(host), s.RemoveNativeBuffer(host);
            if host in s.table.pendingDestroyHostIds then SameBooks(removed, after)
            else if host in s.orphanedParams || host !in s.table.hostToGuest then SameBooks(s, after)
            else SameBooks(removed.CloseSync(host), after)
  {
    hide s.table.RemoveId, s.table.RemoveGuestMapping, s.CloseSync, s.RemoveNativeBuffer, s.table.ConsumeHostDeleteId;
  }

  lemma DeleteIdConserves(s: Session, host: u32)
    ensures Account(s.OnDeleteId(host)) == Account(s)
  {
    hide Account, s.OnDeleteId, s.CloseSync, s.RemoveNativeBuffer, SameBooks;
    var after, removed := s.OnDeleteId(host), s.RemoveNativeBuffer(host);
    DeleteIdBooks(s, host);
    RemoveNativeConserves(s, host);
    if host in s.table.pendingDestroyHostIds {
      SameBooksConserve(removed, after);
    } else if host in s.orphanedParams || host !in s.table.hostToGuest {
      SameBooksConserve(s, after);
    } else {
      CloseSyncConserves(removed, host);
      SameBooksConserve(removed.CloseSync(host), after);
    }
  }

  lemma ExposeConserves(s: Session, params: u32, buffer: u32, guestBuffer: u32)
    ensures Account(s.ExposeBuffer(params, buffer, guestBuffer)) == Account(s)
  {
    hide Account, s.table.MapId;
    SameBooksConserve(s, s.ExposeBuffer(params, buffer, guestBuffer));
  }

  lemma DiscardBufferConserves(s: Session, params: u32, buffer: u32)
    ensures Account(s.DiscardHostBuffer(params, buffer)) == Account(s)
    ensures Account(s.DiscardHostBuffer(params, buffer).ReleaseOrphan(params)) == Account(s)
  {
    hide Account;
    CloseSyncConserves(s, params);
    var d := s.DiscardHostBuffer(params, buffer);
    SameBooksConserve(s.CloseSync(params), d);
    SameBooksConserve(d, d.ReleaseOrphan(params));
  }

  /** The synchronization descriptors of an answered create move to its buffer. */
  lemma AdoptConserves(s: Session, params: u32, buffer: u32)
    requires params in s.pendingCreates && buffer !in s.nativeBuffers
    ensures var c := s.pendingCreates[params];
            Account(s.(pendingCreates := s.pendingCreates - {params},
                       nativeBuffers := s.nativeBuffers[buffer := NativeBuffer(c.width, c.height, c.syncFds)])) == Account(s)
  {
    var c := s.pendingCreates[params];
    PoolRemove(CreateLists(s.pendingCreates), params);
    CreateListsWithout(s.pendingCreates, params);
    ImportAdds(s.(pendingCreates := s.pendingCreates - {params}), buffer, NativeBuffer(c.width, c.height, c.syncFds));
  }

  lemma CreatedConserves(s: Session, params: u32, buffer: u32, guestBuffer: u32)
    ensures Account(s.OnCreated(params, buffer, guestBuffer)) == Account(s)
  {
    hide Account, s.ExposeBuffer, s.DiscardHostBuffer, s.ReleaseOrphan;
    ReportConserves(s, params, 0);
    DiscardBufferConserves(s, params, buffer);
    ExposeConserves(s, params, buffer, guestBuffer);
    if params in s.pendingCreates && params in s.table.hostToGuest {
      var c := s.CloseSync(params);
      CloseSyncConserves(s, params);
      ReportConserves(c, params, 0);
      ExposeConserves(c, params, buffer, guestBuffer);
      ReportConserves(c.ExposeBuffer(params, buffer, guestBuffer), params, 0);
      if buffer !in s.nativeBuffers {
        var p := s.pendingCreates[params];
        AdoptConserves(s, params, buffer);
        ExposeConserves(s.(pendingCreates := s.pendingCreates - {params},
                           nativeBuffers := s.nativeBuffers[buffer := NativeBuffer(p.width, p.height, p.syncFds)]),
                        params, buffer, guestBuffer);
      }
    }
  }

  lemma FailedConserves(s: Session, params: u32)
    ensures Account(s.OnFailed(params)) == Account(s)
  {
    hide Account;
    CloseSyncConserves(s, params);
    FailedBooks(s, params);
    if s.OnFailed(params) != s {
      SameBooksConserve(s.CloseSync(params), s.OnFailed(params));
    }
  }

  lemma FailedBooks(s: Session, params: u32)
    ensures SameBooks(s.CloseSync(params), s.OnFailed(params)) || s.OnFailed(params) == s
  {
    hide s.CloseSync;
    var closed := s.CloseSync(params);
    ReleaseBooks(closed.(orphanedParams := s.orphanedParams - {params}), params);
    hide closed.ReleaseOrphan;
  }

  lemma ReleaseBooks(s: Session, params: u32)
    ensures SameBooks(s, s.ReleaseOrphan(params))
  {
  }

  // ---- steps and runs ----

  /** The descriptors a handler obtains from the kernel. */
  function Obtained(s: Session, e: Event): multiset<Fd> {
    match e
    case Add(params, plane, duplicate) =>
      if Duplicates(s, params, plane) && duplicate.Some? then multiset{duplicate.value} else multiset{}
    case Create(params, request, syncFds) =>
      if Consumes(s, params, request, syncFds) then multiset(syncFds.value) else multiset{}
    case CreateImmed(params, buffer, request, _, syncFds) =>
      if ConsumesAtOnce(s, params, buffer, request, syncFds) then multiset(syncFds.value) else multiset{}
    case _ => multiset{}
  }

  /** Descriptors are conserved by every step, even one that ends the connection. */
  lemma StepConserves(w: World, e: Event)
    requires Enabled(w, e)
    ensures Account(Step(w, e).session) == Account(w.session) + Obtained(w.session, e)
  {
    assert Step(w, e).session == Handle(w.session, e);
    HandleConserves(w.session, e);
  }

  lemma HandleConserves(s: Session, e: Event)
    requires e.DestroyForwarded? || e.DestroyBuffer? ==> e.sender in s.table.guestToHost
    requires e.RetireBuffer? ==> e.host in s.table.hostToGuest && s.table.hostToGuest[e.host] in s.table.guestToHost
    requires e.Create? || e.CreateImmed? ==> e.params in s.table.guestToHost
    requires e.CreateImmed? ==> s.table.IsHostIdAvailable(e.host)
    ensures Account(Handle(s, e)) == Account(s) + Obtained(s, e)
  {
    hide Account, Duplicates, Consumes, ConsumesAtOnce, s.OnAdd, s.OnCreate, s.OnCreateImmed, s.OnCreated, s.OnFailed,
         s.OnDone, s.OnDeleteId, s.ForwardNew, s.DisplayNew, s.TextInputNew, s.LocalNew, s.BindHostOnly,
         s.ForwardDestroy, s.CompleteBufferDestroy, s.LocalDestroy, s.DestroyWithoutHostDestructor,
         s.DestroyHostOnly, s.RetireHostOnly;
    match e
    case NewForwarded(sender, id, interface, host) => ForwardNewConserves(s, sender, id, interface, host);
    case NewFromDisplay(id, interface, host) => DisplayNewConserves(s, id, interface, host);
    case NewTextInput(id, host) => TextInputNewConserves(s, id, host);
    case NewLocal(id, interface) => UnpairedNewConserves(s, id, interface, 1, true, 2);
    case NewHostOnly(interface, version, host) =>
      UnpairedNewConserves(s, 2, interface, version, interface == WlCallback, host);
    case DestroyForwarded(sender) => ForwardDestroyConserves(s, sender);
    case DestroyBuffer(sender, deferred) => DestroyBufferConserves(s, sender, deferred);
    case RetireBuffer(host) => CompleteBufferConserves(s, s.table.hostToGuest[host]);
    case DestroyLocal(id) => QuietConserves(s, id);
    case DestroyTextInput(id) => QuietConserves(s, id);
    case DestroyHostOnly(host) => QuietConserves(s, host);
    case RetireHostOnly(host) => QuietConserves(s, host);
    case Add(params, plane, duplicate) => AddConserves(s, params, plane, duplicate);
    case Create(params, request, syncFds) => CreateConserves(s, params, request, syncFds);
    case CreateImmed(params, buffer, request, host, syncFds) =>
      CreateImmedConserves(s, params, buffer, request, host, syncFds);
    case CallbackDone(host, data) => DoneConserves(s, host, data);
    case HostDeleteId(host) => DeleteIdConserves(s, host);
    case BufferAnnounced(params, buffer, guestBuffer) => CreatedConserves(s, params, buffer, guestBuffer);
    case CreateFailed(params) => FailedConserves(s, params);
  }

  lemma DestroyBufferConserves(s: Session, sender: u32, deferred: bool)
    requires sender in s.table.guestToHost
    ensures Account(s.DestroyBuffer(sender, deferred)) == Account(s)
  {
    hide Account, s.CompleteBufferDestroy;
    CompleteBufferConserves(s, sender);
    if !s.Admits(sender) || deferred {
      SameBooksConserve(s, s.DestroyBuffer(sender, deferred));
    }
  }

  ghost function ObtainedBy(w: World, es: seq<Event>): multiset<Fd>
    requires Legal(w, es)
    decreases |es|
  {
    if es == [] then multiset{} else Obtained(w.session, es[0]) + ObtainedBy(Step(w, es[0]), es[1..])
  }

  lemma {:induction false} RunConserves(w: World, es: seq<Event>)
    requires Legal(w, es)
    ensures Account(Run(w, es).session) == Account(w.session) + ObtainedBy(w, es)
    decreases |es|
  {
    hide Account, Enabled, Step, Obtained;
    if es != [] {
      StepConserves(w, es[0]);
      RunConserves(Step(w, es[0]), es[1..]);
    }
  }

  /** What dropping the context closes besides the queued messages. */
  ghost function ClosedByDrop(s: Session): multiset<Fd> {
    multiset(s.closedFds) + Held(s)
  }

  /** Every descriptor obtained on a connection was closed once or left with a
      message, whenever and however the connection ends. */
  lemma EveryDescriptorEndsOnce(es: seq<Event>)
    requires Legal(BEGIN, es)
    ensures ClosedByDrop(Run(BEGIN, es).session) + AllMessageFds(Run(BEGIN, es).session.toHost)
         == ObtainedBy(BEGIN, es)
  {
    RunConserves(BEGIN, es);
    assert PlaneLists(map[]) == map[] && CreateLists(map[]) == map[] && BufferLists(map[]) == map[];
    assert Account(START) == multiset{};
    hide Enabled, Step;
    DropCompletesAccount(Run(BEGIN, es).session);
  }

  lemma DropCompletesAccount(s: Session)
    ensures ClosedByDrop(s) + AllMessageFds(s.toHost) == Account(s)
  {
  }
}

/**
 A run from a new connection on which a host that reuses a freed buffer number, as it
 may, loses its client.
 */
module ReusedNumbers {
  import opened Prelude
  import opened ShadowTables
  import opened DmabufParams
  import opened Sessions
  import opened Lifecycle
  import opened Protocol
  import opened ProtocolSteps
  import opened AsyncCreates

  const PLANE: Plane := Plane(4, 0, 0, 32, 0, 0)
  const REGISTRY: u32 := 2
  const FACTORY: u32 := 3
  const FIRST: u32 := 4
  const SECOND: u32 := 5
  const REQUEST: BufferRequest := BufferRequest(8, 8, FORMAT_XRGB8888, 0)

  /** Guest and host number every object alike in this run, one after the other. */
  datatype Stage = Stage(
    next: u32,
    objects: map<u32, u32>,
    names: map<u32, Interface>,
    planes: map<u32, seq<Plane>>,
    used: set<u32>,
    creates: map<u32, PendingCreate>,
    orphans: map<u32, u32>,
    dying: set<u32>,
    host: Host)
  {
    function WithObject(id: u32, name: Interface): Stage
      requires id < GUEST_SERVER_ID_START
    {
      this.(next := id + 1, objects := objects[id := id], names := names[id := name], host := host.Learns(id))
    }

    function WithParams(id: u32): Stage
      requires id < GUEST_SERVER_ID_START
    {
      this.(next := id + 1, objects := objects[id := id], names := names[id := LinuxBufferParams], planes := planes[id := []],
            used := used - {id}, host := host.Learns(id))
    }

    function WithPlane(id: u32, fd: Fd): Stage {
      this.(planes := planes[id := [PLANE.(fd := fd)]])
    }

    function WithCreate(id: u32, fd: Fd): Stage {
      this.(planes := planes - {id}, used := used + {id}, creates := creates[id := PendingCreate(id, 8, 8, [fd])],
            host := host.Asked(id))
    }

    function Without(id: u32): Stage {
      this.(used := used - {id}, creates := creates - {id}, orphans := orphans[id := id], dying := dying + {id},
            host := host.Loses(id))
    }
  }

  /** The event's new number is the one the allocator finds from its cursor. */
  ghost predicate Allocated(t: Table, e: Event) {
    match e
    case NewForwarded(_, _, _, host) => t.IsNextHost(host)
    case NewFromDisplay(_, _, host) => t.IsNextHost(host)
    case NewTextInput(_, host) => t.IsNextHost(host)
    case NewHostOnly(_, _, host) => t.IsNextHost(host)
    case CreateImmed(_, _, _, host, _) => t.IsNextHost(host)
    case BufferAnnounced(_, _, guest) => t.IsNextServer(guest)
    case _ => true
  }

  ghost predicate At(w: World, st: Stage) {
    var s, t := w.session, w.session.table;
    && !s.fatal && w.host == st.host
    && t.nextHostId == st.next && t.nextGuestServerId == GUEST_SERVER_ID_START
    && t.guestToHost == st.objects && t.hostToGuest == st.objects && t.interfaces == st.names
    && t.hostInterfaces == map[] && t.retiredHostIds == {} && t.pendingDestroyHostIds == {}
    && t.pendingDestroyGuestIds == st.dying
    && s.pendingParams == st.planes && s.usedParams == st.used && s.pendingCreates == st.creates
    && s.orphanedParams == st.orphans && s.nativeBuffers == map[]
  }

  lemma HearsTwo(h: Host, a: HostMessage, b: HostMessage)
    ensures HearsAll(h, [a]) == Hears(h, a)
    ensures HearsAll(h, [a] + [b]) == Hears(Hears(h, a), b)
    ensures HearsAll(h, []) == h
  {
    assert [a][..0] == [];
    assert ([a] + [b])[..1] == [a];
  }

  lemma NewFromDisplayAt(w: World, st: Stage, id: u32, name: Interface)
    requires At(w, st) && 1 < id == st.next < GUEST_SERVER_ID_START && id !in st.objects && id !in st.names
    ensures var e := NewFromDisplay(id, name, id);
            Enabled(w, e) && Allocated(w.session.table, e) && At(Step(w, e), st.WithObject(id, name))
  {
    var s, e := w.session, NewFromDisplay(id, name, id);
    MapFresh(s.table.AdvanceHostCursor(id), id, id);
    assert Sent(s.toHost, Handle(s, e).toHost) == [CreateObject(id)];
    HearsTwo(w.host, CreateObject(id), CreateObject(id));
    hide s.table.MapId, HearsAll, Sent;
  }

  lemma NewForwardedAt(w: World, st: Stage, sender: u32, id: u32, name: Interface)
    requires At(w, st) && Lookup(st.objects, sender) == Some(sender) && sender !in st.dying && name != LinuxBufferParams
    requires 1 < id == st.next < GUEST_SERVER_ID_START && id !in st.objects && id !in st.names
    ensures var e := NewForwarded(sender, id, name, id);
            Enabled(w, e) && Allocated(w.session.table, e) && At(Step(w, e), st.WithObject(id, name))
  {
    var s, e := w.session, NewForwarded(sender, id, name, id);
    MapFresh(s.table.AdvanceHostCursor(id), id, id);
    assert Sent(s.toHost, Handle(s, e).toHost) == [CreateObject(id)];
    HearsTwo(w.host, CreateObject(id), CreateObject(id));
    hide s.table.MapId, HearsAll, Sent;
  }

  lemma NewParamsAt(w: World, st: Stage, id: u32)
    requires At(w, st) && Lookup(st.objects, FACTORY) == Some(FACTORY) && FACTORY !in st.dying
    requires 1 < id == st.next < GUEST_SERVER_ID_START && id !in st.objects && id !in st.names && id !in st.planes
    ensures var e := NewForwarded(FACTORY, id, LinuxBufferParams, id);
            Enabled(w, e) && Allocated(w.session.table, e) && At(Step(w, e), st.WithParams(id))
  {
    var s, e := w.session, NewForwarded(FACTORY, id, LinuxBufferParams, id);
    MapFresh(s.table.AdvanceHostCursor(id), id, id);
    assert Handle(s, e).toHost == s.toHost + [CreateObject(id)];
    assert Sent(s.toHost, Handle(s, e).toHost) == [CreateObject(id)];
    HearsTwo(w.host, CreateObject(id), CreateObject(id));
    hide s.table.MapId, HearsAll, Sent;
  }

  lemma AddAt(w: World, st: Stage, id: u32, fd: Fd)
    requires At(w, st) && id in st.objects && id !in st.dying && id !in st.used && Lookup(st.planes, id) == Some([])
    ensures var e := Add(id, PLANE, Some(fd));
            Enabled(w, e) && Allocated(w.session.table, e) && At(Step(w, e), st.WithPlane(id, fd))
  {
    var s, e := w.session, Add(id, PLANE, Some(fd));
    assert [] + [PLANE.(fd := fd)] == [PLANE.(fd := fd)];
    assert Sent(s.toHost, Handle(s, e).toHost) == [];
    HearsTwo(w.host, CreateObject(id), CreateObject(id));
    hide HearsAll, Sent;
  }

  lemma CreateAt(w: World, st: Stage, id: u32, plane: Fd, fd: Fd)
    requires At(w, st) && Lookup(st.objects, id) == Some(id) && Lookup(st.names, id) == Some(LinuxBufferParams)
    requires id !in st.dying && id !in st.used && plane >= 0 && Lookup(st.planes, id) == Some([PLANE.(fd := plane)])
    requires id !in st.creates
    ensures var e := Create(id, REQUEST, Some([fd]));
            Enabled(w, e) && Allocated(w.session.table, e) && At(Step(w, e), st.WithCreate(id, fd))
  {
    var s, e := w.session, Create(id, REQUEST, Some([fd]));
    var a, b := AddPlane(id, PLANE.(fd := plane)), CreateAsync(id, REQUEST);
    assert ValidParams(Lookup(s.pendingParams, id), 8, 8, FORMAT_XRGB8888);
    assert AddPlanes(id, s.pendingParams[id]) == [a];
    assert Handle(s, e).toHost == s.toHost + [a] + [b];
    assert Sent(s.toHost, Handle(s, e).toHost) == [a] + [b];
    HearsTwo(w.host, a, b);
    hide HearsAll, Sent;
  }

  lemma DestroyAt(w: World, st: Stage, id: u32)
    requires At(w, st) && Lookup(st.objects, id) == Some(id) && Lookup(st.names, id) == Some(LinuxBufferParams)
    requires 1 < id < GUEST_SERVER_ID_START && id !in st.dying && id in st.creates && id !in st.planes && id !in st.host.served
    ensures Enabled(w, DestroyForwarded(id)) && Allocated(w.session.table, DestroyForwarded(id))
    ensures At(Step(w, DestroyForwarded(id)), st.Without(id))
  {
    var s, e := w.session, DestroyForwarded(id);
    assert Handle(s, e).toHost == s.toHost + [DestroyObject(id)];
    assert Sent(s.toHost, Handle(s, e).toHost) == [DestroyObject(id)];
    HearsTwo(w.host, DestroyObject(id), DestroyObject(id));
    hide HearsAll, Sent;
  }

  // ---- the run ----

  const BUFFER: u32 := 0xff00_0000

  function Binding(): seq<Event> {
    [NewFromDisplay(REGISTRY, Other("wl_registry"), REGISTRY),
     NewForwarded(REGISTRY, FACTORY, Other("zwp_linux_dmabuf_v1"), FACTORY)]
  }

  function Creating(id: u32, plane: Fd, fd: Fd): seq<Event> {
    [NewForwarded(FACTORY, id, LinuxBufferParams, id), Add(id, PLANE, Some(plane)), Create(id, REQUEST, Some([fd]))]
  }

  const ANNOUNCED_TWICE: seq<Event> :=
    [BufferAnnounced(FIRST, BUFFER, BUFFER), BufferAnnounced(SECOND, BUFFER, BUFFER)]

  const REUSE: seq<Event> :=
    Binding() + (Creating(FIRST, 5, 6) + (Creating(SECOND, 7, 8) + ([DestroyForwarded(FIRST)] + ANNOUNCED_TWICE)))

  ghost predicate AllAllocated(w: World, es: seq<Event>)
    requires Legal(w, es)
    decreases |es|
  {
    es != [] ==> Allocated(w.session.table, es[0]) && AllAllocated(Step(w, es[0]), es[1..])
  }

  /** A legal run, with the numbers the allocators give, that closes the connection. */
  ghost predicate EndsFatally(w: World, es: seq<Event>) {
    Legal(w, es) && AllAllocated(w, es) && Run(w, es).session.fatal
  }

  lemma FatalAfter(w: World, es: seq<Event>)
    requires es != [] && Enabled(w, es[0]) && Allocated(w.session.table, es[0])
    requires EndsFatally(Step(w, es[0]), es[1..])
    ensures EndsFatally(w, es)
  {
    hide Enabled, Step, Allocated;
  }

  lemma FatalNow(w: World)
    requires w.session.fatal
    ensures EndsFatally(w, [])
  {
  }

  lemma StageHasRoom(w: World, st: Stage)
    requires At(w, st) && st.host.served == {} && forall h :: h in st.host.owned ==> h < GUEST_SERVER_ID_START
    requires forall g :: g in st.objects || g in st.names ==> g < GUEST_SERVER_ID_START
    ensures !w.session.fatal && w.host == st.host && w.session.orphanedParams == st.orphans
    ensures BUFFER !in w.host.served && BUFFER !in w.host.owned && w.session.table.IsHostIdAvailable(BUFFER)
    ensures w.session.table.IsGuestServerIdFree(BUFFER) && w.session.table.nextGuestServerId == BUFFER
  {
  }

  /** A discarded announcement allocates no guest number. */
  lemma DiscardKeepsCursor(w: World, params: u32, buffer: u32, guestBuffer: u32)
    requires Enabled(w, BufferAnnounced(params, buffer, guestBuffer)) && params in w.session.orphanedParams
    ensures Step(w, BufferAnnounced(params, buffer, guestBuffer)).session.table.nextGuestServerId
         == w.session.table.nextGuestServerId
  {
    hide HearsAll, Sent;
  }

  lemma AnnouncedIsFree(w: World, params: u32, buffer: u32, guest: u32)
    requires Enabled(w, BufferAnnounced(params, buffer, guest))
    ensures w.session.table.IsGuestServerIdFree(guest)
  {
  }

  lemma CursorIsFirst(t: Table, params: u32, buffer: u32, guest: u32)
    requires GUEST_SERVER_ID_START <= guest == t.nextGuestServerId && t.IsGuestServerIdFree(guest)
    ensures Allocated(t, BufferAnnounced(params, buffer, guest))
  {
  }

  /** The host announces two buffers under one number, one of them for the orphaned create. */
  lemma AnnouncementsAreFatal(w: World, st: Stage, orphan: u32, other: u32)
    requires At(w, st) && Inv(w) && orphan in st.orphans && orphan != other
    requires orphan in st.host.unanswered && other in st.host.unanswered
    requires st.host.served == {} && forall h :: h in st.host.owned ==> h < GUEST_SERVER_ID_START
    requires forall g :: g in st.objects || g in st.names ==> g < GUEST_SERVER_ID_START
    ensures EndsFatally(w, [BufferAnnounced(orphan, BUFFER, BUFFER), BufferAnnounced(other, BUFFER, BUFFER)])
  {
    hide *;
    var first, second := BufferAnnounced(orphan, BUFFER, BUFFER), BufferAnnounced(other, BUFFER, BUFFER);
    StageHasRoom(w, st);
    HostMayReuse(w, BUFFER, orphan, BUFFER);
    DiscardedNumberIsRefused(w, orphan, BUFFER, BUFFER, other, BUFFER);
    DiscardKeepsCursor(w, orphan, BUFFER, BUFFER);
    var v := Step(w, first);
    CursorIsFirst(w.session.table, orphan, BUFFER, BUFFER);
    AnnouncedIsFree(v, other, BUFFER, BUFFER);
    CursorIsFirst(v.session.table, other, BUFFER, BUFFER);
    FatalNow(Step(v, second));
    assert [second][1..] == [] && [first, second][1..] == [second];
    FatalAfter(v, [second]);
    FatalAfter(w, [first, second]);
  }

  const OPENED: Stage := Stage(2, map[1 := 1], map[1 := WlDisplay], map[], {}, map[], map[], {}, Host({}, {}, {}, {}))

  lemma OpenedAt()
    ensures At(BEGIN, OPENED)
  {
  }

  function Bound(): Stage {
    OPENED.WithObject(REGISTRY, Other("wl_registry")).WithObject(FACTORY, Other("zwp_linux_dmabuf_v1"))
  }

  /** The client binds the dmabuf factory. */
  lemma Bind(rest: seq<Event>) returns (v: World)
    ensures At(v, Bound()) && Inv(v)
    ensures EndsFatally(v, rest) ==> EndsFatally(BEGIN, Binding() + rest)
  {
    OpenedAt();
    BeginInv();
    hide Inv, Step, Enabled, At, EndsFatally, Allocated;
    var registry, factory := Binding()[0], Binding()[1];
    NewFromDisplayAt(BEGIN, OPENED, REGISTRY, Other("wl_registry"));
    StepKeepsInv(BEGIN, registry);
    var a := Step(BEGIN, registry);
    NewForwardedAt(a, OPENED.WithObject(REGISTRY, Other("wl_registry")), REGISTRY, FACTORY, Other("zwp_linux_dmabuf_v1"));
    StepKeepsInv(a, factory);
    v := Step(a, factory);
    if EndsFatally(v, rest) {
      assert ([factory] + rest)[1..] == rest;
      FatalAfter(a, [factory] + rest);
      assert (Binding() + rest)[1..] == [factory] + rest;
      FatalAfter(BEGIN, Binding() + rest);
    }
  }

  function AfterCreate(st: Stage, id: u32, plane: Fd, fd: Fd): Stage
    requires id < GUEST_SERVER_ID_START
  {
    st.WithParams(id).WithPlane(id, plane).WithCreate(id, fd)
  }

  /** A params object is made, filled and used for a create. */
  lemma CreateOn(w: World, st: Stage, id: u32, plane: Fd, fd: Fd, rest: seq<Event>) returns (v: World)
    requires At(w, st) && Inv(w) && Lookup(st.objects, FACTORY) == Some(FACTORY) && FACTORY !in st.dying && plane >= 0
    requires 1 < id == st.next < GUEST_SERVER_ID_START && id !in st.objects && id !in st.names && id !in st.planes
    requires id !in st.dying && id !in st.used && id !in st.creates
    ensures At(v, AfterCreate(st, id, plane, fd)) && Inv(v)
    ensures EndsFatally(v, rest) ==>
              EndsFatally(w, Creating(id, plane, fd) + rest)
  {
    hide Inv, Step, Enabled, At, EndsFatally, Allocated;
    var made, add := NewForwarded(FACTORY, id, LinuxBufferParams, id), Add(id, PLANE, Some(plane));
    var create := Create(id, REQUEST, Some([fd]));
    NewParamsAt(w, st, id);
    StepKeepsInv(w, made);
    var a := Step(w, made);
    AddAt(a, st.WithParams(id), id, plane);
    StepKeepsInv(a, add);
    var b := Step(a, add);
    CreateAt(b, st.WithParams(id).WithPlane(id, plane), id, plane, fd);
    StepKeepsInv(b, create);
    v := Step(b, create);
    if EndsFatally(v, rest) {
      assert ([create] + rest)[1..] == rest && ([add, create] + rest)[1..] == [create] + rest;
      assert ([made, add, create] + rest)[1..] == [add, create] + rest;
      FatalAfter(b, [create] + rest);
      FatalAfter(a, [add, create] + rest);
      FatalAfter(w, [made, add, create] + rest);
    }
  }

  /** Two creates, the first params object destroyed, and two announcements: a legal run,
      every number of which is the one the proxy's allocators would give. */
  lemma ReusedBufferNumberClosesConnection()
    ensures EndsFatally(BEGIN, REUSE)
  {
    hide Inv, Step, Enabled, At, EndsFatally, Allocated, Creating, Binding;
    var last := [DestroyForwarded(FIRST)] + ANNOUNCED_TWICE;
    var w := Bind(Creating(FIRST, 5, 6) + (Creating(SECOND, 7, 8) + last));
    var a := CreateOn(w, Bound(), FIRST, 5, 6, Creating(SECOND, 7, 8) + last);
    var b := CreateOn(a, AfterCreate(Bound(), FIRST, 5, 6), SECOND, 7, 8, last);
    DestroyedThenAnnounced(b, AfterCreate(AfterCreate(Bound(), FIRST, 5, 6), SECOND, 7, 8));
  }

  lemma DestroyedThenAnnounced(w: World, st: Stage)
    requires At(w, st) && Inv(w) && st == AfterCreate(AfterCreate(Bound(), FIRST, 5, 6), SECOND, 7, 8)
    ensures EndsFatally(w, [DestroyForwarded(FIRST)] + ANNOUNCED_TWICE)
  {
    hide Inv, Step, Enabled, At, EndsFatally, Allocated;
    DestroyAt(w, st, FIRST);
    StepKeepsInv(w, DestroyForwarded(FIRST));
    AnnouncementsAreFatal(Step(w, DestroyForwarded(FIRST)), st.Without(FIRST), FIRST, SECOND);
    assert ([DestroyForwarded(FIRST)] + ANNOUNCED_TWICE)[1..] == ANNOUNCED_TWICE;
    FatalAfter(w, [DestroyForwarded(FIRST)] + ANNOUNCED_TWICE);
  }
}

/**
 Whole runs of the ID-lifecycle protocol.

 A `World` pairs the proxy's session with what the host holds. The host side is
 computed from the messages the proxy sends and the events it receives, never
 from the proxy's own bookkeeping, so the invariant compares two independent
 accounts of every number.
 */
module Protocol {
  import opened Prelude
  import opened ShadowTables
  import opened DmabufParams
  import opened Sessions
  import opened Lifecycle

  datatype World = World(session: Session, host: Host)

  function Hears(h: Host, m: HostMessage): Host {
    match m
    case CreateObject(id) => h.Learns(id)
    case DestroyObject(id) => if id in h.served then h.Frees(id) else h.Loses(id)
    case AddPlane(_, _) => h
    case CreateAsync(params, _) => h.Asked(params)
    case CreateImmediate(_, buffer, _) => h.Learns(buffer)
  }

  function HearsAll(h: Host, ms: seq<HostMessage>): Host {
    if ms == [] then h else Hears(HearsAll(h, ms[..|ms| - 1]), ms[|ms| - 1])
  }

  /** The numbers `host` and `guestBuffer` are what the allocators return, `syncFds`
      and `duplicate` what `dup` returns. */
  datatype Event =
    | NewForwarded(sender: u32, id: u32, interface: Interface, host: u32)
    | NewFromDisplay(id: u32, interface: Interface, host: u32)
    | NewTextInput(id: u32, host: u32)
    | NewLocal(id: u32, interface: Interface)
    | NewHostOnly(interface: Interface, version: u32, host: u32)
    | DestroyForwarded(sender: u32)
    | DestroyBuffer(sender: u32, deferred: bool)
    | RetireBuffer(host: u32)
    | DestroyLocal(id: u32)
    | DestroyTextInput(id: u32)
    | DestroyHostOnly(host: u32)
    | RetireHostOnly(host: u32)
    | Add(params: u32, plane: Plane, duplicate: Option<Fd>)
    | Create(params: u32, request: BufferRequest, syncFds: Option<seq<Fd>>)
    | CreateImmed(params: u32, buffer: u32, request: BufferRequest, host: u32, syncFds: Option<seq<Fd>>)
    | CallbackDone(host: u32, data: u32)
    | HostDeleteId(host: u32)
    | BufferAnnounced(params: u32, buffer: u32, guestBuffer: u32)
    | CreateFailed(params: u32)

  /** What the host does to its own state as it emits an event. */
  function Emits(h: Host, e: Event): Host {
    match e
    case CallbackDone(host, _) => h.Loses(host)
    case HostDeleteId(host) => h.Deletes(host)
    case BufferAnnounced(params, buffer, _) => h.Answers(params).Serves(buffer)
    case CreateFailed(params) => h.Answers(params)
    case _ => h
  }

  /** A request reaches the handler of its sender's interface; guests are otherwise
      free to send anything. */
  ghost predicate GuestMay(s: Session, e: Event) {
    var t := s.table;
    match e
    case NewForwarded(sender, id, interface, host) =>
      t.IsHostIdAvailable(host) && (sender in t.guestToHost || !s.Admits(sender))
    case NewFromDisplay(id, interface, host) => t.IsHostIdAvailable(host)
    case NewTextInput(id, host) => t.IsHostIdAvailable(host)
    case NewLocal(id, interface) => true
    case DestroyForwarded(sender) =>
      && sender in t.guestToHost && sender != 1
      && !t.GuestObjectMatches(sender, WlBuffer) && !t.GuestObjectMatches(sender, TextInputV3)
      && !t.GuestObjectMatches(sender, WlCallback)
    case DestroyBuffer(sender, deferred) =>
      sender in t.guestToHost && (t.GuestObjectMatches(sender, WlBuffer) || !s.Admits(sender))
    case DestroyLocal(id) => t.IsLocalOnlyGuestObject(id)
    case DestroyTextInput(id) => t.GuestObjectMatches(id, TextInputV3)
    case Add(params, plane, duplicate) => true
    case Create(params, request, syncFds) => t.GuestObjectMatches(params, LinuxBufferParams) && params in t.guestToHost
    case CreateImmed(params, buffer, request, host, syncFds) =>
      t.GuestObjectMatches(params, LinuxBufferParams) && params in t.guestToHost && t.IsHostIdAvailable(host)
    case _ => false
  }

  /** Decisions of the proxy itself: internal binds, and buffers found idle. */
  ghost predicate ProxyMay(s: Session, host: Host, e: Event) {
    var t := s.table;
    match e
    case NewHostOnly(interface, version, id) => t.IsHostIdAvailable(id) && interface != LinuxBufferParams
    case RetireBuffer(id) =>
      id in s.deferredBuffers && id in t.hostToGuest && t.hostToGuest[id] in t.guestToHost
    case DestroyHostOnly(id) => id in s.hostOnly
    case RetireHostOnly(id) => id in s.hostOnly && id !in host.dying
    case _ => false
  }

  /** A conforming host ends each callback once, deletes each destroyed number once,
      answers each create at most once, and numbers a buffer unlike any object it holds. */
  ghost predicate HostMay(s: Session, host: Host, e: Event) {
    match e
    case CallbackDone(id, data) =>
      id in host.owned && id !in host.dying && s.table.EventInterface(id) == Some(WlCallback)
    case HostDeleteId(id) => id in host.dying
    case BufferAnnounced(params, buffer, guestBuffer) =>
      && params in host.unanswered && buffer > 1 && buffer !in host.served && buffer !in host.owned
      && s.table.IsGuestServerIdFree(guestBuffer)
    case CreateFailed(params) => params in host.unanswered
    case _ => false
  }

  ghost predicate Enabled(w: World, e: Event) {
    !w.session.fatal && (GuestMay(w.session, e) || ProxyMay(w.session, w.host, e) || HostMay(w.session, w.host, e))
  }

  function Handle(s: Session, e: Event): Session
    requires e.DestroyForwarded? || e.DestroyBuffer? ==> e.sender in s.table.guestToHost
    requires e.RetireBuffer? ==> e.host in s.table.hostToGuest && s.table.hostToGuest[e.host] in s.table.guestToHost
    requires e.Create? || e.CreateImmed? ==> e.params in s.table.guestToHost
  {
    match e
    case NewForwarded(sender, id, interface, host) => s.ForwardNew(sender, id, interface, host)
    case NewFromDisplay(id, interface, host) => s.DisplayNew(id, interface, host)
    case NewTextInput(id, host) => s.TextInputNew(id, host)
    case NewLocal(id, interface) => s.LocalNew(id, interface)
    case NewHostOnly(interface, version, host) => s.BindHostOnly(interface, version, interface == WlCallback, host)
    case DestroyForwarded(sender) => s.ForwardDestroy(sender)
    case DestroyBuffer(sender, deferred) => s.DestroyBuffer(sender, deferred)
    case RetireBuffer(host) => s.RetireDeferred(host)
    case DestroyLocal(id) => s.LocalDestroy(id)
    case DestroyTextInput(id) => s.DestroyWithoutHostDestructor(id)
    case DestroyHostOnly(host) => s.DestroyHostOnly(host)
    case RetireHostOnly(host) => s.RetireHostOnly(host)
    case Add(params, plane, duplicate) => s.OnAdd(params, plane, duplicate)
    case Create(params, request, syncFds) => s.OnCreate(params, request, syncFds)
    case CreateImmed(params, buffer, request, host, syncFds) => s.OnCreateImmed(params, buffer, request, host, syncFds)
    case CallbackDone(host, data) => s.OnDone(host, data)
    case HostDeleteId(host) => s.OnDeleteId(host)
    case BufferAnnounced(params, buffer, guestBuffer) => s.OnCreated(params, buffer, guestBuffer)
    case CreateFailed(params) => s.OnFailed(params)
  }

  function Step(w: World, e: Event): World
    requires Enabled(w, e)
  {
    var after := Handle(w.session, e);
    World(after, HearsAll(Emits(w.host, e), Sent(w.session.toHost, after.toHost)))
  }

  // ---- the abstract view of a session ----

  function View(s: Session): Ids {
    Ids(s.table.guestToHost, s.table.hostToGuest, s.table.interfaces, s.table.hostInterfaces,
        s.table.retiredHostIds, s.table.pendingDestroyHostIds, s.table.pendingDestroyGuestIds,
        s.pendingCreates, s.orphanedParams, s.nativeBuffers.Keys, s.deferredBuffers, s.hostOnly, s.barriers)
  }

  ghost predicate WorldGood(w: World) {
    Good(View(w.session), w.host)
  }

  /** A closed connection takes no further steps, so nothing is claimed about it. */
  ghost predicate Inv(w: World) {
    !w.session.fatal ==> WorldGood(w)
  }

  const BEGIN: World := World(START, Host({}, {}, {}, {}))

  lemma BeginInv()
    ensures Inv(BEGIN)
  {
  }

  // ---- runs ----

  ghost predicate Legal(w: World, es: seq<Event>)
    decreases |es|
  {
    es != [] ==> Enabled(w, es[0]) && Legal(Step(w, es[0]), es[1..])
  }

  ghost function Run(w: World, es: seq<Event>): World
    requires Legal(w, es)
    decreases |es|
  {
    if es == [] then w else Run(Step(w, es[0]), es[1..])
  }
}

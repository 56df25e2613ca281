/**
 The guest's own account of its objects: what it has asked for and what it has been told,
 computed from its requests and the messages to it, never from the proxy's bookkeeping.
 */
module Guests {
  import opened Prelude
  import opened ShadowTables
  import opened DmabufParams
  import opened Sessions
  import opened Lifecycle
  import opened Protocol

  /** An object as the guest made it, and the host number that was allocated for it. */
  datatype Known = Known(interface: Interface, partner: Option<u32>)

  /**
   `objects`: the numbers the guest regards as taken.
   `ended`: those whose destructor it has sent and that have not been deleted.
   `planes`: for each params object still to be used, the planes it has been given, each with
   the descriptor that was duplicated for it.
   `used`: the params objects that have been used.
   */
  datatype Guest = Guest(objects: map<u32, Known>, ended: set<u32>, planes: map<u32, seq<Plane>>, used: set<u32>)
  {
    function Takes(id: u32, interface: Interface, partner: Option<u32>): Guest {
      this.(objects := objects[id := Known(interface, partner)])
    }

    function Frees(id: u32): Guest {
      this.(objects := objects - {id}, ended := ended - {id})
    }

    /** Its own numbers are free only once they have been deleted, the other side's at once. */
    function Ends(id: u32): Guest {
      (if id >= GUEST_SERVER_ID_START then Frees(id) else this.(ended := ended + {id}))
        .(planes := planes - {id}, used := used - {id})
    }

    function Collects(id: u32): Guest {
      this.(planes := planes[id := []], used := used - {id})
    }

    function Consumes(id: u32): Guest {
      this.(planes := planes - {id}, used := used + {id})
    }

    /** Alive, and either known to the host or of an interface the proxy serves itself. */
    predicate Alive(id: u32) {
      id in objects && id !in ended && (objects[id].partner.Some? || objects[id].interface in SERVED_LOCALLY)
    }

    predicate Unused(id: u32) {
      2 <= id < 0xff00_0000 && id !in objects
    }

    /** `id` is the live object for which the host number was allocated. */
    predicate Owns(id: u32, host: u32) {
      id in objects && id !in ended && objects[id].partner == Some(host)
    }
  }

  /** The plane as it was given, under the duplicate of its descriptor. */
  function Copy(plane: Plane, fd: Fd): Plane {
    Plane(fd, plane.planeIdx, plane.offset, plane.stride, plane.modifierHi, plane.modifierLo)
  }

  /** What a request does to the guest's account when it is sent. */
  function Asks(g: Guest, e: Event): Guest {
    match e
    case NewForwarded(_, id, interface, host) =>
      var made := g.Takes(id, interface, Some(host));
      if interface == LinuxBufferParams then made.Collects(id) else made
    case NewFromDisplay(id, interface, host) => g.Takes(id, interface, Some(host))
    case NewTextInput(id, host) => g.Takes(id, TextInputV3, Some(host))
    case NewLocal(id, interface) => g.Takes(id, interface, None)
    case DestroyForwarded(sender) => g.Ends(sender)
    case DestroyBuffer(sender, _) => g.Ends(sender)
    case DestroyLocal(id) => if id in g.objects && g.objects[id].partner.None? then g.Ends(id) else g
    case DestroyTextInput(id) => g.Ends(id)
    case Add(params, plane, duplicate) =>
      if plane.fd >= 0 && duplicate.Some? && params in g.planes
      then g.(planes := g.planes[params := g.planes[params] + [Copy(plane, duplicate.value)]])
      else g
    case Create(params, _, _) => g.Consumes(params)
    case CreateImmed(params, buffer, _, host, _) =>
      if params in g.planes then g.Takes(buffer, WlBuffer, Some(host)).Consumes(params) else g
    case _ => g
  }

  /** What a message does to it; `e` is the event that led to the message. */
  function Hears(g: Guest, e: Event, m: GuestMessage): Guest {
    match m
    case DeleteId(id) => g.Frees(id)
    case Created(_, buffer) => if e.BufferAnnounced? then g.Takes(buffer, WlBuffer, Some(e.buffer)) else g
    case _ => g
  }

  function HearsAll(g: Guest, e: Event, ms: seq<GuestMessage>): Guest {
    if ms == [] then g else Hears(HearsAll(g, e, ms[..|ms| - 1]), e, ms[|ms| - 1])
  }

  lemma HearsOne(g: Guest, e: Event, m: GuestMessage)
    ensures HearsAll(g, e, [m]) == Hears(g, e, m)
  {
    NoneHeard(g, e, [m]);
    hide Hears;
  }

  lemma NoneHeard(g: Guest, e: Event, ms: seq<GuestMessage>)
    ensures HearsAll(g, e, ms[..0]) == g
  {
  }

  lemma HearsTwo(g: Guest, e: Event, m: GuestMessage, n: GuestMessage)
    ensures HearsAll(g, e, [m, n]) == Hears(Hears(g, e, m), e, n)
  {
    assert [m, n][..1] == [m];
    HearsOne(g, e, m);
    hide Hears;
  }

  const BEGIN_GUEST: Guest := Guest(map[1 := Known(WlDisplay, Some(1))], {}, map[], {})

  // ---- agreement ----

  /** The proxy knows every number the guest regards as taken, under the partner and, while
      the object lives, the interface it was made with; and it knows no others, but for
      buffers of the other range whose destruction is deferred. */
  ghost predicate NumbersAgree(i: Ids, g: Guest) {
    && (forall x :: x in g.objects ==>
          && (match g.objects[x].partner
              case Some(host) => x in i.guestToHost && i.guestToHost[x] == host
              case None => x !in i.guestToHost && x !in g.ended)
          && (x !in g.ended ==> x in i.interfaces && i.interfaces[x] == g.objects[x].interface))
    && (forall x: u32 :: i.Known(x) ==> x in g.objects || (x >= GUEST_SERVER_ID_START && x in i.pendingGuest))
    && (forall x :: x in g.ended <==> x in i.pendingGuest && x < GUEST_SERVER_ID_START)
    && (forall x :: x in g.ended ==> x in g.objects)
    && (forall x :: x in g.objects && x >= GUEST_SERVER_ID_START ==> x !in i.pendingGuest)
  }

  /** Planes are kept for live params objects only, as the guest gave them. */
  ghost predicate PlanesAgree(s: Session, g: Guest) {
    && s.pendingParams == g.planes && s.usedParams == g.used
    && (forall p :: p in g.planes || p in g.used ==>
          p in g.objects && p !in g.ended && g.objects[p].interface == LinuxBufferParams && g.objects[p].partner.Some?)
    && g.planes.Keys !! g.used
  }

  ghost predicate Agrees(s: Session, g: Guest) {
    NumbersAgree(View(s), g) && PlanesAgree(s, g)
  }

  lemma BeginAgrees()
    ensures Agrees(START, BEGIN_GUEST)
  {
  }

  // ---- moves ----

  lemma PairAgrees(i: Ids, g: Guest, id: u32, host: u32, interface: Interface)
    requires NumbersAgree(i, g) && !i.Known(id) && id !in i.pendingGuest
    ensures NumbersAgree(i.Pair(id, host, interface), g.Takes(id, interface, Some(host)))
  {
  }

  lemma NameAgrees(i: Ids, g: Guest, id: u32, interface: Interface)
    requires NumbersAgree(i, g) && !i.Known(id) && id !in i.pendingGuest
    ensures NumbersAgree(i.Name(id, interface), g.Takes(id, interface, None))
  {
  }

  lemma UnnameAgrees(i: Ids, g: Guest, id: u32)
    requires NumbersAgree(i, g) && id !in i.guestToHost && id !in i.pendingGuest
    ensures NumbersAgree(i.Unname(id), g.Frees(id))
  {
  }

  lemma EndingAgrees(i: Ids, g: Guest, id: u32)
    requires NumbersAgree(i, g) && id in i.guestToHost && id < GUEST_SERVER_ID_START
    ensures NumbersAgree(i.(pendingGuest := i.pendingGuest + {id}), g.Ends(id))
  {
  }

  /** A client-range buffer's destruction is deferred. */
  lemma DeferAgrees(i: Ids, g: Guest, id: u32, interface: Interface)
    requires NumbersAgree(i, g) && id in i.guestToHost && id !in i.pendingGuest
    ensures NumbersAgree(i.Defer(id, interface), g.Ends(id))
  {
  }

  lemma ForgetAgrees(i: Ids, g: Guest, id: u32)
    requires NumbersAgree(i, g) && id in i.guestToHost
    ensures NumbersAgree(i.Forget(id), g.Frees(id))
  {
  }

  lemma UnpairAgrees(i: Ids, g: Guest, id: u32, interface: Interface)
    requires NumbersAgree(i, g) && id in i.guestToHost
    ensures NumbersAgree(i.Unpair(id, interface), g.Frees(id))
  {
  }

  lemma EndAgrees(i: Ids, g: Guest, id: u32)
    requires NumbersAgree(i, g) && id in i.guestToHost && id !in i.pendingGuest
    ensures NumbersAgree(i.End(id), g.Frees(id))
  {
  }

  lemma ExposeAgrees(i: Ids, g: Guest, params: u32, id: u32, host: u32)
    requires NumbersAgree(i, g) && !i.Known(id) && id !in i.pendingGuest
    ensures NumbersAgree(i.Expose(params, id, host), g.Takes(id, WlBuffer, Some(host)))
  {
  }

  /** A buffer of the other range is gone for the guest once its destructor is sent. */
  lemma RetireAgrees(i: Ids, g: Guest, id: u32)
    requires NumbersAgree(i, g) && id in i.guestToHost && id in i.pendingGuest && id >= GUEST_SERVER_ID_START
    ensures NumbersAgree(i.Forget(id), g)
  {
  }

  /** The agreement is about three of the classes only. */
  lemma SameNumbersAgree(i: Ids, j: Ids, g: Guest)
    requires NumbersAgree(i, g)
    requires i.guestToHost == j.guestToHost && i.interfaces == j.interfaces && i.pendingGuest == j.pendingGuest
    ensures NumbersAgree(j, g)
  {
  }

  lemma PlanesDoNotCount(i: Ids, g: Guest, id: u32)
    requires NumbersAgree(i, g)
    ensures NumbersAgree(i, g.Collects(id)) && NumbersAgree(i, g.Consumes(id))
  {
  }
}

/**
 The two-namespace object table of the proxy (sommelier/src/state.rs).

 `Table` is the value of the table and the functions on it say what each
 operation does to that value; `ShadowTable` is the mutable object the handlers
 share, and each of its methods is proved to perform the operation of the same
 name. What the operations guarantee is stated by the lemmas in between.
 */
module ShadowTables {
  import opened Prelude

  const UNKNOWN_OBJECT_VERSION: u32 := U32_MAX

  /** Interface names the proxy treats specially, and all others. */
  datatype Interface =
    | WlDisplay
    | WlCallback
    | WlBuffer
    | LinuxBufferParams
    | HostTextInputV1
    | TextInputV3
    | WlShm
    | WlShmPool
    | TextInputManagerV3
    | DmabufFeedback
    | GtkShell
    | GtkSurface
    | Other(name: string)
  {
    /** Guest interfaces that are served by the proxy itself, without a host object. */
    predicate IsLocalOnly() {
      WlShm? || WlShmPool? || TextInputManagerV3? || DmabufFeedback? || GtkShell? || GtkSurface?
    }
  }

  /** Those interfaces, for statements that do not go by the proxy's own test. */
  const SERVED_LOCALLY: set<Interface> := {WlShm, WlShmPool, TextInputManagerV3, DmabufFeedback, GtkShell, GtkSurface}

  datatype Table = Table(
    guestToHost: map<u32, u32>,
    hostToGuest: map<u32, u32>,
    interfaces: map<u32, Interface>,
    hostInterfaces: map<u32, Interface>,
    guestVersions: map<u32, u32>,
    hostVersions: map<u32, u32>,
    retiredHostIds: set<u32>,
    pendingDestroyHostIds: set<u32>,
    pendingDestroyGuestIds: set<u32>,
    nextHostId: u32,
    nextGuestServerId: u32)
  {
    // ---- lookups ----

    predicate IsHostReserved(host: u32) {
      || host in hostToGuest
      || host in hostInterfaces
      || host in retiredHostIds
      || host in pendingDestroyHostIds
    }

    predicate IsHostIdAvailable(host: u32) {
      host > 1 && !IsHostReserved(host)
    }

    predicate IsGuestKnown(guest: u32) {
      guest in guestToHost || guest in interfaces
    }

    predicate IsGuestIdAvailable(guest: u32) {
      1 < guest < GUEST_SERVER_ID_START && !IsGuestKnown(guest)
    }

    predicate IsGuestServerIdFree(guest: u32) {
      GUEST_SERVER_ID_START <= guest && !IsGuestKnown(guest)
    }

    predicate GuestObjectMatches(guest: u32, interface: Interface) {
      guest in interfaces && interfaces[guest] == interface
    }

    predicate HostObjectMatches(host: u32, interface: Interface) {
      || (host in hostInterfaces && hostInterfaces[host] == interface)
      || (host in hostToGuest && GuestObjectMatches(hostToGuest[host], interface))
    }

    predicate IsLocalOnlyGuestObject(guest: u32) {
      guest in interfaces && interfaces[guest].IsLocalOnly()
    }

    predicate IsEventSenderKnown(host: u32) {
      host in hostToGuest || host in hostInterfaces
    }

    predicate IsPendingDestroyHost(host: u32) {
      host in hostToGuest && hostToGuest[host] in pendingDestroyGuestIds
    }

    /** The interface under which an event of `host` is dispatched (proxy.rs). */
    function EventInterface(host: u32): Option<Interface> {
      if host in hostInterfaces then Some(hostInterfaces[host])
      else if host in hostToGuest then Lookup(interfaces, hostToGuest[host])
      else None
    }

    function GuestObjectVersion(guest: u32): Option<u32> {
      if guest in guestVersions then Some(guestVersions[guest])
      else if guest in guestToHost then Lookup(hostVersions, guestToHost[guest])
      else None
    }

    function HostObjectVersion(host: u32): Option<u32> {
      if host in hostVersions then Some(hostVersions[host])
      else if host in hostToGuest then Lookup(guestVersions, hostToGuest[host])
      else None
    }

    // ---- updates ----

    function MapId(guest: u32, host: u32): Table {
      LinkGuest(guest, host).LinkHost(guest, host)
    }

    /** Point `guest` at `host`, dropping the number it pointed at before. */
    function LinkGuest(guest: u32, host: u32): Table {
      var t := this.(guestToHost := guestToHost[guest := host]);
      if guest in guestToHost && guestToHost[guest] != host
         && Lookup(hostToGuest, guestToHost[guest]) == Some(guest)
      then t.(hostToGuest := hostToGuest - {guestToHost[guest]},
              hostVersions := hostVersions - {guestToHost[guest]})
      else t
    }

    /** Point `host` at `guest`, dropping the guest that pointed at it before. */
    function LinkHost(guest: u32, host: u32): Table {
      var t := this.(hostToGuest := hostToGuest[host := guest]);
      if host in hostToGuest && hostToGuest[host] != guest
         && Lookup(guestToHost, hostToGuest[host]) == Some(host)
      then t.(guestToHost := guestToHost - {hostToGuest[host]},
              interfaces := interfaces - {hostToGuest[host]},
              guestVersions := guestVersions - {hostToGuest[host]})
      else t
    }

    function TrackInterface(guest: u32, interface: Interface): Table {
      this.(interfaces := interfaces[guest := interface],
            guestVersions := if guest in guestVersions then guestVersions
                             else guestVersions[guest := UNKNOWN_OBJECT_VERSION])
    }

    function TrackInterfaceWithVersion(guest: u32, interface: Interface, version: u32): Table {
      this.(interfaces := interfaces[guest := interface],
            guestVersions := guestVersions[guest := version])
    }

    function TrackHostInterfaceWithVersion(host: u32, interface: Interface, version: u32): Table {
      this.(hostInterfaces := hostInterfaces[host := interface],
            hostVersions := hostVersions[host := version])
    }

    function SetHostVersion(host: u32, version: u32): Table {
      this.(hostVersions := hostVersions[host := version])
    }

    function MarkPendingDestroy(guest: u32): Table {
      if guest in guestToHost
      then this.(pendingDestroyGuestIds := pendingDestroyGuestIds + {guest})
      else this
    }

    /** Whether `mark_pending_destroy_host` finds a host-only object to retire. */
    predicate IsHostOnly(host: u32) {
      host !in hostToGuest && host in hostInterfaces
    }

    function MarkPendingDestroyHost(host: u32): Table {
      if !IsHostOnly(host) then this
      else this.(hostInterfaces := hostInterfaces - {host},
                 hostVersions := hostVersions - {host},
                 retiredHostIds := retiredHostIds - {host},
                 pendingDestroyHostIds := pendingDestroyHostIds + {host})
    }

    function ConsumeHostDeleteId(host: u32): Table {
      this.(pendingDestroyHostIds := pendingDestroyHostIds - {host})
    }

    function ClearPendingDestroyGuest(guest: u32): Table {
      this.(pendingDestroyGuestIds := pendingDestroyGuestIds - {guest})
    }

    function RemoveHostInterface(host: u32): Table {
      this.(hostInterfaces := hostInterfaces - {host},
            hostVersions := hostVersions - {host},
            retiredHostIds := retiredHostIds - {host},
            pendingDestroyHostIds := pendingDestroyHostIds - {host})
    }

    function RetireHostInterface(host: u32): Table {
      this.(hostInterfaces := hostInterfaces - {host},
            hostVersions := hostVersions - {host},
            pendingDestroyHostIds := pendingDestroyHostIds - {host},
            retiredHostIds := retiredHostIds + {host})
    }

    function RemoveId(guest: u32): Table {
      var hosts := if guest in guestToHost then {guestToHost[guest]} else {};
      this.(pendingDestroyGuestIds := pendingDestroyGuestIds - {guest},
            guestToHost := guestToHost - {guest},
            hostToGuest := hostToGuest - hosts,
            hostInterfaces := hostInterfaces - hosts,
            hostVersions := hostVersions - hosts,
            interfaces := interfaces - {guest},
            guestVersions := guestVersions - {guest})
    }

    function RemoveGuestMapping(guest: u32): Table {
      var t := this.(interfaces := interfaces - {guest},
                     guestVersions := guestVersions - {guest},
                     guestToHost := guestToHost - {guest});
      if guest !in guestToHost then t
      else
        var host := guestToHost[guest];
        t.(hostToGuest := if Lookup(hostToGuest, host) == Some(guest) then hostToGuest - {host} else hostToGuest,
           hostInterfaces := if host !in hostInterfaces && guest in interfaces
                             then hostInterfaces[host := interfaces[guest]]
                             else hostInterfaces)
    }

    function RetireServerDestroyedObject(guest: u32): Table {
      if guest !in guestToHost then this
      else RemoveGuestMapping(guest).MarkPendingDestroyHost(guestToHost[guest])
    }

    function RetireGuestObject(guest: u32): Table {
      var t := this.(interfaces := interfaces - {guest},
                     guestVersions := guestVersions - {guest});
      if guest !in guestToHost || guest !in interfaces then t
      else
        var host := guestToHost[guest];
        t.(pendingDestroyGuestIds := pendingDestroyGuestIds + {guest},
           hostInterfaces := if host in hostInterfaces then hostInterfaces
                             else hostInterfaces[host := interfaces[guest]],
           hostVersions := if host in hostVersions then hostVersions
                           else hostVersions[host := UNKNOWN_OBJECT_VERSION])
    }

    /** The cursor after `host` has been tried: wrap past 2^32-1 to 2, skipping 0 and 1. */
    function AdvanceHostCursor(host: u32): Table {
      this.(nextHostId := NextHostCursor(host))
    }

    function AdvanceGuestServerCursor(guest: u32): Table {
      this.(nextGuestServerId := NextGuestServerCursor(guest))
    }

    // ---- what the table promises ----

    /** The host number the allocator finds from its cursor. */
    ghost predicate IsNextHost(host: u32) {
      IsFirstFree(2, if nextHostId < 2 then 2 else nextHostId, IsHostIdAvailable, host)
    }

    /** The guest number the allocator of the server range finds from its cursor. */
    ghost predicate IsNextServer(guest: u32) {
      && GUEST_SERVER_ID_START <= nextGuestServerId
      && IsFirstFree(GUEST_SERVER_ID_START, nextGuestServerId, IsGuestServerIdFree, guest)
    }

    /** The allocator of host numbers has nothing left to offer. */
    ghost predicate Exhausted() {
      forall host: u32 :: !IsHostIdAvailable(host)
    }

    /** The two ID maps are inverses of each other. */
    ghost predicate Inverse() {
      && (forall g :: g in guestToHost ==> guestToHost[g] in hostToGuest && hostToGuest[guestToHost[g]] == g)
      && (forall h :: h in hostToGuest ==> hostToGuest[h] in guestToHost && guestToHost[hostToGuest[h]] == h)
    }

    ghost predicate ServerRangeExhausted() {
      forall guest: u32 :: !IsGuestServerIdFree(guest)
    }
  }

  const EMPTY: Table :=
    Table(map[], map[], map[], map[], map[], map[], {}, {}, {}, 2, GUEST_SERVER_ID_START)

  function NextHostCursor(host: u32): (r: u32)
    ensures 2 <= r
  {
    if host == U32_MAX then 2 else if host + 1 < 2 then 2 else host + 1
  }

  function NextGuestServerCursor(guest: u32): u32 {
    if guest == U32_MAX then GUEST_SERVER_ID_START else guest + 1
  }

  /** How many numbers a cursor at `from`, moving upwards and wrapping within
      `lo..2^32`, passes before it reaches `x`. */
  function CyclicDistance(lo: u32, from: u32, x: u32): nat
    requires lo <= from && lo <= x
  {
    if from <= x then x - from else x - from + 0x1_0000_0000 - lo
  }

  /** `x` is the first number accepted by `free` at or after `from`, cyclically. */
  ghost predicate IsFirstFree(lo: u32, from: u32, free: u32 -> bool, x: u32)
    requires lo <= from
  {
    && lo <= x && free(x)
    && forall y: u32 | lo <= y && CyclicDistance(lo, from, y) < CyclicDistance(lo, from, x) :: !free(y)
  }

  /** The search order is total, so there is at most one first free number. */
  lemma FirstFreeUnique(lo: u32, from: u32, free: u32 -> bool, x: u32, y: u32)
    requires lo <= from
    requires IsFirstFree(lo, from, free, x) && IsFirstFree(lo, from, free, y)
    ensures x == y
  {
    if CyclicDistance(lo, from, x) < CyclicDistance(lo, from, y) {
    } else if CyclicDistance(lo, from, y) < CyclicDistance(lo, from, x) {
    }
  }

  /** From the cursor a number just issued leaves behind, it is the last to be reached. */
  lemma IssuedIsLast(x: u32, y: u32)
    ensures 2 <= x && 2 <= y && y != x ==>
              CyclicDistance(2, NextHostCursor(x), y) < CyclicDistance(2, NextHostCursor(x), x)
    ensures GUEST_SERVER_ID_START <= x && GUEST_SERVER_ID_START <= y && y != x ==>
              && GUEST_SERVER_ID_START <= NextGuestServerCursor(x)
              && CyclicDistance(GUEST_SERVER_ID_START, NextGuestServerCursor(x), y)
                 < CyclicDistance(GUEST_SERVER_ID_START, NextGuestServerCursor(x), x)
  {
  }

  /** So a number is issued twice in a row only if no other one is free. */
  lemma NextIsAnother(t: Table, x: u32, next: u32, free: u32)
    requires free != x
    ensures x >= 2 && t.IsHostIdAvailable(free) && t.AdvanceHostCursor(x).IsNextHost(next) ==> next != x
    ensures x >= GUEST_SERVER_ID_START && t.IsGuestServerIdFree(free) && t.AdvanceGuestServerCursor(x).IsNextServer(next) ==>
              next != x
  {
    IssuedIsLast(x, free);
    assert t.AdvanceHostCursor(x).IsHostIdAvailable(free) == t.IsHostIdAvailable(free);
    assert t.AdvanceGuestServerCursor(x).IsGuestServerIdFree(free) == t.IsGuestServerIdFree(free);
  }

  // ---- mutual inverse of the two maps, whatever the arguments ----

  lemma LinkGuestPairs(t: Table, guest: u32, host: u32)
    requires t.Inverse()
    ensures var r := t.LinkGuest(guest, host);
            && r.guestToHost == t.guestToHost[guest := host]
            && (forall h :: h in r.hostToGuest <==>
                  h in t.hostToGuest && (t.hostToGuest[h] != guest || h == host))
            && (forall h :: h in r.hostToGuest ==> r.hostToGuest[h] == t.hostToGuest[h])
  {
  }

  lemma MapIdGuestHalf(t: Table, guest: u32, host: u32)
    requires t.Inverse()
    ensures var r := t.MapId(guest, host).guestToHost;
            && (forall g :: g in r <==> g == guest || (g in t.guestToHost && t.guestToHost[g] != host))
            && (forall g :: g in r ==> r[g] == if g == guest then host else t.guestToHost[g])
  {
    hide t.LinkGuest, t.LinkHost;
    LinkGuestPairs(t, guest, host);
    LinkHostPairs(t.LinkGuest(guest, host), guest, host);
  }

  lemma LinkHostPairs(t: Table, guest: u32, host: u32)
    ensures t.LinkHost(guest, host).hostToGuest == t.hostToGuest[host := guest]
    ensures var r := t.LinkHost(guest, host).guestToHost;
            r == if host in t.hostToGuest && t.hostToGuest[host] != guest
                    && Lookup(t.guestToHost, t.hostToGuest[host]) == Some(host)
                 then t.guestToHost - {t.hostToGuest[host]} else t.guestToHost
  {
  }

  lemma MapIdHostHalf(t: Table, guest: u32, host: u32)
    requires t.Inverse()
    ensures var r := t.MapId(guest, host).hostToGuest;
            && (forall h :: h in r <==> h == host || (h in t.hostToGuest && t.hostToGuest[h] != guest))
            && (forall h :: h in r ==> r[h] == if h == host then guest else t.hostToGuest[h])
  {
    hide t.LinkGuest, t.LinkHost;
    LinkGuestPairs(t, guest, host);
    LinkHostPairs(t.LinkGuest(guest, host), guest, host);
  }

  /** Remapping keeps the maps mutually inverse for any arguments, installs exactly
      the requested pair, and disturbs no pair that shares neither number with it. */
  lemma MapIdKeepsInverse(t: Table, guest: u32, host: u32)
    requires t.Inverse()
    ensures t.MapId(guest, host).Inverse()
    ensures Lookup(t.MapId(guest, host).guestToHost, guest) == Some(host)
    ensures Lookup(t.MapId(guest, host).hostToGuest, host) == Some(guest)
    ensures forall g :: g in t.guestToHost && g != guest && t.guestToHost[g] != host
                        ==> Lookup(t.MapId(guest, host).guestToHost, g) == Some(t.guestToHost[g])
  {
    MapIdGuestHalf(t, guest, host);
    MapIdHostHalf(t, guest, host);
  }

  /** Pairing two free numbers adds one pair and changes nothing else. */
  lemma MapFresh(t: Table, guest: u32, host: u32)
    requires guest !in t.guestToHost && host !in t.hostToGuest
    ensures t.MapId(guest, host) == t.(guestToHost := t.guestToHost[guest := host],
                                       hostToGuest := t.hostToGuest[host := guest])
  {
  }

  /** Mapping a free host number leaves every other guest number's mapping alone. */
  lemma MapIdKeeps(t: Table, guest: u32, host: u32, other: u32)
    requires other in t.guestToHost && other != guest && host !in t.hostToGuest
    ensures Lookup(t.MapId(guest, host).guestToHost, other) == Some(t.guestToHost[other])
  {
    hide t.LinkGuest, t.LinkHost;
    LinkGuestFresh(t, guest, host);
    LinkHostPairs(t.LinkGuest(guest, host), guest, host);
  }

  lemma LinkGuestFresh(t: Table, guest: u32, host: u32)
    requires host !in t.hostToGuest
    ensures var u := t.LinkGuest(guest, host); u.guestToHost == t.guestToHost[guest := host] && host !in u.hostToGuest
  {
  }

  lemma RemovalsKeepInverse(t: Table, guest: u32)
    requires t.Inverse()
    ensures t.RemoveId(guest).Inverse()
    ensures t.RemoveGuestMapping(guest).Inverse()
    ensures t.RetireServerDestroyedObject(guest).Inverse()
  {
    RemovalsDropThePair(t, guest);
    DroppedPairKeepsInverse(t, t.RemoveId(guest), guest);
    DroppedPairKeepsInverse(t, t.RemoveGuestMapping(guest), guest);
    DroppedPairKeepsInverse(t, t.RetireServerDestroyedObject(guest), guest);
    hide *;
  }

  /** What is left of the maps without the pair of `guest`. */
  predicate DropsPair(t: Table, r: Table, guest: u32) {
    && r.guestToHost == t.guestToHost - {guest}
    && r.hostToGuest == (if guest in t.guestToHost then t.hostToGuest - {t.guestToHost[guest]} else t.hostToGuest)
  }

  lemma RemovalsDropThePair(t: Table, guest: u32)
    requires t.Inverse()
    ensures DropsPair(t, t.RemoveId(guest), guest)
    ensures DropsPair(t, t.RemoveGuestMapping(guest), guest)
    ensures DropsPair(t, t.RetireServerDestroyedObject(guest), guest)
  {
    assert t.hostToGuest - {} == t.hostToGuest;
  }

  lemma DroppedPairKeepsInverse(t: Table, r: Table, guest: u32)
    requires t.Inverse() && DropsPair(t, r, guest)
    ensures r.Inverse()
  {
  }

  /** The object shared by the dispatcher and every handler. */
  class ShadowTable {
    var guestToHost: map<u32, u32>
    var hostToGuest: map<u32, u32>
    var interfaces: map<u32, Interface>
    var hostInterfaces: map<u32, Interface>
    var guestVersions: map<u32, u32>
    var hostVersions: map<u32, u32>
    var retiredHostIds: set<u32>
    var pendingDestroyHostIds: set<u32>
    var pendingDestroyGuestIds: set<u32>
    var nextHostId: u32
    var nextGuestServerId: u32

    /** The value of the table. */
    function State(): Table
      reads this
    {
      Table(guestToHost, hostToGuest, interfaces, hostInterfaces, guestVersions, hostVersions,
            retiredHostIds, pendingDestroyHostIds, pendingDestroyGuestIds, nextHostId, nextGuestServerId)
    }

    constructor ()
      ensures State() == EMPTY
    {
      guestToHost, hostToGuest := map[], map[];
      interfaces, hostInterfaces := map[], map[];
      guestVersions, hostVersions := map[], map[];
      retiredHostIds, pendingDestroyHostIds, pendingDestroyGuestIds := {}, {}, {};
      nextHostId, nextGuestServerId := 2, GUEST_SERVER_ID_START;
    }

    /** `None` stands for the exhaustion panic. */
    method AllocateHostId() returns (id: Option<u32>)
      modifies this`nextHostId
      ensures id.Some? ==> old(State()).IsNextHost(id.value)
      ensures id.Some? ==> State() == old(State()).AdvanceHostCursor(id.value)
      ensures id.None? ==> old(State()).Exhausted()
    {
      ghost var from := if nextHostId < 2 then 2 else nextHostId;
      ghost var skip := if nextHostId < 2 then 1 else 0;
      for n := 0 to 0x1_0000_0000
        invariant State() == old(State()).(nextHostId := nextHostId)
        invariant n < skip ==> nextHostId == old(nextHostId)
        invariant n >= skip ==> 2 <= nextHostId
        invariant skip <= n && n - skip < 0xffff_fffe ==> CyclicDistance(2, from, nextHostId) == n - skip
        invariant forall y: u32 | 2 <= y && CyclicDistance(2, from, y) < n - skip :: !State().IsHostIdAvailable(y)
      {
        var candidate := nextHostId;
        nextHostId := NextHostCursor(nextHostId);
        if candidate >= 2 && !(candidate in hostToGuest) && !(candidate in hostInterfaces)
           && !(candidate in retiredHostIds) && !(candidate in pendingDestroyHostIds)
        {
          return Some(candidate);
        }
      }
      id := None;
    }

    method AllocateGuestServerId() returns (id: Option<u32>)
      requires GUEST_SERVER_ID_START <= nextGuestServerId
      modifies this`nextGuestServerId
      ensures GUEST_SERVER_ID_START <= nextGuestServerId
      ensures id.Some? ==> old(State()).IsNextServer(id.value)
      ensures id.Some? ==> State() == old(State()).AdvanceGuestServerCursor(id.value)
      ensures id.None? ==> old(State()).ServerRangeExhausted()
    {
      ghost var from := nextGuestServerId;
      for n := 0 to 0x0100_0000
        invariant State() == old(State()).(nextGuestServerId := nextGuestServerId)
        invariant GUEST_SERVER_ID_START <= nextGuestServerId
        invariant n < 0x0100_0000 ==> CyclicDistance(GUEST_SERVER_ID_START, from, nextGuestServerId) == n
        invariant forall y: u32 | GUEST_SERVER_ID_START <= y && CyclicDistance(GUEST_SERVER_ID_START, from, y) < n
                    :: !State().IsGuestServerIdFree(y)
      {
        var candidate := nextGuestServerId;
        nextGuestServerId := NextGuestServerCursor(nextGuestServerId);
        if candidate !in guestToHost && candidate !in interfaces {
          return Some(candidate);
        }
      }
      id := None;
    }

    method MapId(guest: u32, host: u32)
      modifies this
      ensures State() == old(State()).MapId(guest, host)
    {
      var oldHost := Lookup(guestToHost, guest);
      guestToHost := guestToHost[guest := host];
      if oldHost.Some? && oldHost.value != host && Lookup(hostToGuest, oldHost.value) == Some(guest) {
        hostToGuest := hostToGuest - {oldHost.value};
        hostVersions := hostVersions - {oldHost.value};
      }
      assert State() == old(State()).LinkGuest(guest, host);
      var oldGuest := Lookup(hostToGuest, host);
      hostToGuest := hostToGuest[host := guest];
      if oldGuest.Some? && oldGuest.value != guest && Lookup(guestToHost, oldGuest.value) == Some(host) {
        guestToHost := guestToHost - {oldGuest.value};
        interfaces := interfaces - {oldGuest.value};
        guestVersions := guestVersions - {oldGuest.value};
      }
    }

    method TrackInterface(guest: u32, interface: Interface)
      modifies this
      ensures State() == old(State()).TrackInterface(guest, interface)
    {
      interfaces := interfaces[guest := interface];
      if guest !in guestVersions {
        guestVersions := guestVersions[guest := UNKNOWN_OBJECT_VERSION];
      }
    }

    method TrackInterfaceWithVersion(guest: u32, interface: Interface, version: u32)
      modifies this
      ensures State() == old(State()).TrackInterfaceWithVersion(guest, interface, version)
    {
      interfaces := interfaces[guest := interface];
      guestVersions := guestVersions[guest := version];
    }

    method TrackHostInterfaceWithVersion(host: u32, interface: Interface, version: u32)
      modifies this
      ensures State() == old(State()).TrackHostInterfaceWithVersion(host, interface, version)
    {
      hostInterfaces := hostInterfaces[host := interface];
      hostVersions := hostVersions[host := version];
    }

    method SetHostVersion(host: u32, version: u32)
      modifies this
      ensures State() == old(State()).SetHostVersion(host, version)
    {
      hostVersions := hostVersions[host := version];
    }

    method MarkPendingDestroy(guest: u32)
      modifies this
      ensures State() == old(State()).MarkPendingDestroy(guest)
    {
      if guest in guestToHost {
        pendingDestroyGuestIds := pendingDestroyGuestIds + {guest};
      }
    }

    method MarkPendingDestroyHost(host: u32) returns (inserted: bool)
      modifies this
      ensures State() == old(State()).MarkPendingDestroyHost(host)
      ensures inserted == (old(State()).IsHostOnly(host) && host !in old(pendingDestroyHostIds))
    {
      if host in hostToGuest || host !in hostInterfaces {
        return false;
      }
      hostInterfaces := hostInterfaces - {host};
      hostVersions := hostVersions - {host};
      retiredHostIds := retiredHostIds - {host};
      inserted := host !in pendingDestroyHostIds;
      pendingDestroyHostIds := pendingDestroyHostIds + {host};
    }

    method ConsumeHostDeleteId(host: u32) returns (consumed: bool)
      modifies this
      ensures State() == old(State()).ConsumeHostDeleteId(host)
      ensures consumed == (host in old(pendingDestroyHostIds))
    {
      consumed := host in pendingDestroyHostIds;
      pendingDestroyHostIds := pendingDestroyHostIds - {host};
    }

    method ClearPendingDestroyGuest(guest: u32)
      modifies this
      ensures State() == old(State()).ClearPendingDestroyGuest(guest)
    {
      pendingDestroyGuestIds := pendingDestroyGuestIds - {guest};
    }

    method RemoveHostInterface(host: u32)
      modifies this
      ensures State() == old(State()).RemoveHostInterface(host)
    {
      hostInterfaces := hostInterfaces - {host};
      hostVersions := hostVersions - {host};
      retiredHostIds := retiredHostIds - {host};
      pendingDestroyHostIds := pendingDestroyHostIds - {host};
    }

    method RetireHostInterface(host: u32)
      modifies this
      ensures State() == old(State()).RetireHostInterface(host)
    {
      hostInterfaces := hostInterfaces - {host};
      hostVersions := hostVersions - {host};
      pendingDestroyHostIds := pendingDestroyHostIds - {host};
      retiredHostIds := retiredHostIds + {host};
    }

    method RemoveId(guest: u32)
      modifies this
      ensures State() == old(State()).RemoveId(guest)
    {
      pendingDestroyGuestIds := pendingDestroyGuestIds - {guest};
      if guest in guestToHost {
        var host := guestToHost[guest];
        guestToHost := guestToHost - {guest};
        hostToGuest := hostToGuest - {host};
        hostInterfaces := hostInterfaces - {host};
        hostVersions := hostVersions - {host};
      } else {
        assert hostToGuest - {} == hostToGuest && hostInterfaces - {} == hostInterfaces && hostVersions - {} == hostVersions;
      }
      interfaces := interfaces - {guest};
      guestVersions := guestVersions - {guest};
    }

    method RemoveGuestMapping(guest: u32)
      modifies this
      ensures State() == old(State()).RemoveGuestMapping(guest)
    {
      var guestInterface := Lookup(interfaces, guest);
      interfaces := interfaces - {guest};
      guestVersions := guestVersions - {guest};
      if guest in guestToHost {
        var host := guestToHost[guest];
        guestToHost := guestToHost - {guest};
        if Lookup(hostToGuest, host) == Some(guest) {
          hostToGuest := hostToGuest - {host};
        }
        if host !in hostInterfaces && guestInterface.Some? {
          hostInterfaces := hostInterfaces[host := guestInterface.value];
        }
      }
    }

    method RetireServerDestroyedObject(guest: u32) returns (host: Option<u32>)
      modifies this
      ensures State() == old(State()).RetireServerDestroyedObject(guest)
      ensures host.Some? ==> host == Lookup(old(guestToHost), guest) && host.value in pendingDestroyHostIds
    {
      if guest !in guestToHost {
        return None;
      }
      var hostId := guestToHost[guest];
      RemoveGuestMapping(guest);
      var retained := MarkPendingDestroyHost(hostId);
      host := if retained then Some(hostId) else None;
    }

    method RetireGuestObject(guest: u32)
      modifies this
      ensures State() == old(State()).RetireGuestObject(guest)
    {
      var interface := Lookup(interfaces, guest);
      interfaces := interfaces - {guest};
      guestVersions := guestVersions - {guest};
      if guest in guestToHost && interface.Some? {
        var host := guestToHost[guest];
        pendingDestroyGuestIds := pendingDestroyGuestIds + {guest};
        if host !in hostInterfaces {
          hostInterfaces := hostInterfaces[host := interface.value];
        }
        if host !in hostVersions {
          hostVersions := hostVersions[host := UNKNOWN_OBJECT_VERSION];
        }
      }
    }
  }
}

/**
 Surfaces and the buffers they show: `wl_surface.attach`, `commit` and `destroy`,
 `wl_buffer.destroy` and `release`, and the deferred retirement of destroyed
 buffers (sommelier/src/handler/compositor.rs, shm.rs and state.rs).
 */
module Scenes {
  import opened Prelude
  import opened Surfaces
  import opened RenderBuffers

  /** Requests on surfaces and buffers, in host numbers for buffers. */
  datatype Request =
    | AttachBuffer(surface: u32, shown: Option<u32>)
    | Damage(surface: u32, rect: Rect)
    | CommitSurface(surface: u32)
    | DestroySurface(surface: u32)
    | DestroyBuffer(buffer: u32)

  /** What the parts of a commit outside this model report: the encoded damage,
      whether the pixel copy and the fence wait succeed, and whether a viewport
      object exists to blame for an invalid size. */
  datatype Outcome = Outcome(damage: Option<seq<Rect>>, copied: bool, synchronized: bool, viewportObject: bool)

  function DamageBatch(surface: u32, damage: seq<Rect>): (batch: seq<Request>)
    ensures |batch| == |damage| + 1 && batch[|damage|] == CommitSurface(surface)
    ensures forall i | 0 <= i < |damage| :: batch[i] == Damage(surface, damage[i])
  {
    seq(|damage|, i requires 0 <= i < |damage| => Damage(surface, damage[i])) + [CommitSurface(surface)]
  }

  datatype Scene = Scene(
    hosts: map<u32, u32>,
    guests: map<u32, u32>,
    buffers: Entries,
    surfaces: map<u32, Surface>,
    toHost: seq<Request>,
    fatal: bool)
  {
    // ---- lookups ----

    function Resolve(guest: u32): Option<u32> {
      if guest in hosts && hosts[guest] in buffers then Some(hosts[guest]) else None
    }

    predicate IsSubmitted(guest: u32) {
      Resolve(guest).Some? && IsAwaiting(buffers, hosts[guest])
    }

    predicate IsReleased(guest: u32) {
      Resolve(guest).Some? && buffers[hosts[guest]].Active() && buffers[hosts[guest]].use.Released?
    }

    predicate HasCurrent(guest: u32) {
      exists s | s in surfaces :: surfaces[s].CurrentBuffer() == Some(guest)
    }

    predicate HasPending(guest: u32) {
      exists s | s in surfaces :: surfaces[s].pendingAttachment == Attach(guest)
    }

    predicate CanRetire(guest: u32) {
      && (!(HasCurrent(guest) || HasPending(guest)) || (IsReleased(guest) && !HasPending(guest)))
      && !IsSubmitted(guest)
    }

    /** A buffer the guest destroyed and nothing needs any more. */
    predicate IsCandidate(host: u32) {
      host in buffers && buffers[host].GuestDestroyed? && host in guests && CanRetire(guests[host])
    }

    // ---- pieces ----

    function Reject(): Scene {
      this.(fatal := true)
    }

    /** Queue the host destructor and apply the ID-ownership policy. */
    function Destroyed(guest: u32, host: u32): Scene {
      var queued := this.(toHost := toHost + [DestroyBuffer(host)]);
      if guest >= GUEST_SERVER_ID_START then
        if host !in buffers then queued.Reject()
        else queued.(buffers := buffers - {host}, hosts := hosts - {guest}, guests := guests - {host})
      else if !IsActive(buffers, host) then
        if host in buffers then queued.Reject() else queued
      else queued.(buffers := buffers[host := HostDestroyQueued])
    }

    function RetireOne(host: u32): Scene {
      if host in guests then Destroyed(guests[host], host) else this
    }

    /** `order` is the order in which the registry lists the candidates. */
    function RetireAll(order: seq<u32>): Scene {
      if order == [] then this else RetireAll(order[..|order| - 1]).RetireOne(order[|order| - 1])
    }

    function ClearReferences(guest: u32): Scene {
      this.(surfaces := map s | s in surfaces :: Cleared(surfaces[s], guest))
    }

    // ---- handlers ----

    /** Does the dispatcher accept `guest` as a buffer argument? */
    predicate IsLiveBuffer(guest: u32) {
      Resolve(guest).Some? && buffers[hosts[guest]].GuestAlive?
    }

    predicate AcceptsAttach(buffer: Option<u32>, legacy: bool, x: i32, y: i32) {
      (buffer.Some? ==> IsLiveBuffer(buffer.value)) && (legacy || (x == 0 && y == 0))
    }

    function Attached(surface: u32, buffer: Option<u32>, legacy: bool, x: i32, y: i32): Scene {
      var before := if surface in surfaces then surfaces[surface] else DEFAULT_SURFACE;
      var after := before.(
        pendingAttachment := if buffer.Some? then Attach(buffer.value) else Detach,
        pendingAttachOffset := if buffer.Some? && legacy then Some((x, y)) else None);
      this.(surfaces := surfaces[surface := after], toHost := toHost + [AttachBuffer(surface, HostOf(buffer))])
    }

    function OnAttach(surface: u32, buffer: Option<u32>, legacy: bool, x: i32, y: i32, order: seq<u32>): Scene {
      if AcceptsAttach(buffer, legacy, x, y) then Attached(surface, buffer, legacy, x, y).RetireAll(order) else Reject()
    }

    /** The copy of the attached buffer; anything but a local copy is ready at once. */
    function Copied(guest: u32, ok: bool): Scene {
      if Resolve(guest).Some? && buffers[hosts[guest]].Active() && buffers[hosts[guest]].backing.LocalCopy?
      then
        var b := buffers[hosts[guest]];
        this.(buffers := buffers[hosts[guest] := if b.GuestAlive?
                then GuestAlive(b.backing.(needsFullCopy := !ok), b.use)
                else GuestDestroyed(b.backing.(needsFullCopy := !ok), b.use)])
      else this
    }

    predicate CopyReady(guest: u32, ok: bool) {
      Resolve(guest).Some? && buffers[hosts[guest]].Active() && buffers[hosts[guest]].backing.LocalCopy? ==> ok
    }

    predicate SyncReady(guest: u32, ok: bool) {
      Resolve(guest).Some? && buffers[hosts[guest]].Active() && buffers[hosts[guest]].backing.Native? ==> ok
    }

    function Dimensions(guest: u32): Option<(i32, i32)> {
      if Resolve(guest).Some? && buffers[hosts[guest]].Active()
      then Some((buffers[hosts[guest]].backing.width, buffers[hosts[guest]].backing.height)) else None
    }

    /** `finalize_surface_attachment` succeeds. */
    predicate CanReplace(previous: Option<u32>, next: Option<u32>) {
      && (previous.Some? ==> Resolve(previous.value).Some?)
      && (next.Some? ==> Resolve(next.value).Some?)
      && CanFinalize(buffers, HostOf(previous), HostOf(next))
    }

    function HostOf(guest: Option<u32>): Option<u32> {
      if guest.Some? then Resolve(guest.value) else None
    }

    /** The local half of a replacement: the new contents' size, then both use edges. */
    function Replaced(surface: u32, previous: Option<u32>, next: Option<u32>): Scene
      requires surface in surfaces
    {
      this.(surfaces := surfaces[surface := if next.Some? then surfaces[surface].SetDimensions(next.value, Dimensions(next.value))
                                            else surfaces[surface]],
            buffers := Finalized(buffers, HostOf(previous), HostOf(next)))
    }

    /** Why a commit is not carried out, if it is not. */
    function CommitFailure(surface: u32, outcome: Outcome): Option<Failure> {
      var c := Prepare(if surface in surfaces then surfaces[surface] else DEFAULT_SURFACE);
      if c.HasInvalidFractionalViewport() then Some(BadViewport)
      else if outcome.damage.None? then Some(NotEncoded)
      else if c.attachment.Attach? && !CopyReady(c.attachment.buffer, outcome.copied) then Some(CopyFailed)
      else if c.attachment.Attach? && !SyncReady(c.attachment.buffer, outcome.synchronized) then Some(NotSynchronized)
      else if !c.attachment.Unchanged?
              && (surface !in surfaces || !CanReplace(c.previous.CurrentBuffer(), c.attachment.Buffer()))
      then Some(NotReplaced)
      else None
    }

    /** The scene a commit leaves, before idle buffers are retired. */
    function Committed(surface: u32, outcome: Outcome): Scene {
      var c := Prepare(if surface in surfaces then surfaces[surface] else DEFAULT_SURFACE);
      var ready := if c.attachment.Attach? then Copied(c.attachment.buffer, outcome.copied) else this;
      match CommitFailure(surface, outcome)
      case Some(BadViewport) => if outcome.viewportObject then Reject() else this
      case Some(NotEncoded) => Reject()
      case Some(CopyFailed) => ready
      case Some(NotSynchronized) => ready.Reject()
      case Some(NotReplaced) => ready.Reject()
      case None =>
        var applied := if surface in surfaces then ready.(surfaces := surfaces[surface := c.state]) else ready;
        var replaced := if c.attachment.Unchanged? || surface !in surfaces then applied
                        else applied.Replaced(surface, c.previous.CurrentBuffer(), c.attachment.Buffer());
        replaced.(toHost := replaced.toHost + DamageBatch(surface, outcome.damage.value))
    }

    function OnCommit(surface: u32, outcome: Outcome, order: seq<u32>): Scene {
      if CommitFailure(surface, outcome) == Some(BadViewport) then Committed(surface, outcome)
      else Committed(surface, outcome).RetireAll(order)
    }

    /** A surface is destroyed: its own use ends, whatever else holds its buffer. */
    function SurfaceDestroyed(surface: u32): Scene {
      var held := if surface in surfaces then surfaces[surface].CurrentBuffer() else None;
      this.(surfaces := surfaces - {surface}, toHost := toHost + [DestroySurface(surface)]).UseEnded(held)
    }

    function OnDestroySurface(surface: u32, order: seq<u32>): Scene {
      SurfaceDestroyed(surface).RetireAll(order)
    }

    function UseEnded(held: Option<u32>): Scene {
      if held.None? || Resolve(held.value).None? || !IsActive(buffers, hosts[held.value]) then this
      else
        var host := hosts[held.value];
        var other := HasCurrent(held.value);
        if !other && buffers[host].use.NeverSubmitted? then Reject()
        else this.(buffers := SurfaceUseEnded(buffers, host, other))
    }

    /** `wl_buffer.destroy`: deferred while a use or a pending attach remains. */
    function OnDestroyBuffer(guest: u32): Scene
      requires guest in hosts
    {
      if Defers(guest)
      then this.(buffers := GuestDestroyedBy(buffers, hosts[guest]),
                 fatal := fatal || !buffers[hosts[guest]].GuestAlive?)
      else Destroyed(guest, hosts[guest]).ClearReferences(guest)
    }

    predicate Defers(guest: u32) {
      && Resolve(guest).Some?
      && (IsSubmitted(guest) || HasCurrent(guest) || HasPending(guest))
      && (!IsReleased(guest) || HasPending(guest))
    }

    function OnRelease(host: u32): Scene {
      if host !in guests then this
      else
        var recorded := this.(buffers := ReleasedBy(buffers, host));
        if !(host in buffers && buffers[host].GuestDestroyed?) || HasPending(guests[host]) then recorded
        else recorded.Destroyed(guests[host], host).ClearReferences(guests[host])
    }

    /** `delete_id` for a destroyed buffer. */
    function OnDeleteBuffer(host: u32): Scene {
      if host !in guests then this
      else this.(buffers := buffers - {host}, hosts := hosts - {guests[host]}, guests := guests - {host})
    }

    function NewBuffer(guest: u32, host: u32, backing: Backing): Scene {
      this.(hosts := hosts[guest := host], guests := guests[host := guest],
            buffers := buffers[host := GuestAlive(backing, NeverSubmitted)])
    }
  }

  datatype Failure = BadViewport | NotEncoded | CopyFailed | NotSynchronized | NotReplaced

  function Cleared(surface: Surface, guest: u32): Surface {
    var s := surface.ClearReference(guest);
    if s.pendingAttachment == Attach(guest) then s.(pendingAttachment := Detach) else s
  }

  lemma CopyKeepsGuards(c: Scene, guest: u32, ok: bool, previous: Option<u32>, next: Option<u32>)
    ensures c.Copied(guest, ok).CanReplace(previous, next) <==> c.CanReplace(previous, next)
    ensures c.Copied(guest, ok).toHost == c.toHost && c.Copied(guest, ok).surfaces == c.surfaces
  {
  }

  /** What a commit may do to buffers does not depend on the surfaces. */
  lemma GuardsIgnoreSurfaces(c: Scene, surfaces: map<u32, Surface>, guest: u32, ok: bool, previous: Option<u32>,
      next: Option<u32>)
    ensures c.(surfaces := surfaces).CopyReady(guest, ok) <==> c.CopyReady(guest, ok)
    ensures c.(surfaces := surfaces).SyncReady(guest, ok) <==> c.SyncReady(guest, ok)
    ensures c.(surfaces := surfaces).CanReplace(previous, next) <==> c.CanReplace(previous, next)
    ensures c.(surfaces := surfaces).Copied(guest, ok) == c.Copied(guest, ok).(surfaces := surfaces)
    ensures c.Copied(guest, ok) == c.(buffers := c.Copied(guest, ok).buffers)
  {
  }
}

/**
 The mutable side of `Scenes`: the handlers of surfaces and buffers, statement by
 statement, over the shared render-buffer registry.
 */
module Compositor {
  import opened Prelude
  import opened Surfaces
  import opened RenderBuffers
  import opened Scenes

  class Handlers {
    const registry: RenderBufferRegistry
    var hosts: map<u32, u32>
    var guests: map<u32, u32>
    var surfaces: map<u32, Surface>
    var toHost: seq<Request>
    var fatal: bool

    function State(): Scene
      reads this, registry
    {
      Scene(hosts, guests, registry.entries, surfaces, toHost, fatal)
    }

    constructor ()
      ensures fresh(registry)
      ensures State() == Scene(map[], map[], map[], map[], [], false)
    {
      registry := new RenderBufferRegistry();
      hosts, guests, surfaces, toHost, fatal := map[], map[], map[], [], false;
    }

    method CompleteQueuedBufferDestroy(guest: u32, host: u32)
      modifies this, registry
      ensures State() == old(State()).Destroyed(guest, host)
    {
      toHost := toHost + [DestroyBuffer(host)];
      if guest >= GUEST_SERVER_ID_START {
        if host !in registry.entries {
          fatal := true;
          return;
        }
        registry.entries := registry.entries - {host};
        hosts, guests := hosts - {guest}, guests - {host};
      } else if host in registry.entries {
        var queued := registry.MarkHostDestroyQueued(host);
        if !queued {
          fatal := true;
        }
      }
    }

    /** Retire every buffer nothing needs any more; `order` is the order they were found in. */
    method RetireEligibleBuffers() returns (order: seq<u32>)
      modifies this, registry
      ensures forall h :: h in order <==> old(State()).IsCandidate(h)
      ensures forall i, j | 0 <= i < j < |order| :: order[i] != order[j]
      ensures State() == old(State()).RetireAll(order)
    {
      order := [];
      var rest := registry.entries.Keys;
      while rest != {}
        invariant rest <= registry.entries.Keys
        invariant forall h :: h in order ==> h !in rest
        invariant forall h :: h in order <==> h in registry.entries.Keys - rest && State().IsCandidate(h)
        invariant forall i, j | 0 <= i < j < |order| :: order[i] != order[j]
        invariant State() == old(State())
        decreases |rest|
      {
        var host :| host in rest;
        rest := rest - {host};
        if State().IsCandidate(host) {
          order := order + [host];
        }
      }
      var i := 0;
      while i < |order|
        invariant 0 <= i <= |order|
        invariant State() == old(State()).RetireAll(order[..i])
      {
        assert order[..i + 1][..i] == order[..i];
        if order[i] in guests {
          CompleteQueuedBufferDestroy(guests[order[i]], order[i]);
        }
        i := i + 1;
      }
      assert order[..|order|] == order;
    }

    method OnAttach(surface: u32, buffer: Option<u32>, legacy: bool, x: i32, y: i32) returns (order: seq<u32>)
      modifies this, registry
      ensures State() == old(State()).OnAttach(surface, buffer, legacy, x, y, order)
      ensures old(State()).AcceptsAttach(buffer, legacy, x, y) ==>
                forall h :: h in order <==> old(State()).Attached(surface, buffer, legacy, x, y).IsCandidate(h)
    {
      order := [];
      if buffer.Some? && !State().IsLiveBuffer(buffer.value) {
        fatal := true;
        return;
      }
      if !legacy && (x != 0 || y != 0) {
        fatal := true;
        return;
      }
      var s := if surface in surfaces then surfaces[surface] else DEFAULT_SURFACE;
      s := s.(pendingAttachment := if buffer.None? then Detach else Attach(buffer.value), pendingAttachOffset := None);
      if buffer.Some? && legacy {
        s := s.(pendingAttachOffset := Some((x, y)));
      }
      surfaces := surfaces[surface := s];
      toHost := toHost + [AttachBuffer(surface, State().HostOf(buffer))];
      assert State() == old(State()).Attached(surface, buffer, legacy, x, y);
      order := RetireEligibleBuffers();
    }

    method ClearReferences(guest: u32)
      modifies this`surfaces
      ensures State() == old(State()).ClearReferences(guest)
    {
      surfaces := map s | s in surfaces :: Cleared(surfaces[s], guest);
    }

    method OnDestroyBuffer(guest: u32)
      requires guest in hosts
      modifies this, registry
      ensures State() == old(State()).OnDestroyBuffer(guest)
    {
      var host := hosts[guest];
      var uncommitted := State().HasPending(guest);
      var referenced := State().IsSubmitted(guest) || State().HasCurrent(guest) || uncommitted;
      if State().Resolve(guest).Some? && referenced && (!State().IsReleased(guest) || uncommitted) {
        var marked := registry.MarkGuestDestroyed(host);
        if !marked {
          fatal := true;
        }
        return;
      }
      CompleteQueuedBufferDestroy(guest, host);
      ClearReferences(guest);
    }

    method OnRelease(host: u32)
      modifies this, registry
      ensures State() == old(State()).OnRelease(host)
    {
      if host !in guests {
        return;
      }
      var guest := guests[host];
      var pending := State().HasPending(guest);
      var destroyed := host in registry.entries && registry.entries[host].GuestDestroyed?;
      var recorded := registry.Release(host);
      if destroyed && !pending {
        CompleteQueuedBufferDestroy(guest, host);
        ClearReferences(guest);
      }
    }

    method OnDestroySurface(surface: u32) returns (order: seq<u32>)
      modifies this, registry
      ensures State() == old(State()).OnDestroySurface(surface, order)
      ensures forall h :: h in order <==> old(State()).SurfaceDestroyed(surface).IsCandidate(h)
    {
      var held := if surface in surfaces then surfaces[surface].CurrentBuffer() else None;
      toHost := toHost + [DestroySurface(surface)];
      surfaces := surfaces - {surface};
      if held.Some? && State().Resolve(held.value).Some? && IsActive(registry.entries, hosts[held.value]) {
        var finished := registry.EndLastSurfaceUse(hosts[held.value], State().HasCurrent(held.value));
        if !finished {
          fatal := true;
        }
      }
      assert State() == old(State()).SurfaceDestroyed(surface);
      order := RetireEligibleBuffers();
    }

    /** Copy an attached local buffer; a failure leaves it to be copied whole next time. */
    method CopySurfaceBuffer(guest: u32, copied: bool) returns (ready: bool)
      modifies registry
      ensures State() == old(State()).Copied(guest, copied)
      ensures ready == old(State()).CopyReady(guest, copied)
    {
      if State().Resolve(guest).None? {
        return true;
      }
      var buffer := registry.entries[hosts[guest]];
      if buffer.HostDestroyQueued? || buffer.backing.Native? {
        return true;
      }
      var backing := buffer.backing.(needsFullCopy := !copied);
      registry.entries := registry.entries[hosts[guest] :=
        if buffer.GuestAlive? then GuestAlive(backing, buffer.use) else GuestDestroyed(backing, buffer.use)];
      ready := copied;
    }

    method FinalizeSurfaceAttachment(previous: Option<u32>, next: Option<u32>) returns (ok: bool)
      modifies registry
      ensures ok == old(State()).CanReplace(previous, next)
      ensures State()
           == if ok
              then old(State()).(buffers := Finalized(old(registry.entries), old(State()).HostOf(previous),
                                                      old(State()).HostOf(next)))
              else old(State())
    {
      if (previous.Some? && State().HostOf(previous).None?) || (next.Some? && State().HostOf(next).None?) {
        return false;
      }
      ok := registry.FinalizeAttachment(State().HostOf(previous), State().HostOf(next));
    }

    /** Undo everything `Prepare` consumed. */
    method Rollback(surface: u32, commit: Commit)
      modifies this`surfaces
      ensures surfaces == if surface in old(surfaces) then old(surfaces)[surface := commit.previous] else old(surfaces)
    {
      if surface in surfaces {
        surfaces := surfaces[surface := commit.previous];
      }
    }

    method OnCommit(surface: u32, outcome: Outcome) returns (order: seq<u32>)
      modifies this, registry
      ensures State() == old(State()).OnCommit(surface, outcome, order)
      ensures old(State()).CommitFailure(surface, outcome) != Some(BadViewport) ==>
                forall h :: h in order <==> old(State()).Committed(surface, outcome).IsCandidate(h)
    {
      order := [];
      var applied := ApplyCommit(surface, outcome);
      if applied {
        order := RetireEligibleBuffers();
      }
    }

    /** Everything up to the retirement of idle buffers, which an invalid viewport skips. */
    method ApplyCommit(surface: u32, outcome: Outcome) returns (retires: bool)
      modifies this, registry
      ensures State() == old(State()).Committed(surface, outcome)
      ensures retires == (old(State()).CommitFailure(surface, outcome) != Some(BadViewport))
    {
      hide State().CopyReady, State().SyncReady, State().CanReplace, State().Copied;
      var commit := Prepare(if surface in surfaces then surfaces[surface] else DEFAULT_SURFACE);
      if surface in surfaces {
        surfaces := surfaces[surface := commit.state];
      }
      retires := !commit.HasInvalidFractionalViewport();
      if !retires {
        fatal := fatal || outcome.viewportObject;
        Rollback(surface, commit);
        assert surfaces == old(surfaces);
      } else if outcome.damage.None? {
        fatal := true;
        Rollback(surface, commit);
        assert surfaces == old(surfaces);
      } else {
        CarryOut(surface, commit, outcome, old(State()));
      }
    }

    /** The rest of a commit that has been encoded; `before` is the scene before it was applied. */
    method CarryOut(surface: u32, commit: Commit, outcome: Outcome, ghost before: Scene)
      requires commit == Prepare(if surface in before.surfaces then before.surfaces[surface] else DEFAULT_SURFACE)
      requires State() == before.(surfaces := if surface in before.surfaces then before.surfaces[surface := commit.state]
                                              else before.surfaces)
      requires !commit.HasInvalidFractionalViewport() && outcome.damage.Some?
      modifies this, registry
      ensures State() == before.Committed(surface, outcome)
    {
      hide State().CopyReady, State().SyncReady, State().CanReplace, State().Copied, State().Replaced,
        commit.HasInvalidFractionalViewport, commit.previous.Applied, commit.previous.BufferOffset, DamageBatch, Finalized;
      ghost var guest := if commit.attachment.Attach? then commit.attachment.buffer else 0;
      GuardsIgnoreSurfaces(before, surfaces, guest, outcome.copied, commit.previous.CurrentBuffer(), commit.attachment.Buffer());
      GuardsIgnoreSurfaces(before, surfaces, guest, outcome.synchronized, commit.previous.CurrentBuffer(),
                           commit.attachment.Buffer());
      var failure := Transfer(surface, commit, outcome);
      assert failure == before.CommitFailure(surface, outcome);
      if failure.Some? {
        fatal := fatal || failure.value != CopyFailed;
        Rollback(surface, commit);
        assert surfaces == before.surfaces;
      } else {
        toHost := toHost + DamageBatch(surface, outcome.damage.value);
      }
    }

    /** Copy, wait and replace: the fallible part of a commit whose state is already applied. */
    method Transfer(surface: u32, commit: Commit, outcome: Outcome) returns (failure: Option<Failure>)
      requires surface in surfaces ==> surfaces[surface] == commit.state
      modifies this`surfaces, registry
      ensures var before := old(State());
              failure == if commit.attachment.Attach? && !before.CopyReady(commit.attachment.buffer, outcome.copied)
                         then Some(CopyFailed)
                         else if commit.attachment.Attach? && !before.SyncReady(commit.attachment.buffer, outcome.synchronized)
                         then Some(NotSynchronized)
                         else if !commit.attachment.Unchanged?
                                 && (surface !in before.surfaces
                                     || !before.CanReplace(commit.previous.CurrentBuffer(), commit.attachment.Buffer()))
                         then Some(NotReplaced)
                         else None
      ensures var ready := if commit.attachment.Attach? then old(State()).Copied(commit.attachment.buffer, outcome.copied)
                           else old(State());
              State() == if failure.Some? then ready.(surfaces := surfaces)
                         else if commit.attachment.Unchanged? then ready
                         else ready.Replaced(surface, commit.previous.CurrentBuffer(), commit.attachment.Buffer())
      ensures surface in surfaces <==> surface in old(surfaces)
      ensures failure.Some? ==>
                surfaces == if surface in surfaces then old(surfaces)[surface := surfaces[surface]] else old(surfaces)
    {
      if commit.attachment.Attach? {
        CopyKeepsGuards(State(), commit.attachment.buffer, outcome.copied, commit.previous.CurrentBuffer(),
                        commit.attachment.Buffer());
        var ready := CopySurfaceBuffer(commit.attachment.buffer, outcome.copied);
        if !ready {
          return Some(CopyFailed);
        }
        if !State().SyncReady(commit.attachment.buffer, outcome.synchronized) {
          return Some(NotSynchronized);
        }
      }
      if commit.attachment.Unchanged? {
        return None;
      }
      if surface !in surfaces {
        return Some(NotReplaced);
      }
      var next := commit.attachment.Buffer();
      if next.Some? {
        surfaces := surfaces[surface := surfaces[surface].SetDimensions(next.value, State().Dimensions(next.value))];
      }
      var replaced := FinalizeSurfaceAttachment(commit.previous.CurrentBuffer(), next);
      failure := if replaced then None else Some(NotReplaced);
    }
  }
}

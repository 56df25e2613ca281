/**
 Use intervals of render buffers (sommelier/src/state/render.rs). Every host
 buffer is `NeverSubmitted`, in use, or `Released`; a use that outlives its
 surface attachment is remembered until the host releases the buffer.
 */
module RenderBuffers {
  import opened Prelude

  datatype Use = NeverSubmitted | AwaitingRelease(hasDetachedUse: bool) | Released

  /** Storage behind a host buffer; pixel data is not modelled. */
  datatype Backing =
    | LocalCopy(width: i32, height: i32, needsFullCopy: bool)
    | Native(width: i32, height: i32)

  datatype RenderBuffer =
    | GuestAlive(backing: Backing, use: Use)
    | GuestDestroyed(backing: Backing, use: Use)
    | HostDestroyQueued
  {
    predicate Active() {
      !HostDestroyQueued?
    }

    function WithUse(u: Use): RenderBuffer
      requires Active()
    {
      if GuestAlive? then GuestAlive(backing, u) else GuestDestroyed(backing, u)
    }
  }

  type Entries = map<u32, RenderBuffer>

  predicate IsActive(m: Entries, host: u32) {
    host in m && m[host].Active()
  }

  predicate IsAwaiting(m: Entries, host: u32) {
    IsActive(m, host) && m[host].use.AwaitingRelease?
  }

  predicate CanDetach(m: Entries, host: u32) {
    IsActive(m, host) && !m[host].use.NeverSubmitted?
  }

  function Submitted(m: Entries, host: u32): Entries {
    if !IsActive(m, host) || m[host].use.AwaitingRelease? then m
    else m[host := m[host].WithUse(AwaitingRelease(false))]
  }

  function ReleasedBy(m: Entries, host: u32): Entries {
    if IsAwaiting(m, host) then m[host := m[host].WithUse(Released)] else m
  }

  function Detached(m: Entries, host: u32): Entries {
    if IsAwaiting(m, host) then m[host := m[host].WithUse(AwaitingRelease(true))] else m
  }

  /** A surface that held `host` is destroyed; `hasOther` if another still holds it. */
  function SurfaceUseEnded(m: Entries, host: u32, hasOther: bool): Entries {
    if IsAwaiting(m, host) && !hasOther && !m[host].use.hasDetachedUse
    then m[host := m[host].WithUse(NeverSubmitted)] else m
  }

  predicate CanFinalize(m: Entries, previous: Option<u32>, next: Option<u32>) {
    if previous == next then next.Some? ==> IsActive(m, next.value)
    else (previous.Some? ==> CanDetach(m, previous.value)) && (next.Some? ==> IsActive(m, next.value))
  }

  /** One attachment replacement: both edges, or none. */
  function Finalized(m: Entries, previous: Option<u32>, next: Option<u32>): Entries {
    if !CanFinalize(m, previous, next) then m
    else
      var detached := if previous.Some? && previous != next then Detached(m, previous.value) else m;
      if next.Some? then Submitted(detached, next.value) else detached
  }

  function GuestDestroyedBy(m: Entries, host: u32): Entries {
    if host in m && m[host].GuestAlive? then m[host := GuestDestroyed(m[host].backing, m[host].use)] else m
  }

  class RenderBufferRegistry {
    var entries: Entries

    constructor ()
      ensures entries == map[]
    {
      entries := map[];
    }

    method Register(host: u32, backing: Backing) returns (ok: bool)
      modifies this
      ensures ok == (host !in old(entries))
      ensures entries == if ok then old(entries)[host := GuestAlive(backing, NeverSubmitted)] else old(entries)
    {
      ok := host !in entries;
      if ok {
        entries := entries[host := GuestAlive(backing, NeverSubmitted)];
      }
    }

    method Submit(host: u32) returns (ok: bool)
      modifies this
      ensures ok == IsActive(old(entries), host)
      ensures entries == Submitted(old(entries), host)
    {
      if host !in entries || entries[host].HostDestroyQueued? {
        return false;
      }
      match entries[host].use {
        case AwaitingRelease(_) =>
        case NeverSubmitted => entries := entries[host := entries[host].WithUse(AwaitingRelease(false))];
        case Released => entries := entries[host := entries[host].WithUse(AwaitingRelease(false))];
      }
      ok := true;
    }

    method Release(host: u32) returns (ok: bool)
      modifies this
      ensures ok == IsAwaiting(old(entries), host)
      ensures entries == ReleasedBy(old(entries), host)
    {
      if host !in entries || entries[host].HostDestroyQueued? || !entries[host].use.AwaitingRelease? {
        return false;
      }
      entries := entries[host := entries[host].WithUse(Released)];
      ok := true;
    }

    method DetachUse(host: u32) returns (ok: bool)
      modifies this
      ensures ok == CanDetach(old(entries), host)
      ensures entries == Detached(old(entries), host)
    {
      if host !in entries || entries[host].HostDestroyQueued? {
        return false;
      }
      match entries[host].use {
        case AwaitingRelease(_) =>
          entries := entries[host := entries[host].WithUse(AwaitingRelease(true))];
          ok := true;
        case Released => ok := true;
        case NeverSubmitted => ok := false;
      }
    }

    method EndLastSurfaceUse(host: u32, hasOther: bool) returns (ok: bool)
      modifies this
      ensures ok == (IsActive(old(entries), host) && (hasOther || !old(entries)[host].use.NeverSubmitted?))
      ensures entries == SurfaceUseEnded(old(entries), host, hasOther)
    {
      if host !in entries || entries[host].HostDestroyQueued? {
        return false;
      }
      if hasOther {
        return true;
      }
      match entries[host].use {
        case AwaitingRelease(hasDetachedUse) =>
          if !hasDetachedUse {
            entries := entries[host := entries[host].WithUse(NeverSubmitted)];
          }
          ok := true;
        case Released => ok := true;
        case NeverSubmitted => ok := false;
      }
    }

    method FinalizeAttachment(previous: Option<u32>, next: Option<u32>) returns (ok: bool)
      modifies this
      ensures ok == CanFinalize(old(entries), previous, next)
      ensures entries == Finalized(old(entries), previous, next)
    {
      if previous == next {
        if next.None? {
          return true;
        }
        ok := Submit(next.value);
        return;
      }
      if (previous.Some? && !CanDetach(entries, previous.value)) || (next.Some? && !IsActive(entries, next.value)) {
        return false;
      }
      if previous.Some? {
        var detached := DetachUse(previous.value);
        if !detached {
          assert false;
          return false;
        }
      }
      if next.Some? {
        var submitted := Submit(next.value);
        if !submitted {
          assert false;
          return false;
        }
      }
      ok := true;
    }

    method MarkGuestDestroyed(host: u32) returns (ok: bool)
      modifies this
      ensures ok == (host in old(entries) && old(entries)[host].GuestAlive?)
      ensures entries == GuestDestroyedBy(old(entries), host)
    {
      if host !in entries || !entries[host].GuestAlive? {
        return false;
      }
      entries := entries[host := GuestDestroyed(entries[host].backing, entries[host].use)];
      ok := true;
    }

    method MarkHostDestroyQueued(host: u32) returns (ok: bool)
      modifies this
      ensures ok == IsActive(old(entries), host)
      ensures entries == if ok then old(entries)[host := HostDestroyQueued] else old(entries)
    {
      if host !in entries || entries[host].HostDestroyQueued? {
        return false;
      }
      entries := entries[host := HostDestroyQueued];
      ok := true;
    }
  }

  /** A replacement is accepted exactly when afterwards the new buffer awaits its release
      and the old one has none left to miss; a refused one touches no buffer, an accepted
      one only these two. */
  lemma ReplacementIsAllOrNothing(m: Entries, previous: u32, next: u32)
    requires previous != next
    ensures var r := Finalized(m, Some(previous), Some(next));
            && r.Keys == m.Keys
            && (CanFinalize(m, Some(previous), Some(next)) <==>
                  IsAwaiting(r, next) && IsActive(r, previous) && r[previous].use in {Released, AwaitingRelease(true)})
            && forall h :: h in m && r[h] != m[h] ==> CanFinalize(m, Some(previous), Some(next)) && h in {previous, next}
    ensures CanFinalize(m, Some(previous), Some(next)) ==>
              var r := Finalized(m, Some(previous), Some(next));
              && (IsAwaiting(m, previous) ==> r[previous].use == AwaitingRelease(true))
              && (m[previous].use.Released? ==> r[previous] == m[previous])
  {
  }
}

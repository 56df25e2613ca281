/**
 The other half of the buffer lifecycle: that a destroy which was deferred is carried out,
 and that a use which is over is not kept open (sommelier/src/handler/shm.rs, compositor.rs).
 */
module BufferEndings {
  import opened Prelude
  import opened Surfaces
  import opened RenderBuffers
  import opened Scenes
  import opened UseIntervals
  import opened StaleContents

  /** No buffer the guest has destroyed is left lying idle. */
  ghost predicate Settled(c: Scene) {
    forall h :: h in c.buffers ==> !c.IsCandidate(h)
  }

  /** A use that no replacement has detached belongs to the contents of some surface. */
  ghost predicate Attributed(c: Scene) {
    forall h :: IsAwaiting(c.buffers, h) && !c.buffers[h].use.hasDetachedUse ==> h in c.guests && c.HasCurrent(c.guests[h])
  }

  // ---- retiring ----

  lemma RetireOneAddsNone(c: Scene, host: u32, other: u32)
    requires MapsOk(c) && c.IsCandidate(host) && c.RetireOne(host).IsCandidate(other)
    ensures c.IsCandidate(other) && other != host
  {
    var after := c.RetireOne(host);
    DestroyedKeepsMaps(c, c.guests[host]);
    assert after.surfaces == c.surfaces;
    assert other in after.buffers && other in c.buffers;
  }

  lemma {:induction false} RetireAllRemoves(c: Scene, v: Screen, order: seq<u32>, host: u32)
    requires Inv(c, v) && c.RetireAll(order).IsCandidate(host)
    requires forall h :: h in order ==> c.IsCandidate(h)
    requires forall i, j | 0 <= i < j < |order| :: order[i] != order[j]
    ensures c.IsCandidate(host) && host !in order
  {
    hide PendingOk, UsesOk, c.IsCandidate, c.RetireOne;
    if order != [] {
      var init, last := order[..|order| - 1], order[|order| - 1];
      var w := RetireAllKeeps(c, v, init);
      var d := c.RetireAll(init);
      assert d.IsCandidate(last);
      RetireOneAddsNone(d, last, host);
      RetireAllRemoves(c, v, init, host);
    }
  }

  lemma RetireAllSettles(c: Scene, v: Screen, order: seq<u32>)
    requires Inv(c, v) && Lists(c, order)
    ensures Settled(c.RetireAll(order))
  {
    forall h | c.RetireAll(order).IsCandidate(h) ensures false {
      RetireAllRemoves(c, v, order, h);
    }
  }

  lemma RetireOneKeepsAttributed(c: Scene, host: u32)
    requires MapsOk(c) && Attributed(c) && c.IsCandidate(host)
    ensures Attributed(c.RetireOne(host))
  {
    DestroyedKeepsMaps(c, c.guests[host]);
    var after := c.RetireOne(host);
    forall h | IsAwaiting(after.buffers, h) && !after.buffers[h].use.hasDetachedUse
      ensures h in after.guests && after.HasCurrent(after.guests[h])
    {
      assert IsAwaiting(c.buffers, h) && c.buffers[h] == after.buffers[h] && h != host;
    }
  }

  lemma {:induction false} RetireAllKeepsAttributed(c: Scene, v: Screen, order: seq<u32>)
    requires Inv(c, v) && Attributed(c)
    requires forall h :: h in order ==> c.IsCandidate(h)
    requires forall i, j | 0 <= i < j < |order| :: order[i] != order[j]
    ensures Attributed(c.RetireAll(order))
  {
    if order != [] {
      var init, last := order[..|order| - 1], order[|order| - 1];
      var w := RetireAllKeeps(c, v, init);
      var d := c.RetireAll(init);
      assert d.IsCandidate(last);
      RetireAllKeepsAttributed(c, v, init);
      RetireOneKeepsAttributed(d, last);
    }
  }

  // ---- handlers ----

  /** Other buffers are candidates, and their uses attributed, by their own surfaces only. */
  lemma NewSettles(c: Scene, guest: u32, host: u32, backing: Backing)
    requires MapsOk(c) && guest !in c.hosts && host !in c.guests && Settled(c) && Attributed(c)
    ensures Settled(c.NewBuffer(guest, host, backing)) && Attributed(c.NewBuffer(guest, host, backing))
  {
    var d := c.NewBuffer(guest, host, backing);
    forall h | h in d.buffers ensures !d.IsCandidate(h) {
      assert h != host ==> h in c.buffers && !c.IsCandidate(h) && d.guests[h] == c.guests[h] && d.guests[h] != guest;
    }
    forall h | IsAwaiting(d.buffers, h) && !d.buffers[h].use.hasDetachedUse ensures h in d.guests && d.HasCurrent(d.guests[h]) {
      assert h != host && IsAwaiting(c.buffers, h) && c.HasCurrent(c.guests[h]);
    }
  }

  lemma DeletedSettles(c: Scene, host: u32)
    requires MapsOk(c) && Settled(c) && Attributed(c) && host in c.buffers && c.buffers[host].HostDestroyQueued?
    ensures Settled(c.OnDeleteBuffer(host)) && Attributed(c.OnDeleteBuffer(host))
  {
    var d := c.OnDeleteBuffer(host);
    forall h | h in d.buffers ensures !d.IsCandidate(h) {
      assert h in c.buffers && !c.IsCandidate(h) && d.guests[h] == c.guests[h] != c.guests[host];
    }
    forall h | IsAwaiting(d.buffers, h) && !d.buffers[h].use.hasDetachedUse ensures h in d.guests && d.HasCurrent(d.guests[h]) {
      assert h != host && IsAwaiting(c.buffers, h) && c.HasCurrent(c.guests[h]);
    }
  }

  lemma DeferredSettles(c: Scene, guest: u32)
    requires MapsOk(c) && Settled(c) && Attributed(c) && c.IsLiveBuffer(guest) && c.Defers(guest)
    ensures Settled(c.OnDestroyBuffer(guest)) && Attributed(c.OnDestroyBuffer(guest))
  {
    var d := c.OnDestroyBuffer(guest);
    forall h | h in d.buffers ensures !d.IsCandidate(h) {
      assert h in c.buffers && !c.IsCandidate(h);
    }
    forall h | IsAwaiting(d.buffers, h) && !d.buffers[h].use.hasDetachedUse ensures h in d.guests && d.HasCurrent(d.guests[h]) {
      assert IsAwaiting(c.buffers, h) && c.HasCurrent(c.guests[h]);
    }
  }

  lemma ClearedCurrent(c: Scene, guest: u32, other: u32)
    requires !c.HasPending(guest)
    ensures var d := c.ClearReferences(guest);
            && !d.HasCurrent(guest) && !d.HasPending(guest)
            && (other != guest ==>
                  (d.HasCurrent(other) <==> c.HasCurrent(other)) && (d.HasPending(other) <==> c.HasPending(other)))
  {
    var d := c.ClearReferences(guest);
    if other != guest {
      forall s | s in c.surfaces
        ensures d.surfaces[s].CurrentBuffer() == Some(other) <==> c.surfaces[s].CurrentBuffer() == Some(other)
        ensures d.surfaces[s].pendingAttachment == Attach(other) <==> c.surfaces[s].pendingAttachment == Attach(other)
      {
      }
    }
  }

  lemma GoneSettles(c: Scene, guest: u32)
    requires MapsOk(c) && guest in c.hosts && IsActive(c.buffers, c.hosts[guest]) && !c.HasPending(guest)
    requires forall h :: h in c.buffers && h != c.hosts[guest] ==> !c.IsCandidate(h)
    requires Attributed(c) && !IsAwaiting(c.buffers, c.hosts[guest])
    ensures var d := c.Destroyed(guest, c.hosts[guest]).ClearReferences(guest); Settled(d) && Attributed(d)
  {
    var host := c.hosts[guest];
    var b := c.Destroyed(guest, host);
    var d := b.ClearReferences(guest);
    DestroyedKeepsMaps(c, guest);
    ClearedIs(b, guest);
    forall h | h in d.buffers ensures !d.IsCandidate(h) {
      if h != host {
        assert h in c.buffers && !c.IsCandidate(h) && b.buffers[h] == c.buffers[h] && b.guests[h] == c.guests[h] != guest;
        ClearedCurrent(b, guest, c.guests[h]);
      }
    }
    forall h | IsAwaiting(d.buffers, h) && !d.buffers[h].use.hasDetachedUse ensures h in d.guests && d.HasCurrent(d.guests[h]) {
      assert h != host && IsAwaiting(c.buffers, h) && c.HasCurrent(c.guests[h]);
      ClearedCurrent(b, guest, c.guests[h]);
    }
  }

  lemma ReleasedSettles(c: Scene, host: u32)
    requires MapsOk(c) && Settled(c) && Attributed(c) && host in c.guests
    ensures var d := c.(buffers := ReleasedBy(c.buffers, host));
            && Attributed(d) && (forall h :: h in d.buffers && h != host ==> !d.IsCandidate(h))
            && (d.IsCandidate(host) ==> c.buffers[host].GuestDestroyed? && !c.HasPending(c.guests[host]))
  {
    var d := c.(buffers := ReleasedBy(c.buffers, host));
    ReleaseKeepsKeys(c.buffers, host);
    forall h | h in d.buffers && h != host ensures !d.IsCandidate(h) {
      assert !c.IsCandidate(h) && d.buffers[h] == c.buffers[h];
    }
    forall h | IsAwaiting(d.buffers, h) && !d.buffers[h].use.hasDetachedUse ensures h in d.guests && d.HasCurrent(d.guests[h]) {
      assert IsAwaiting(c.buffers, h) && c.HasCurrent(c.guests[h]);
    }
  }

  lemma ReleaseSettles(c: Scene, v: Screen, host: u32)
    requires Inv(c, v) && Settled(c) && Attributed(c)
    ensures Settled(c.OnRelease(host)) && Attributed(c.OnRelease(host))
  {
    if host in c.guests {
      var d := c.(buffers := ReleasedBy(c.buffers, host));
      ReleasedSettles(c, host);
      ReleasedKeeps(c, v, host);
      if host in c.buffers && c.buffers[host].GuestDestroyed? && !c.HasPending(c.guests[host]) {
        assert d.guests[host] == c.guests[host] && d.hosts == c.hosts && !d.HasPending(c.guests[host]);
        GoneSettles(d, c.guests[host]);
      }
    }
  }

  lemma AttachedAttributed(c: Scene, s: u32, buffer: Option<u32>, legacy: bool, x: i32, y: i32)
    requires Attributed(c)
    ensures Attributed(c.Attached(s, buffer, legacy, x, y))
  {
    var d := c.Attached(s, buffer, legacy, x, y);
    forall h | IsAwaiting(d.buffers, h) && !d.buffers[h].use.hasDetachedUse ensures h in d.guests && d.HasCurrent(d.guests[h]) {
      var t :| t in c.surfaces && c.surfaces[t].CurrentBuffer() == Some(c.guests[h]);
      assert d.surfaces[t].CurrentBuffer() == Some(d.guests[h]);
    }
  }

  lemma SurfaceDestroyedAttributed(c: Scene, s: u32)
    requires MapsOk(c) && Attributed(c)
    ensures Attributed(c.SurfaceDestroyed(s))
  {
    var held := if s in c.surfaces then c.surfaces[s].CurrentBuffer() else None;
    var gone := c.(surfaces := c.surfaces - {s}, toHost := c.toHost + [DestroySurface(s)]);
    var d := gone.UseEnded(held);
    UseEndedKeepsRest(gone, held);
    forall h | IsAwaiting(d.buffers, h) && !d.buffers[h].use.hasDetachedUse ensures h in d.guests && d.HasCurrent(d.guests[h]) {
      EndedUseIs(gone, held, h);
      var t :| t in c.surfaces && c.surfaces[t].CurrentBuffer() == Some(c.guests[h]);
      if t != s {
        assert d.surfaces[t].CurrentBuffer() == Some(d.guests[h]);
      }
    }
  }

  /** A use still open after its surface's end was open before, and another surface shows it. */
  lemma EndedUseIs(c: Scene, held: Option<u32>, host: u32)
    requires MapsOk(c)
    ensures var d := c.UseEnded(held);
            IsAwaiting(d.buffers, host) && !d.buffers[host].use.hasDetachedUse ==>
              && IsAwaiting(c.buffers, host) && !c.buffers[host].use.hasDetachedUse
              && (held == Some(c.guests[host]) ==> c.HasCurrent(c.guests[host]))
  {
  }

  lemma SameAttributed(c: Scene, d: Scene)
    requires SameScene(c, d) && Attributed(c)
    ensures Attributed(d)
  {
    forall h | IsAwaiting(d.buffers, h) && !d.buffers[h].use.hasDetachedUse ensures h in d.guests && d.HasCurrent(d.guests[h]) {
      assert c.HasCurrent(c.guests[h]);
    }
  }

  lemma SameSettled(c: Scene, d: Scene)
    requires SameScene(c, d) && Settled(c)
    ensures Settled(d)
  {
    forall h | h in d.buffers ensures !d.IsCandidate(h) {
      assert !c.IsCandidate(h);
    }
  }

  lemma CopiedAttributed(c: Scene, guest: u32, ok: bool)
    requires Attributed(c)
    ensures Attributed(c.Copied(guest, ok))
  {
    var d := c.Copied(guest, ok);
    forall h | IsAwaiting(d.buffers, h) && !d.buffers[h].use.hasDetachedUse ensures h in d.guests && d.HasCurrent(d.guests[h]) {
      assert IsAwaiting(c.buffers, h) && c.HasCurrent(c.guests[h]);
    }
  }

  lemma UnchangedAttributed(c: Scene, s: u32)
    requires Attributed(c) && s in c.surfaces && c.surfaces[s].pendingAttachment.Unchanged?
    ensures Attributed(c.(surfaces := c.surfaces[s := c.surfaces[s].Applied()]))
  {
    var d := c.(surfaces := c.surfaces[s := c.surfaces[s].Applied()]);
    forall h | IsAwaiting(d.buffers, h) && !d.buffers[h].use.hasDetachedUse ensures h in d.guests && d.HasCurrent(d.guests[h]) {
      var t :| t in c.surfaces && c.surfaces[t].CurrentBuffer() == Some(c.guests[h]);
      assert d.surfaces[t].CurrentBuffer() == Some(d.guests[h]);
    }
  }

  /** A use still undetached after a replacement is the new contents' or was open before. */
  lemma FinalizedUseIs(m: Entries, previous: Option<u32>, next: Option<u32>, host: u32)
    requires CanFinalize(m, previous, next)
    ensures var r := Finalized(m, previous, next);
            IsAwaiting(r, host) && !r[host].use.hasDetachedUse ==>
              next == Some(host) || (previous != Some(host) && IsAwaiting(m, host) && !m[host].use.hasDetachedUse)
  {
  }

  lemma ShownAttributed(c: Scene, s: u32)
    requires MapsOk(c) && Attributed(c) && s in c.surfaces && !c.surfaces[s].pendingAttachment.Unchanged?
    requires c.CanReplace(c.surfaces[s].CurrentBuffer(), c.surfaces[s].pendingAttachment.Buffer())
    ensures Attributed(Shown(c, s))
  {
    var d := Shown(c, s);
    var previous, next := c.HostOf(c.surfaces[s].CurrentBuffer()), c.HostOf(c.surfaces[s].pendingAttachment.Buffer());
    ShownIs(c, s);
    forall h | IsAwaiting(d.buffers, h) && !d.buffers[h].use.hasDetachedUse ensures h in d.guests && d.HasCurrent(d.guests[h]) {
      FinalizedUseIs(c.buffers, previous, next, h);
      if next == Some(h) {
        assert d.surfaces[s].CurrentBuffer() == Some(d.guests[h]);
      } else {
        var t :| t in c.surfaces && c.surfaces[t].CurrentBuffer() == Some(c.guests[h]);
        assert t != s;
        assert d.surfaces[t].CurrentBuffer() == Some(d.guests[h]);
      }
    }
  }

  lemma CommittedAttributed(c: Scene, s: u32, outcome: Outcome)
    requires MapsOk(c) && Attributed(c)
    ensures Attributed(c.Committed(s, outcome))
  {
    var p := Prepare(if s in c.surfaces then c.surfaces[s] else DEFAULT_SURFACE).attachment;
    var after := c.Committed(s, outcome);
    var ready := if p.Attach? then c.Copied(p.buffer, outcome.copied) else c;
    hide c.Committed, c.CommitFailure, c.Copied, Attributed, SameScene;
    if p.Attach? {
      CopiedAttributed(c, p.buffer, outcome.copied);
      CopiedIs(c, p.buffer, outcome.copied);
    }
    if c.CommitFailure(s, outcome).Some? {
      FailedCommitIs(c, s, outcome);
      SameAttributed(if SameScene(c, after) then c else ready, after);
    } else {
      CommittedIs(c, s, outcome);
      if s !in c.surfaces {
        SameAttributed(c, after);
      } else if p.Unchanged? {
        UnchangedAttributed(c, s);
        SameAttributed(c.(surfaces := c.surfaces[s := c.surfaces[s].Applied()]), after);
      } else {
        ShownAttributed(ready, s);
        SameAttributed(Shown(ready, s), after);
      }
    }
  }

  lemma CopiedIs(c: Scene, guest: u32, ok: bool)
    requires MapsOk(c)
    ensures MapsOk(c.Copied(guest, ok)) && c.Copied(guest, ok).surfaces == c.surfaces
  {
  }

  lemma CommitSettles(c: Scene, v: Screen, s: u32, outcome: Outcome, order: seq<u32>)
    requires Inv(c, v) && Settled(c) && Attributed(c) && Lists(c.Committed(s, outcome), order)
    ensures var d := c.OnCommit(s, outcome, order); Settled(d) && Attributed(d)
  {
    CommittedAttributed(c, s, outcome);
    var d := c.Committed(s, outcome);
    if c.CommitFailure(s, outcome) == Some(BadViewport) {
      SameSettled(c, d);
    } else {
      hide c.Committed, c.CommitFailure, Inv, Attributed, Settled, Lists;
      if c.CommitFailure(s, outcome).Some? {
        FailedCommitKeeps(c, v, s, outcome);
        RetiringSettles(d, v, order);
      } else {
        SucceededCommitKeeps(c, v, s, outcome);
        RetiringSettles(d, v.Hears(CommitSurface(s)), order);
      }
    }
  }

  lemma RetiringSettles(c: Scene, v: Screen, order: seq<u32>)
    requires Inv(c, v) && Attributed(c) && Lists(c, order)
    ensures Settled(c.RetireAll(order)) && Attributed(c.RetireAll(order))
  {
    RetireAllSettles(c, v, order);
    RetireAllKeepsAttributed(c, v, order);
  }

  // ---- steps and runs ----

  lemma StepSettles(c: Scene, v: Screen, e: Event)
    requires Inv(c, v) && Settled(c) && Attributed(c) && Enabled(c, e)
    ensures Settled(Handle(c, e)) && Attributed(Handle(c, e))
  {
    match e
    case New(guest, host, backing) => NewSettles(c, guest, host, backing);
    case AttachTo(s, buffer, legacy, x, y, order) =>
      hide Settled, Attributed, Lists, Inv;
      if c.AcceptsAttach(buffer, legacy, x, y) {
        AttachedKeeps(c, v, s, buffer, legacy, x, y);
        AttachedAttributed(c, s, buffer, legacy, x, y);
        RetiringSettles(c.Attached(s, buffer, legacy, x, y), v.Hears(AttachBuffer(s, c.HostOf(buffer))), order);
      } else {
        SameSettled(c, c.Reject());
        SameAttributed(c, c.Reject());
      }
    case CommitOf(s, outcome, order) => CommitSettles(c, v, s, outcome, order);
    case SurfaceGone(s, order) =>
      hide Settled, Attributed, Lists, Inv;
      SurfaceDestroyedKeeps(c, v, s);
      assert MapsOk(c) by { InvHasMaps(c, v); }
      SurfaceDestroyedAttributed(c, s);
      RetiringSettles(c.SurfaceDestroyed(s), v.Hears(DestroySurface(s)), order);
    case BufferGone(guest) => BufferGoneSettles(c, v, guest);
    case Release(host) => ReleaseSettles(c, v, host);
    case Deleted(host) => DeletedSettles(c, host);
  }

  lemma InvHasMaps(c: Scene, v: Screen)
    requires Inv(c, v)
    ensures MapsOk(c)
  {
  }

  lemma BufferGoneSettles(c: Scene, v: Screen, guest: u32)
    requires Inv(c, v) && Settled(c) && Attributed(c) && c.IsLiveBuffer(guest)
    ensures Settled(c.OnDestroyBuffer(guest)) && Attributed(c.OnDestroyBuffer(guest))
  {
    if c.Defers(guest) {
      DeferredSettles(c, guest);
    } else {
      GoneSettles(c, guest);
    }
  }

  /** Over every run, no destroyed buffer is left idle, and no use is left to no surface. */
  lemma {:induction false} RunSettles(c: Scene, v: Screen, es: seq<Event>)
    requires Inv(c, v) && Settled(c) && Attributed(c) && Legal(c, es)
    ensures Settled(Run(c, v, es).0) && Attributed(Run(c, v, es).0)
    decreases |es|
  {
    hide Inv, Handle, Watches, Settled, Attributed;
    if es != [] {
      StepIsSafe(c, v, es[0]);
      StepSettles(c, v, es[0]);
      RunSettles(Handle(c, es[0]), Watches(c, v, es[0]), es[1..]);
    }
  }

  // ---- what keeps a destroyed buffer ----

  /** A destroyed buffer that is still registered awaits its release, or is about to be
      shown, or has never been shown while a surface still records its number. */
  lemma SettledMeans(c: Scene, host: u32)
    requires MapsOk(c) && Settled(c) && host in c.buffers && c.buffers[host].GuestDestroyed?
    ensures IsAwaiting(c.buffers, host) || c.HasPending(c.guests[host])
            || (c.buffers[host].use.NeverSubmitted? && c.HasCurrent(c.guests[host]))
  {
    assert !c.IsCandidate(host);
  }

  ghost predicate Needed(c: Scene, t: Shows, host: u32)
    requires IsActive(c.buffers, host)
  {
    && host in c.guests
    && (|| IsAwaiting(c.buffers, host)
        || c.HasPending(c.guests[host])
        || (c.buffers[host].use.NeverSubmitted? && NamedByOldContents(c, t, c.guests[host])))
  }

  /** A surface whose contents have been destroyed still records the number. */
  ghost predicate NamedByOldContents(c: Scene, t: Shows, guest: u32) {
    exists s | s in c.surfaces && s in t :: c.surfaces[s].CurrentBuffer() == Some(guest) && t[s] == None
  }

  /** In every scene a connection can reach, what keeps a destroyed buffer is its release, an
      uncommitted attach, or the number of destroyed contents that it was given. */
  lemma DestroyedBufferIsNeeded(c: Scene, v: Screen, es: seq<Event>, host: u32)
    requires Inv(c, v) && Legal(c, es) && c.surfaces == map[] && c.buffers == map[]
    ensures var d, t := Run(c, v, es).0, AllNotes(c, v, map[], es);
            host in d.buffers && d.buffers[host].GuestDestroyed? ==> Needed(d, t, host)
  {
    var d, t := Run(c, v, es).0, AllNotes(c, v, map[], es);
    RunSettles(c, v, es);
    RunKeepsShows(c, v, map[], es);
    RunKeepsInv(c, v, es);
    hide Run, AllNotes, Legal, Settled;
    if host in d.buffers && d.buffers[host].GuestDestroyed? {
      SettledMeans(d, host);
      if !IsAwaiting(d.buffers, host) && !d.HasPending(d.guests[host]) {
        NeverShownIsStale(d, t, host);
      }
    }
  }

  lemma NeverShownIsStale(c: Scene, t: Shows, host: u32)
    requires MapsOk(c) && ShowsOk(c, t) && host in c.buffers && c.buffers[host].Active()
    requires c.buffers[host].use.NeverSubmitted? && c.HasCurrent(c.guests[host])
    ensures NamedByOldContents(c, t, c.guests[host])
  {
    var s :| s in c.surfaces && c.surfaces[s].CurrentBuffer() == Some(c.guests[host]);
    assert t[s].Some? ==> Live(c, s, t[s].value);
    assert t[s] == None;
  }

  /** The third case happens: a buffer that was never attached is kept for the sake of
      contents that are long gone. */
  lemma NeverAttachedIsKept() returns (d: Scene)
    ensures Reaches(NOTHING, NewThenReissue([BufferGone(5)] + []), d)
    ensures !d.fatal && Lookup(d.hosts, 5) == Some(51)
    ensures Lookup(d.buffers, 51) == Some(GuestDestroyed(Native(8, 8), NeverSubmitted))
    ensures !d.HasPending(5) && DestroyBuffer(51) !in d.toHost
  {
    var c := ReissuedScene(NeverSubmitted, NeverSubmitted, map[1 := WAITING], SENT);
    d := c.(buffers := c.buffers[51 := GuestDestroyed(Native(8, 8), NeverSubmitted)]);
    assert c.surfaces[1].CurrentBuffer() == Some(5);
    assert c.HasCurrent(5) && Handle(c, BufferGone(5)) == d;
    ReachesNow(d);
    ReachesAfter(c, BufferGone(5), [], d);
    ReissuedRun([BufferGone(5)] + [], d);
    hide Reaches, Enabled;
    forall s | s in d.surfaces ensures d.surfaces[s].pendingAttachment != Attach(5) {
      assert s == 1;
    }
  }

  // ---- single steps ----

  /** A release completes the destroy that waited for it: one destructor is sent, and no
      surface keeps the buffer as its contents. Any other release only ends the use. */
  lemma ReleaseCompletes(c: Scene, v: Screen, host: u32)
    requires Inv(c, v) && host in c.buffers
    ensures var d, guest := c.OnRelease(host), c.guests[host];
            if c.buffers[host].GuestDestroyed? && !c.HasPending(guest) then
              && d.toHost == c.toHost + [DestroyBuffer(host)] && d.fatal == c.fatal
              && !IsActive(d.buffers, host) && !d.HasCurrent(guest)
              && (forall h :: h != host ==> Lookup(d.buffers, h) == Lookup(c.buffers, h))
            else
              d == c.(buffers := ReleasedBy(c.buffers, host))
  {
    hide PendingOk, UsesOk;
    if c.buffers[host].GuestDestroyed? && !c.HasPending(c.guests[host]) {
      var recorded := c.(buffers := ReleasedBy(c.buffers, host));
      var guest := c.guests[host];
      ReleaseKeepsKeys(c.buffers, host);
      assert !recorded.HasPending(guest);
      DestroyedKeepsMaps(recorded, guest);
      ClearedCurrent(recorded.Destroyed(guest, host), guest, guest);
    }
  }

  /** A destroy is carried out at once exactly when nothing needs the buffer any more; one
      that is deferred sends nothing and leaves the buffer's use open. */
  lemma DestroyCompletesIff(c: Scene, v: Screen, guest: u32)
    requires Inv(c, v) && c.IsLiveBuffer(guest)
    ensures var d, host := c.OnDestroyBuffer(guest), c.hosts[guest];
            && d.fatal == c.fatal
            && (forall h :: h != host ==> Lookup(d.buffers, h) == Lookup(c.buffers, h))
            && if IsAwaiting(c.buffers, host) || c.HasPending(guest)
                  || (c.buffers[host].use.NeverSubmitted? && c.HasCurrent(guest)) then
                 && d == c.(buffers := d.buffers)
                 && Lookup(d.buffers, host) == Some(GuestDestroyed(c.buffers[host].backing, c.buffers[host].use))
               else
                 && d.toHost == c.toHost + [DestroyBuffer(host)]
                 && !IsActive(d.buffers, host) && !d.HasCurrent(guest)
  {
    hide PendingOk, UsesOk;
    if !c.Defers(guest) {
      DestroyedKeepsMaps(c, guest);
      ClearedCurrent(c.Destroyed(guest, c.hosts[guest]), guest, guest);
    }
  }
}

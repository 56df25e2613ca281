/**
 What a surface's recorded contents are worth: the buffer last committed to it, by the
 compositor's account, against the buffer number the proxy keeps for the replacement.
 */
module StaleContents {
  import opened Prelude
  import opened Surfaces
  import opened RenderBuffers
  import opened Scenes
  import opened UseIntervals

  /** For every surface with contents, the buffer last committed to it; `None` once that
      buffer has been destroyed. Computed from the messages alone. */
  type Shows = map<u32, Option<u32>>

  function Hear(t: Shows, v: Screen, r: Request): Shows {
    match r
    case CommitSurface(s) =>
      if s !in v.pending then t else if v.pending[s].Some? then t[s := Some(v.pending[s].value)] else t - {s}
    case DestroySurface(s) => t - {s}
    case DestroyBuffer(host) => map s | s in t :: if t[s] == Some(host) then None else t[s]
    case _ => t
  }

  function HearAll(t: Shows, v: Screen, rs: seq<Request>): Shows {
    if rs == [] then t
    else Hear(HearAll(t, v, rs[..|rs| - 1]), HearsAll(v, rs[..|rs| - 1]), rs[|rs| - 1])
  }

  /** Contents the proxy keeps are contents by the messages; while their buffer has not
      been destroyed it is known under the number kept, and has been submitted. */
  ghost predicate ShowsOk(c: Scene, t: Shows) {
    && (forall s :: s in c.surfaces && c.surfaces[s].CurrentBuffer().Some? ==> s in t)
    && (forall s :: s in t ==> s in c.surfaces && (t[s].Some? ==> Live(c, s, t[s].value)))
  }

  predicate Live(c: Scene, s: u32, host: u32)
    requires s in c.surfaces
  {
    host in c.guests && c.surfaces[s].CurrentBuffer() == Some(c.guests[host]) && CanDetach(c.buffers, host)
  }

  // ---- sequences ----

  lemma {:induction false} HearConcat(t: Shows, v: Screen, a: seq<Request>, b: seq<Request>)
    ensures HearAll(t, v, a + b) == HearAll(HearAll(t, v, a), HearsAll(v, a), b)
  {
    hide Hear;
    if b == [] {
      assert a + b == a;
    } else {
      var init := b[..|b| - 1];
      HearConcat(t, v, a, init);
      HearsConcat(v, a, init);
      assert (a + b)[..|a + b| - 1] == a + init;
      assert (a + b)[|a + b| - 1] == b[|b| - 1];
    }
  }

  lemma HearOne(t: Shows, v: Screen, r: Request)
    ensures HearAll(t, v, [r]) == Hear(t, v, r)
  {
    assert [r][..0] == [];
    assert HearsAll(v, []) == v;
    hide Hear;
  }

  lemma Continues(c: Scene, d: Scene, v: Screen, t: Shows, rs: seq<Request>)
    requires d.toHost == c.toHost + rs
    ensures Sent(c.toHost, d.toHost) == rs
    ensures rs == [] ==> HearAll(t, v, rs) == t
    ensures |rs| == 1 ==> HearAll(t, v, rs) == Hear(t, v, rs[0])
  {
    if |rs| == 1 {
      HearOne(t, v, rs[0]);
      assert rs == [rs[0]];
    }
    hide Hear;
  }

  // ---- buffers ----

  /** A use phase other than `NeverSubmitted` stays one. */
  ghost predicate KeepsSubmitted(m: Entries, r: Entries) {
    forall h :: CanDetach(m, h) ==> CanDetach(r, h)
  }

  lemma SubmittedStays(m: Entries, host: u32, previous: Option<u32>, next: Option<u32>)
    ensures KeepsSubmitted(m, GuestDestroyedBy(m, host))
    ensures KeepsSubmitted(m, ReleasedBy(m, host))
    ensures KeepsSubmitted(m, Finalized(m, previous, next))
    ensures CanFinalize(m, previous, next) && next.Some? ==> CanDetach(Finalized(m, previous, next), next.value)
  {
  }

  lemma BuffersKeepShows(c: Scene, t: Shows, buffers: Entries)
    requires ShowsOk(c, t) && KeepsSubmitted(c.buffers, buffers)
    ensures ShowsOk(c.(buffers := buffers), t)
  {
  }

  /** Only the numbers, buffers and surfaces matter. */
  lemma SameSceneShows(c: Scene, d: Scene, t: Shows)
    requires ShowsOk(c, t) && SameScene(c, d)
    ensures ShowsOk(d, t)
  {
  }

  // ---- handlers ----

  lemma NewKeepsShows(c: Scene, t: Shows, guest: u32, host: u32, backing: Backing)
    requires ShowsOk(c, t) && guest !in c.hosts && host !in c.guests
    ensures ShowsOk(c.NewBuffer(guest, host, backing), t)
  {
  }

  lemma DeletedKeepsShows(c: Scene, t: Shows, host: u32)
    requires ShowsOk(c, t) && host in c.buffers && c.buffers[host].HostDestroyQueued?
    ensures ShowsOk(c.OnDeleteBuffer(host), t)
  {
  }

  lemma AttachedKeepsShows(c: Scene, t: Shows, s: u32, buffer: Option<u32>, legacy: bool, x: i32, y: i32)
    requires ShowsOk(c, t)
    ensures ShowsOk(c.Attached(s, buffer, legacy, x, y), t)
  {
  }

  /** A destroyed buffer is nobody's live contents any more. */
  lemma DestroyedKeepsShows(c: Scene, v: Screen, t: Shows, guest: u32)
    requires MapsOk(c) && ShowsOk(c, t) && guest in c.hosts && IsActive(c.buffers, c.hosts[guest])
    ensures ShowsOk(c.Destroyed(guest, c.hosts[guest]), Hear(t, v, DestroyBuffer(c.hosts[guest])))
  {
  }

  lemma ClearedKeepsShows(c: Scene, t: Shows, guest: u32)
    requires ShowsOk(c, t) && forall s :: s in t && t[s].Some? ==> Lookup(c.guests, t[s].value) != Some(guest)
    ensures ShowsOk(c.ClearReferences(guest), t)
  {
  }

  lemma LastUseEnds(c: Scene, held: Option<u32>, host: u32)
    requires MapsOk(c) && host in c.guests && CanDetach(c.buffers, host)
    requires held == Some(c.guests[host]) ==> c.HasCurrent(c.guests[host])
    ensures CanDetach(c.UseEnded(held).buffers, host)
    ensures c.UseEnded(held).guests == c.guests && c.UseEnded(held).surfaces == c.surfaces
  {
  }

  /** The last use of a buffer ends only when no other surface shows it. */
  lemma SurfaceDestroyedKeepsShows(c: Scene, v: Screen, t: Shows, s: u32)
    requires MapsOk(c) && ShowsOk(c, t)
    ensures ShowsOk(c.SurfaceDestroyed(s), Hear(t, v, DestroySurface(s)))
  {
    var gone := c.(surfaces := c.surfaces - {s}, toHost := c.toHost + [DestroySurface(s)]);
    var held := if s in c.surfaces then c.surfaces[s].CurrentBuffer() else None;
    assert c.SurfaceDestroyed(s) == gone.UseEnded(held);
    forall other | other in t - {s} && t[other].Some? ensures Live(gone.UseEnded(held), other, t[other].value) {
      assert other in gone.surfaces && gone.surfaces[other].CurrentBuffer() == Some(c.guests[t[other].value]);
      LastUseEnds(gone, held, t[other].value);
    }
    UseEndedKeepsRest(gone, held);
    hide gone.UseEnded;
  }

  /** A replacement makes the new buffer the surface's contents. */
  lemma ShownKeepsShows(c: Scene, v: Screen, t: Shows, s: u32)
    requires MapsOk(c) && PendingOk(c, v) && ShowsOk(c, t)
    requires s in c.surfaces && !c.surfaces[s].pendingAttachment.Unchanged?
    requires c.CanReplace(c.surfaces[s].CurrentBuffer(), c.surfaces[s].pendingAttachment.Buffer())
    ensures ShowsOk(Shown(c, s), Hear(t, v, CommitSurface(s)))
  {
    var d := Shown(c, s);
    var previous, next := c.HostOf(c.surfaces[s].CurrentBuffer()), c.HostOf(c.surfaces[s].pendingAttachment.Buffer());
    ShownIs(c, s);
    SubmittedStays(c.buffers, 0, previous, next);
    hide Shown, Finalized;
  }

  lemma UnchangedKeepsShows(c: Scene, v: Screen, t: Shows, s: u32)
    requires PendingOk(c, v) && ShowsOk(c, t) && s in c.surfaces && c.surfaces[s].pendingAttachment.Unchanged?
    ensures ShowsOk(c.(surfaces := c.surfaces[s := c.surfaces[s].Applied()]), Hear(t, v, CommitSurface(s)))
  {
  }

  lemma CopiedKeepsShows(c: Scene, t: Shows, guest: u32, ok: bool)
    requires ShowsOk(c, t)
    ensures ShowsOk(c.Copied(guest, ok), t)
  {
  }

  lemma FailedCommitKeepsShows(c: Scene, t: Shows, s: u32, outcome: Outcome)
    requires ShowsOk(c, t) && c.CommitFailure(s, outcome).Some?
    ensures ShowsOk(c.Committed(s, outcome), t)
  {
    hide c.Committed, c.CommitFailure, ShowsOk, c.Copied;
    var p := Prepare(if s in c.surfaces then c.surfaces[s] else DEFAULT_SURFACE);
    FailedCommitIs(c, s, outcome);
    if SameScene(c, c.Committed(s, outcome)) {
      SameSceneShows(c, c.Committed(s, outcome), t);
    } else {
      CopiedKeepsShows(c, t, p.attachment.buffer, outcome.copied);
      SameSceneShows(c.Copied(p.attachment.buffer, outcome.copied), c.Committed(s, outcome), t);
    }
  }

  lemma CommittedIs(c: Scene, s: u32, outcome: Outcome)
    requires c.CommitFailure(s, outcome).None?
    ensures var after := c.Committed(s, outcome);
            if s !in c.surfaces then SameScene(c, after)
            else
              var p := c.surfaces[s].pendingAttachment;
              var ready := if p.Attach? then c.Copied(p.buffer, outcome.copied) else c;
              if p.Unchanged? then SameScene(c.(surfaces := c.surfaces[s := c.surfaces[s].Applied()]), after)
              else
                && ready.surfaces == c.surfaces
                && ready.CanReplace(c.surfaces[s].CurrentBuffer(), p.Buffer())
                && SameScene(Shown(ready, s), after)
  {
    if s in c.surfaces {
      var p := c.surfaces[s].pendingAttachment;
      if p.Attach? {
        CopyKeepsGuards(c, p.buffer, outcome.copied, c.surfaces[s].CurrentBuffer(), p.Buffer());
      }
      hide c.Copied, c.CopyReady, c.SyncReady, c.CanReplace;
    }
  }

  lemma SucceededCommitKeepsShows(c: Scene, v: Screen, t: Shows, s: u32, outcome: Outcome)
    requires Inv(c, v) && ShowsOk(c, t) && c.CommitFailure(s, outcome).None?
    ensures ShowsOk(c.Committed(s, outcome), Hear(t, v, CommitSurface(s)))
  {
    var after := c.Committed(s, outcome);
    CommittedIs(c, s, outcome);
    hide ShowsOk, c.Committed, c.CommitFailure, c.Copied;
    if s !in c.surfaces {
      assert Hear(t, v, CommitSurface(s)) == t;
      SameSceneShows(c, after, t);
    } else if c.surfaces[s].pendingAttachment.Unchanged? {
      UnchangedKeepsShows(c, v, t, s);
      SameSceneShows(c.(surfaces := c.surfaces[s := c.surfaces[s].Applied()]), after, Hear(t, v, CommitSurface(s)));
    } else {
      var p := c.surfaces[s].pendingAttachment;
      var ready := if p.Attach? then c.Copied(p.buffer, outcome.copied) else c;
      if p.Attach? {
        CopiedKeeps(c, v, p.buffer, outcome.copied);
        CopiedKeepsShows(c, t, p.buffer, outcome.copied);
      }
      ShownKeepsShows(ready, v, t, s);
      SameSceneShows(Shown(ready, s), after, Hear(t, v, CommitSurface(s)));
    }
  }

  lemma {:induction false} DamageShowsNothing(t: Shows, v: Screen, s: u32, damage: seq<Rect>)
    ensures HearAll(t, v, DamageBatch(s, damage)) == Hear(t, v, CommitSurface(s))
  {
    var batch := DamageBatch(s, damage);
    DamageIsSilent(v, s, damage);
    DamageIsUnheard(t, v, batch[..|damage|]);
    assert batch[..|batch| - 1] == batch[..|damage|];
  }

  lemma {:induction false} DamageIsUnheard(t: Shows, v: Screen, rs: seq<Request>)
    requires forall r :: r in rs ==> r.Damage?
    ensures HearAll(t, v, rs) == t
  {
    if rs != [] {
      DamageIsUnheard(t, v, rs[..|rs| - 1]);
    }
  }

  lemma {:induction false} RetireAllKeepsShows(c: Scene, v: Screen, t: Shows, order: seq<u32>)
    requires Inv(c, v) && ShowsOk(c, t)
    requires forall h :: h in order ==> c.IsCandidate(h)
    requires forall i, j | 0 <= i < j < |order| :: order[i] != order[j]
    ensures var d := c.RetireAll(order); ShowsOk(d, HearAll(t, v, Sent(c.toHost, d.toHost)))
  {
    RetireAllSends(c, order);
    if order == [] {
      assert Sent(c.toHost, c.toHost) == [];
    } else {
      var init, last := order[..|order| - 1], order[|order| - 1];
      RetireAllKeepsShows(c, v, t, init);
      RetireAllSends(c, init);
      var w := RetireAllKeeps(c, v, init);
      var d := c.RetireAll(init);
      var rs := Sent(c.toHost, d.toHost);
      assert d.IsCandidate(last);
      DestroyedKeepsMaps(d, d.guests[last]);
      DestroyedKeepsShows(d, HearsAll(v, rs), HearAll(t, v, rs), d.guests[last]);
      SentInTwo(c, d, d.RetireOne(last));
      Continues(d, d.RetireOne(last), HearsAll(v, rs), HearAll(t, v, rs), [DestroyBuffer(last)]);
      HearConcat(t, v, rs, [DestroyBuffer(last)]);
      hide ShowsOk, Inv, HearAll, HearsAll, Sent;
    }
  }

  lemma DestroyedAndClearedShows(c: Scene, v: Screen, t: Shows, guest: u32)
    requires MapsOk(c) && ShowsOk(c, t) && guest in c.hosts && IsActive(c.buffers, c.hosts[guest])
    ensures var after := c.Destroyed(guest, c.hosts[guest]).ClearReferences(guest);
            && after.toHost == c.toHost + [DestroyBuffer(c.hosts[guest])]
            && ShowsOk(after, Hear(t, v, DestroyBuffer(c.hosts[guest])))
  {
    var host := c.hosts[guest];
    var d, u := c.Destroyed(guest, host), Hear(t, v, DestroyBuffer(host));
    DestroyedKeepsMaps(c, guest);
    DestroyedKeepsShows(c, v, t, guest);
    assert forall s :: s in u && u[s].Some? ==> u[s].value != host && u[s].value in d.guests && d.guests[u[s].value] != guest;
    ClearedKeepsShows(d, u, guest);
  }

  // ---- steps and runs ----

  /** What the messages of a step make of the account. */
  function Notes(c: Scene, v: Screen, t: Shows, e: Event): Shows
    requires e.BufferGone? ==> e.guest in c.hosts
  {
    HearAll(t, Emits(v, e), Sent(c.toHost, Handle(c, e).toHost))
  }

  /** Some messages, then the retirement of the buffers they left idle. */
  lemma RetiredAfterShows(c: Scene, v: Screen, t: Shows, d: Scene, u: Screen, rs: seq<Request>, order: seq<u32>)
    requires d.toHost == c.toHost + rs && u == HearsAll(v, rs) && Inv(d, u) && ShowsOk(d, HearAll(t, v, rs)) && Lists(d, order)
    ensures var e := d.RetireAll(order); ShowsOk(e, HearAll(t, v, Sent(c.toHost, e.toHost)))
  {
    RetireAllKeepsShows(d, u, HearAll(t, v, rs), order);
    RetireAllSends(d, order);
    SentInTwo(c, d, d.RetireAll(order));
    Continues(c, d, v, t, rs);
    HearConcat(t, v, rs, Sent(d.toHost, d.RetireAll(order).toHost));
    hide ShowsOk, Inv, HearAll, HearsAll, Sent;
  }

  lemma BatchIsHeard(v: Screen, s: u32, damage: seq<Rect>)
    ensures HearsAll(v, DamageBatch(s, damage)) == v.Hears(CommitSurface(s))
  {
    var batch := DamageBatch(s, damage);
    DamageIsSilent(v, s, damage);
    assert batch[..|batch| - 1] == batch[..|damage|];
    hide v.Hears;
  }

  lemma CommitKeepsShows(c: Scene, v: Screen, t: Shows, s: u32, outcome: Outcome, order: seq<u32>)
    requires Inv(c, v) && ShowsOk(c, t) && Lists(c.Committed(s, outcome), order)
    ensures var e := c.OnCommit(s, outcome, order); ShowsOk(e, HearAll(t, v, Sent(c.toHost, e.toHost)))
  {
    var d := c.Committed(s, outcome);
    var rs := if c.CommitFailure(s, outcome).Some? then [] else DamageBatch(s, outcome.damage.value);
    if c.CommitFailure(s, outcome).Some? {
      FailedCommitKeeps(c, v, s, outcome);
      FailedCommitKeepsShows(c, t, s, outcome);
      FailedCommitIs(c, s, outcome);
      assert d.toHost == c.toHost + rs;
    } else {
      SucceededCommitKeeps(c, v, s, outcome);
      SucceededCommitKeepsShows(c, v, t, s, outcome);
      DamageShowsNothing(t, v, s, outcome.damage.value);
      BatchIsHeard(v, s, outcome.damage.value);
      CommitAppends(c, s, outcome);
    }
    hide ShowsOk, Inv, Moves, Hear, v.Hears, c.Committed;
    assert c.CommitFailure(s, outcome).Some? ==> HearsAll(v, rs) == v;
    Continues(c, d, v, t, rs);
    if c.CommitFailure(s, outcome) != Some(BadViewport) {
      RetiredAfterShows(c, v, t, d, HearsAll(v, rs), rs, order);
    }
  }

  lemma BufferGoneKeepsShows(c: Scene, v: Screen, t: Shows, guest: u32)
    requires Inv(c, v) && ShowsOk(c, t) && c.IsLiveBuffer(guest)
    ensures var e := c.OnDestroyBuffer(guest); ShowsOk(e, HearAll(t, v, Sent(c.toHost, e.toHost)))
  {
    var e := c.OnDestroyBuffer(guest);
    if c.Defers(guest) {
      var d := c.(buffers := GuestDestroyedBy(c.buffers, c.hosts[guest]));
      SubmittedStays(c.buffers, c.hosts[guest], None, None);
      BuffersKeepShows(c, t, d.buffers);
      SameSceneShows(d, e, t);
      assert e.toHost == c.toHost + [];
      Continues(c, e, v, t, []);
    } else {
      DestroyedAndClearedShows(c, v, t, guest);
      Continues(c, e, v, t, [DestroyBuffer(c.hosts[guest])]);
    }
    hide ShowsOk, HearAll;
  }

  lemma ReleaseKeepsShows(c: Scene, v: Screen, t: Shows, host: u32)
    requires Inv(c, v) && ShowsOk(c, t)
    ensures var e := c.OnRelease(host); ShowsOk(e, HearAll(t, v.Releases(host), Sent(c.toHost, e.toHost)))
  {
    var e, u := c.OnRelease(host), v.Releases(host);
    var recorded := c.(buffers := ReleasedBy(c.buffers, host));
    SubmittedStays(c.buffers, host, None, None);
    BuffersKeepShows(c, t, recorded.buffers);
    if host !in c.guests || e == recorded {
      assert e.toHost == c.toHost + [];
      Continues(c, e, u, t, []);
    } else {
      ReleasedKeeps(c, v, host);
      DestroyedAndClearedShows(recorded, u, t, c.guests[host]);
      Continues(c, e, u, t, [DestroyBuffer(host)]);
    }
    hide ShowsOk, HearAll;
  }

  /** Every handler keeps the proxy's record of contents and the account in agreement. */
  lemma StepKeepsShows(c: Scene, v: Screen, t: Shows, e: Event)
    requires Inv(c, v) && Enabled(c, e) && ShowsOk(c, t)
    ensures ShowsOk(Handle(c, e), Notes(c, v, t, e))
  {
    hide Inv, ShowsOk, HearAll, HearsAll, Lists, c.OnAttach, c.OnCommit, c.OnDestroySurface, c.OnDestroyBuffer, c.OnRelease;
    var d := Handle(c, e);
    match e
    case New(guest, host, backing) =>
      NewKeepsShows(c, t, guest, host, backing);
      Continues(c, d, v, t, []);
    case AttachTo(s, buffer, legacy, x, y, order) => AttachKeepsShows(c, v, t, s, buffer, legacy, x, y, order);
    case CommitOf(s, outcome, order) => CommitKeepsShows(c, v, t, s, outcome, order);
    case SurfaceGone(s, order) => SurfaceGoneKeepsShows(c, v, t, s, order);
    case BufferGone(guest) => BufferGoneKeepsShows(c, v, t, guest);
    case Release(host) => ReleaseKeepsShows(c, v, t, host);
    case Deleted(host) =>
      DeletedKeepsShows(c, t, host);
      Continues(c, d, v, t, []);
  }

  lemma AttachKeepsShows(c: Scene, v: Screen, t: Shows, s: u32, buffer: Option<u32>, legacy: bool, x: i32, y: i32,
      order: seq<u32>)
    requires Inv(c, v) && ShowsOk(c, t)
    requires c.AcceptsAttach(buffer, legacy, x, y) ==> Lists(c.Attached(s, buffer, legacy, x, y), order)
    ensures var e := c.OnAttach(s, buffer, legacy, x, y, order); ShowsOk(e, HearAll(t, v, Sent(c.toHost, e.toHost)))
  {
    hide Inv, ShowsOk, HearAll, HearsAll, Lists;
    if c.AcceptsAttach(buffer, legacy, x, y) {
      var r := AttachBuffer(s, c.HostOf(buffer));
      AttachedKeeps(c, v, s, buffer, legacy, x, y);
      AttachedKeepsShows(c, t, s, buffer, legacy, x, y);
      EachSendsOne(c, s, buffer, legacy, x, y);
      HearsOne(v, r);
      HearOne(t, v, r);
      hide c.AcceptsAttach, c.Attached;
      RetiredAfterShows(c, v, t, c.Attached(s, buffer, legacy, x, y), v.Hears(r), [r], order);
    } else {
      SameSceneShows(c, c.Reject(), t);
      assert c.Reject().toHost == c.toHost + [];
      Continues(c, c.Reject(), v, t, []);
    }
  }

  lemma SurfaceGoneKeepsShows(c: Scene, v: Screen, t: Shows, s: u32, order: seq<u32>)
    requires Inv(c, v) && ShowsOk(c, t) && Lists(c.SurfaceDestroyed(s), order)
    ensures var e := c.OnDestroySurface(s, order); ShowsOk(e, HearAll(t, v, Sent(c.toHost, e.toHost)))
  {
    var r := DestroySurface(s);
    SurfaceDestroyedKeeps(c, v, s);
    SurfaceDestroyedKeepsShows(c, v, t, s);
    EachSendsOne(c, s, None, false, 0, 0);
    hide Inv, ShowsOk, HearAll, HearsAll, Lists, c.SurfaceDestroyed;
    HearsOne(v, r);
    HearOne(t, v, r);
    RetiredAfterShows(c, v, t, c.SurfaceDestroyed(s), v.Hears(r), [r], order);
  }

  ghost function AllNotes(c: Scene, v: Screen, t: Shows, es: seq<Event>): Shows
    requires Legal(c, es)
    decreases |es|
  {
    if es == [] then t else AllNotes(Handle(c, es[0]), Watches(c, v, es[0]), Notes(c, v, t, es[0]), es[1..])
  }

  lemma {:induction false} RunKeepsShows(c: Scene, v: Screen, t: Shows, es: seq<Event>)
    requires Inv(c, v) && ShowsOk(c, t) && Legal(c, es)
    ensures ShowsOk(Run(c, v, es).0, AllNotes(c, v, t, es))
    decreases |es|
  {
    hide Inv, ShowsOk, Handle, Watches, Notes;
    if es != [] {
      StepIsSafe(c, v, es[0]);
      StepKeepsShows(c, v, t, es[0]);
      RunKeepsShows(Handle(c, es[0]), Watches(c, v, es[0]), Notes(c, v, t, es[0]), es[1..]);
    }
  }

  // ---- when a replacement is refused ----

  lemma RefusedWhenStale(c: Scene, t: Shows, s: u32, next: Option<u32>)
    requires MapsOk(c) && ShowsOk(c, t) && s in c.surfaces && next != c.surfaces[s].CurrentBuffer()
    requires next.Some? ==> c.Resolve(next.value).Some? && IsActive(c.buffers, c.hosts[next.value])
    ensures !c.CanReplace(c.surfaces[s].CurrentBuffer(), next) <==> Stale(c, t, s)
  {
    GuardRefusesIff(c, c.surfaces[s].CurrentBuffer(), next);
    hide c.CanReplace;
  }

  /** The contents' buffer has been destroyed, the proxy still keeps its number, and that is
      not by now the number of another buffer that has been submitted. */
  ghost predicate Stale(c: Scene, t: Shows, s: u32)
    requires s in c.surfaces
  {
    var current := c.surfaces[s].CurrentBuffer();
    && s in t && t[s] == None && current.Some?
    && !(c.Resolve(current.value).Some? && CanDetach(c.buffers, c.hosts[current.value]))
  }

  /** In every scene a connection can reach, replacing a surface's contents by a buffer that
      exists, or by none, is refused exactly when the contents are stale. */
  lemma ReplacementRefusedIff(c: Scene, v: Screen, es: seq<Event>, s: u32, next: Option<u32>)
    requires Inv(c, v) && Legal(c, es) && c.surfaces == map[] && s in Run(c, v, es).0.surfaces
    requires next != Run(c, v, es).0.surfaces[s].CurrentBuffer()
    requires var d := Run(c, v, es).0; next.Some? ==> d.Resolve(next.value).Some? && IsActive(d.buffers, d.hosts[next.value])
    ensures var d := Run(c, v, es).0;
            !d.CanReplace(d.surfaces[s].CurrentBuffer(), next) <==> Stale(d, AllNotes(c, v, map[], es), s)
  {
    RunKeepsShows(c, v, map[], es);
    RunKeepsInv(c, v, es);
    hide AllNotes, Run, Legal, ShowsOk, Stale;
    RefusedWhenStale(Run(c, v, es).0, AllNotes(c, v, map[], es), s, next);
  }

  // ---- a stale number that names another buffer ----

  /** From `c`, the events `es` are legal and lead to `d`. */
  ghost predicate Reaches(c: Scene, es: seq<Event>, d: Scene) {
    Legal(c, es) && forall v :: Run(c, v, es).0 == d
  }

  lemma ReachesNow(c: Scene)
    ensures Reaches(c, [], c)
  {
  }

  lemma ReachesAfter(c: Scene, e: Event, rest: seq<Event>, d: Scene)
    requires Enabled(c, e) && Reaches(Handle(c, e), rest, d)
    ensures Reaches(c, [e] + rest, d)
  {
    assert ([e] + rest)[1..] == rest;
    forall v ensures Run(c, v, [e] + rest).0 == d {
      assert Run(Handle(c, e), Watches(c, v, e), rest).0 == d;
      assert Run(c, v, [e] + rest) == Run(Handle(c, e), Watches(c, v, e), rest);
    }
  }

  /** A buffer is shown, attached again, destroyed and released, and its number is given to
      a third one while the second waits to replace it; then something more happens. */
  function NewThenReissue(rest: seq<Event>): seq<Event> {
    [New(5, 50, Native(8, 8))] + ([New(6, 60, Native(8, 8))] + ShowThenReissue(rest))
  }

  function ShowThenReissue(rest: seq<Event>): seq<Event> {
    [AttachTo(1, Some(5), false, 0, 0, [])] + ([CommitOf(1, READY, [])] + DestroyThenReissue(rest))
  }

  function DestroyThenReissue(rest: seq<Event>): seq<Event> {
    [AttachTo(1, Some(5), false, 0, 0, [])] + ([BufferGone(5)] + ([Release(50)] + Reissue(rest)))
  }

  function Reissue(rest: seq<Event>): seq<Event> {
    [AttachTo(1, Some(6), false, 0, 0, [50])] + ([Deleted(50)] + ([New(5, 51, Native(8, 8))] + rest))
  }

  /** Another surface shows the third buffer, and only then is the first one replaced. */
  const SHOW_REISSUED: seq<Event> :=
    [AttachTo(2, Some(5), false, 0, 0, [])] + ([CommitOf(2, READY, [])] + ([CommitOf(1, READY, [])] + []))

  const WAITING: Surface := SHOWN.(pendingAttachment := Attach(6))

  const SECOND_SHOWN: Surface := DEFAULT_SURFACE.(content := Some(Content(Some(6), Some((8, 8)))))

  /** The scene once number 5 has been given to buffer 51. */
  function ReissuedScene(second: Use, third: Use, surfaces: map<u32, Surface>, toHost: seq<Request>): Scene {
    Scene(map[6 := 60, 5 := 51], map[60 := 6, 51 := 5],
          map[60 := GuestAlive(Native(8, 8), second), 51 := GuestAlive(Native(8, 8), third)], surfaces, toHost, false)
  }

  const SECOND_ONLY: Scene :=
    Scene(map[6 := 60], map[60 := 6], map[60 := GuestAlive(Native(8, 8), NeverSubmitted)], map[1 := WAITING], [], false)

  lemma FirstDeleted(toHost: seq<Request>)
    ensures var c := SceneWith(HostDestroyQueued, WAITING, toHost, false);
            Enabled(c, Deleted(50)) && Handle(c, Deleted(50)) == SECOND_ONLY.(toHost := toHost)
  {
    assert map[5 := 50, 6 := 60] - {5} == map[6 := 60];
    assert map[50 := 5, 60 := 6] - {50} == map[60 := 6];
    assert map[50 := HostDestroyQueued, 60 := GuestAlive(Native(8, 8), NeverSubmitted)] - {50}
        == map[60 := GuestAlive(Native(8, 8), NeverSubmitted)];
  }

  lemma NumberReissued(toHost: seq<Request>)
    ensures var c := SECOND_ONLY.(toHost := toHost);
            && Enabled(c, New(5, 51, Native(8, 8)))
            && Handle(c, New(5, 51, Native(8, 8)))
                 == ReissuedScene(NeverSubmitted, NeverSubmitted, map[1 := WAITING], toHost)
  {
  }

  lemma AttachedReissued(toHost: seq<Request>)
    ensures var c := ReissuedScene(NeverSubmitted, NeverSubmitted, map[1 := WAITING], toHost);
            && Enabled(c, AttachTo(2, Some(5), false, 0, 0, []))
            && Handle(c, AttachTo(2, Some(5), false, 0, 0, []))
                 == ReissuedScene(NeverSubmitted, NeverSubmitted,
                                  map[1 := WAITING, 2 := DEFAULT_SURFACE.(pendingAttachment := Attach(5))],
                                  toHost + [AttachBuffer(2, Some(51))])
  {
    var c := ReissuedScene(NeverSubmitted, NeverSubmitted, map[1 := WAITING], toHost);
    NothingToRetire(c.Attached(2, Some(5), false, 0, 0));
  }

  lemma CommittedReissued(toHost: seq<Request>)
    ensures var c := ReissuedScene(NeverSubmitted, NeverSubmitted,
                                   map[1 := WAITING, 2 := DEFAULT_SURFACE.(pendingAttachment := Attach(5))], toHost);
            && Enabled(c, CommitOf(2, READY, []))
            && Handle(c, CommitOf(2, READY, []))
                 == ReissuedScene(NeverSubmitted, AwaitingRelease(false), map[1 := WAITING, 2 := SHOWN],
                                  toHost + [CommitSurface(2)])
  {
    var c := ReissuedScene(NeverSubmitted, NeverSubmitted,
                           map[1 := WAITING, 2 := DEFAULT_SURFACE.(pendingAttachment := Attach(5))], toHost);
    assert DamageBatch(2, []) == [CommitSurface(2)];
    assert c.CommitFailure(2, READY) == None;
    assert c.Committed(2, READY)
        == ReissuedScene(NeverSubmitted, AwaitingRelease(false), map[1 := WAITING, 2 := SHOWN], toHost + [CommitSurface(2)]);
    NothingToRetire(c.Committed(2, READY));
  }

  lemma ReplacedReissued(toHost: seq<Request>)
    ensures var c := ReissuedScene(NeverSubmitted, AwaitingRelease(false), map[1 := WAITING, 2 := SHOWN], toHost);
            && Enabled(c, CommitOf(1, READY, []))
            && Handle(c, CommitOf(1, READY, []))
                 == ReissuedScene(AwaitingRelease(false), AwaitingRelease(true), map[1 := SECOND_SHOWN, 2 := SHOWN],
                                  toHost + [CommitSurface(1)])
  {
    var c := ReissuedScene(NeverSubmitted, AwaitingRelease(false), map[1 := WAITING, 2 := SHOWN], toHost);
    ReplacedIs(toHost);
    NothingToRetire(c.Committed(1, READY));
  }

  lemma ReplacedIs(toHost: seq<Request>)
    ensures var c := ReissuedScene(NeverSubmitted, AwaitingRelease(false), map[1 := WAITING, 2 := SHOWN], toHost);
            && c.CommitFailure(1, READY) == None
            && c.Committed(1, READY)
                 == ReissuedScene(AwaitingRelease(false), AwaitingRelease(true), map[1 := SECOND_SHOWN, 2 := SHOWN],
                                  toHost + [CommitSurface(1)])
  {
    var c := ReissuedScene(NeverSubmitted, AwaitingRelease(false), map[1 := WAITING, 2 := SHOWN], toHost);
    assert DamageBatch(1, []) == [CommitSurface(1)];
    assert c.CommitFailure(1, READY) == None;
    BuffersReplaced(toHost);
    hide Finalized;
  }

  lemma BuffersReplaced(toHost: seq<Request>)
    ensures var c := ReissuedScene(NeverSubmitted, AwaitingRelease(false), map[1 := WAITING, 2 := SHOWN], toHost);
            Finalized(c.buffers, Some(51), Some(60))
            == ReissuedScene(AwaitingRelease(false), AwaitingRelease(true), map[], []).buffers
  {
  }

  /** Where the run ends: surface 2 shows buffer 51, whose use is marked as replaced. */
  function Misdirected(toHost: seq<Request>): Scene {
    ReissuedScene(AwaitingRelease(false), AwaitingRelease(true), map[1 := SECOND_SHOWN, 2 := SHOWN],
                  toHost + [AttachBuffer(2, Some(51))] + [CommitSurface(2)] + [CommitSurface(1)])
  }

  lemma ReissuedIsReplaced(toHost: seq<Request>)
    ensures Reaches(ReissuedScene(NeverSubmitted, NeverSubmitted, map[1 := WAITING], toHost), SHOW_REISSUED, Misdirected(toHost))
  {
    hide Enabled, Handle, Reaches, ReissuedScene;
    var attached := toHost + [AttachBuffer(2, Some(51))];
    var shown := attached + [CommitSurface(2)];
    AttachedReissued(toHost);
    CommittedReissued(attached);
    ReplacedReissued(shown);
    var b := ReissuedScene(NeverSubmitted, NeverSubmitted, map[1 := WAITING], toHost);
    var c := ReissuedScene(NeverSubmitted, AwaitingRelease(false), map[1 := WAITING, 2 := SHOWN], shown);
    var d := Misdirected(toHost);
    ReachesNow(d);
    ReachesAfter(c, CommitOf(1, READY, []), [], d);
    ReachesAfter(Handle(b, AttachTo(2, Some(5), false, 0, 0, [])), CommitOf(2, READY, []), [CommitOf(1, READY, [])] + [], d);
    ReachesAfter(b, AttachTo(2, Some(5), false, 0, 0, []), [CommitOf(2, READY, [])] + ([CommitOf(1, READY, [])] + []), d);
  }

  lemma RetiredThenReissued(toHost: seq<Request>, rest: seq<Event>, end: Scene)
    requires Reaches(ReissuedScene(NeverSubmitted, NeverSubmitted, map[1 := WAITING],
                                   toHost + [AttachBuffer(1, Some(60))] + [DestroyBuffer(50)]), rest, end)
    ensures Reaches(SceneWith(GuestDestroyed(Native(8, 8), Released), SHOWN.(pendingAttachment := Attach(5)), toHost, false),
                    Reissue(rest), end)
  {
    hide Enabled, Handle, Reaches, ReissuedScene;
    var sent := toHost + [AttachBuffer(1, Some(60))] + [DestroyBuffer(50)];
    ReplacedPending(toHost);
    FirstDeleted(sent);
    NumberReissued(sent);
    var c := SceneWith(GuestDestroyed(Native(8, 8), Released), SHOWN.(pendingAttachment := Attach(5)), toHost, false);
    var d := SceneWith(HostDestroyQueued, WAITING, sent, false);
    ReachesAfter(SECOND_ONLY.(toHost := sent), New(5, 51, Native(8, 8)), rest, end);
    ReachesAfter(d, Deleted(50), [New(5, 51, Native(8, 8))] + rest, end);
    ReachesAfter(c, AttachTo(1, Some(6), false, 0, 0, [50]), [Deleted(50)] + ([New(5, 51, Native(8, 8))] + rest), end);
  }

  lemma DestroyedThenReissued(toHost: seq<Request>, rest: seq<Event>, end: Scene)
    requires Reaches(ReissuedScene(NeverSubmitted, NeverSubmitted, map[1 := WAITING],
                                   toHost + [AttachBuffer(1, Some(50))] + [AttachBuffer(1, Some(60))] + [DestroyBuffer(50)]),
                     rest, end)
    ensures Reaches(SceneWith(GuestAlive(Native(8, 8), AwaitingRelease(false)), SHOWN, toHost, false),
                    DestroyThenReissue(rest), end)
  {
    hide Enabled, Handle, Reaches, ReissuedScene;
    var sent := toHost + [AttachBuffer(1, Some(50))];
    var surface := SHOWN.(pendingAttachment := Attach(5));
    var b := SceneWith(GuestAlive(Native(8, 8), AwaitingRelease(false)), SHOWN, toHost, false);
    var c := SceneWith(GuestAlive(Native(8, 8), AwaitingRelease(false)), surface, sent, false);
    var d := SceneWith(GuestDestroyed(Native(8, 8), AwaitingRelease(false)), surface, sent, false);
    assert 1 in b.surfaces;
    AttachedFirst(b, SHOWN, AwaitingRelease(false), toHost);
    DestroyedWhileShown(sent);
    ReleasedWhilePending(sent);
    RetiredThenReissued(sent, rest, end);
    ReachesAfter(d, Release(50), Reissue(rest), end);
    ReachesAfter(c, BufferGone(5), [Release(50)] + Reissue(rest), end);
    ReachesAfter(b, AttachTo(1, Some(5), false, 0, 0, []), [BufferGone(5)] + ([Release(50)] + Reissue(rest)), end);
  }

  const SENT: seq<Request> :=
    [] + [AttachBuffer(1, Some(50))] + [CommitSurface(1)] + [AttachBuffer(1, Some(50))] + [AttachBuffer(1, Some(60))]
    + [DestroyBuffer(50)]

  lemma ShownThenReissued(rest: seq<Event>, end: Scene)
    requires Reaches(ReissuedScene(NeverSubmitted, NeverSubmitted, map[1 := WAITING], SENT), rest, end)
    ensures Reaches(SceneWith(GuestAlive(Native(8, 8), NeverSubmitted), DEFAULT_SURFACE, [], false).(surfaces := map[]),
                    ShowThenReissue(rest), end)
  {
    hide Enabled, Handle, Reaches, ReissuedScene;
    var b := SceneWith(GuestAlive(Native(8, 8), NeverSubmitted), DEFAULT_SURFACE, [], false).(surfaces := map[]);
    var sent := [] + [AttachBuffer(1, Some(50))];
    var c := SceneWith(GuestAlive(Native(8, 8), NeverSubmitted), DEFAULT_SURFACE.(pendingAttachment := Attach(5)), sent, false);
    AttachedFirst(b, DEFAULT_SURFACE, NeverSubmitted, []);
    CommittedFirst(sent);
    DestroyedThenReissued(sent + [CommitSurface(1)], rest, end);
    ReachesAfter(c, CommitOf(1, READY, []), DestroyThenReissue(rest), end);
    ReachesAfter(b, AttachTo(1, Some(5), false, 0, 0, []), [CommitOf(1, READY, [])] + DestroyThenReissue(rest), end);
  }

  lemma ReissuedRun(rest: seq<Event>, end: Scene)
    requires Reaches(ReissuedScene(NeverSubmitted, NeverSubmitted, map[1 := WAITING], SENT), rest, end)
    ensures Reaches(NOTHING, NewThenReissue(rest), end)
  {
    Created();
    ShownThenReissued(rest, end);
    hide Enabled, Reaches, SceneWith;
    ReachesAfter(NOTHING.NewBuffer(5, 50, Native(8, 8)), New(6, 60, Native(8, 8)), ShowThenReissue(rest), end);
    ReachesAfter(NOTHING, New(5, 50, Native(8, 8)), [New(6, 60, Native(8, 8))] + ShowThenReissue(rest), end);
  }

  /** So the number alone does not tell: surface 1's contents have been destroyed, surface 2
      shows a new buffer under their number, and replacing surface 1's contents is accepted
      and marks surface 2's buffer as replaced. */
  lemma ReissuedNumberIsReplaced()
    ensures Reaches(NOTHING, NewThenReissue(SHOW_REISSUED), Misdirected(SENT))
    ensures var d := Misdirected(SENT);
            && !d.fatal && DestroyBuffer(50) in d.toHost
            && d.surfaces[1].CurrentBuffer() == Some(6)
            && d.surfaces[2].CurrentBuffer() == Some(5) && d.hosts[5] == 51
            && d.buffers[51].use == AwaitingRelease(true)
  {
    ReissuedIsReplaced(SENT);
    ReissuedRun(SHOW_REISSUED, Misdirected(SENT));
    hide Enabled, Reaches;
    assert SENT[4] == DestroyBuffer(50);
  }
}

/**
 Whole runs of surfaces and buffers against the compositor's own account of
 which buffers it may still read.
 */
module UseIntervals {
  import opened Prelude
  import opened Surfaces
  import opened RenderBuffers
  import opened Scenes

  /**
   The compositor's side, computed only from the requests it receives and the
   releases it sends.
   `pending`: what an uncommitted attach of a surface will show.
   `using`: the buffer each surface shows and the compositor has not released.
   `lingering`: buffers replaced on some surface before their release.
   */
  datatype Screen = Screen(pending: map<u32, Option<u32>>, using: map<u32, u32>, lingering: set<u32>)
  {
    function Hears(r: Request): Screen {
      match r
      case AttachBuffer(s, shown) => this.(pending := pending[s := shown])
      case Damage(_, _) => this
      case CommitSurface(s) =>
        if s !in pending then this
        else
          this.(pending := pending - {s},
                using := if pending[s].Some? then using[s := pending[s].value] else using - {s},
                lingering := if s in using && pending[s] != Some(using[s]) then lingering + {using[s]} else lingering)
      case DestroySurface(s) => this.(pending := pending - {s}, using := using - {s})
      case DestroyBuffer(host) =>
        this.(pending := map s | s in pending :: if pending[s] == Some(host) then None else pending[s])
    }

    function Releases(host: u32): Screen {
      this.(using := map s | s in using && using[s] != host :: using[s], lingering := lingering - {host})
    }

    /** The compositor may still read `host`. */
    predicate Uses(host: u32) {
      host in lingering || exists s | s in using :: using[s] == host
    }
  }

  function HearsAll(v: Screen, rs: seq<Request>): Screen {
    if rs == [] then v else HearsAll(v, rs[..|rs| - 1]).Hears(rs[|rs| - 1])
  }

  // ---- the invariant ----

  ghost predicate MapsOk(c: Scene) {
    && (forall g :: g in c.hosts ==> c.hosts[g] in c.guests && c.guests[c.hosts[g]] == g)
    && (forall h :: h in c.guests ==> c.guests[h] in c.hosts && c.hosts[c.guests[h]] == h)
    && (forall h :: h in c.buffers ==> h in c.guests)
  }

  /** Both sides agree on every surface's uncommitted attach, and it is of a buffer that still exists. */
  ghost predicate PendingOk(c: Scene, v: Screen) {
    && (forall s :: s in v.pending ==> s in c.surfaces)
    && (forall s :: s in c.surfaces ==>
          match c.surfaces[s].pendingAttachment
          case Unchanged => s !in v.pending
          case Detach => s in v.pending && v.pending[s] == None
          case Attach(g) => s in v.pending && g in c.hosts && v.pending[s] == Some(c.hosts[g]) && IsActive(c.buffers, c.hosts[g]))
  }

  /** A use the compositor has not ended is recorded, on its surface and on its buffer. */
  ghost predicate UsesOk(c: Scene, v: Screen) {
    && (forall s :: s in v.using ==>
          && s in c.surfaces && IsAwaiting(c.buffers, v.using[s]) && v.using[s] in c.guests
          && c.surfaces[s].CurrentBuffer() == Some(c.guests[v.using[s]]))
    && (forall h :: h in v.lingering ==> IsAwaiting(c.buffers, h) && c.buffers[h].use.hasDetachedUse)
  }

  ghost predicate Inv(c: Scene, v: Screen) {
    MapsOk(c) && PendingOk(c, v) && UsesOk(c, v)
  }

  // ---- events ----

  /** `order` lists the buffers found idle, in the order the registry yields them. */
  datatype Event =
    | New(guest: u32, host: u32, backing: Backing)
    | AttachTo(surface: u32, buffer: Option<u32>, legacy: bool, x: i32, y: i32, order: seq<u32>)
    | CommitOf(surface: u32, outcome: Outcome, order: seq<u32>)
    | SurfaceGone(surface: u32, order: seq<u32>)
    | BufferGone(guest: u32)
    | Release(host: u32)
    | Deleted(host: u32)

  ghost predicate Lists(c: Scene, order: seq<u32>) {
    && (forall h :: h in order <==> c.IsCandidate(h))
    && (forall i, j | 0 <= i < j < |order| :: order[i] != order[j])
  }

  ghost predicate Enabled(c: Scene, e: Event) {
    !c.fatal &&
    match e
    case New(guest, host, _) => guest !in c.hosts && host !in c.guests
    case AttachTo(s, buffer, legacy, x, y, order) =>
      c.AcceptsAttach(buffer, legacy, x, y) ==> Lists(c.Attached(s, buffer, legacy, x, y), order)
    case CommitOf(s, outcome, order) => Lists(c.Committed(s, outcome), order)
    case SurfaceGone(s, order) => Lists(c.SurfaceDestroyed(s), order)
    case BufferGone(guest) => c.IsLiveBuffer(guest)
    case Release(_) => true
    case Deleted(host) => host in c.buffers && c.buffers[host].HostDestroyQueued?
  }

  function Handle(c: Scene, e: Event): Scene
    requires e.BufferGone? ==> e.guest in c.hosts
  {
    match e
    case New(guest, host, backing) => c.NewBuffer(guest, host, backing)
    case AttachTo(s, buffer, legacy, x, y, order) => c.OnAttach(s, buffer, legacy, x, y, order)
    case CommitOf(s, outcome, order) => c.OnCommit(s, outcome, order)
    case SurfaceGone(s, order) => c.OnDestroySurface(s, order)
    case BufferGone(guest) => c.OnDestroyBuffer(guest)
    case Release(host) => c.OnRelease(host)
    case Deleted(host) => c.OnDeleteBuffer(host)
  }

  /** A release is sent before the proxy reacts to it. */
  function Emits(v: Screen, e: Event): Screen {
    if e.Release? then v.Releases(e.host) else v
  }

  /** Each destroyed buffer is one the compositor has stopped using and no surface is about to show. */
  ghost predicate Safe(v: Screen, rs: seq<Request>) {
    rs == [] || (
      var init, last := rs[..|rs| - 1], rs[|rs| - 1];
      Safe(v, init) && (last.DestroyBuffer? ==> Idle(HearsAll(v, init), last.buffer)))
  }

  ghost predicate Idle(v: Screen, host: u32) {
    !v.Uses(host) && forall s | s in v.pending :: v.pending[s] != Some(host)
  }

  // ---- message sequences ----

  lemma HearsOne(v: Screen, r: Request)
    ensures HearsAll(v, [r]) == v.Hears(r)
    ensures r.DestroyBuffer? && Idle(v, r.buffer) ==> Safe(v, [r])
    ensures !r.DestroyBuffer? ==> Safe(v, [r])
  {
    assert [r][..0] == [];
    assert HearsAll(v, [r]) == HearsAll(v, [r][..0]).Hears(r);
    assert Safe(v, [r][..0]);
  }

  lemma {:induction false} HearsConcat(v: Screen, a: seq<Request>, b: seq<Request>)
    ensures HearsAll(v, a + b) == HearsAll(HearsAll(v, a), b)
    ensures Safe(v, a) && Safe(HearsAll(v, a), b) ==> Safe(v, a + b)
  {
    if b == [] {
      assert a + b == a;
    } else {
      var init := b[..|b| - 1];
      HearsConcat(v, a, init);
      assert (a + b)[..|a + b| - 1] == a + init;
      assert (a + b)[|a + b| - 1] == b[|b| - 1];
    }
  }

  /** `Sent` messages and what they do, in one step of an argument. */
  ghost predicate Moves(c: Scene, v: Screen, after: Scene, w: Screen) {
    exists rs :: after.toHost == c.toHost + rs && w == HearsAll(v, rs) && Safe(v, rs)
  }

  lemma MovesNothing(c: Scene, v: Screen, after: Scene)
    requires after.toHost == c.toHost
    ensures Moves(c, v, after, v)
  {
    assert after.toHost == c.toHost + [];
    assert Safe(v, []);
    assert HearsAll(v, []) == v;
  }

  lemma MovesOne(c: Scene, v: Screen, after: Scene, r: Request)
    requires after.toHost == c.toHost + [r]
    requires r.DestroyBuffer? ==> Idle(v, r.buffer)
    ensures Moves(c, v, after, v.Hears(r))
  {
    HearsOne(v, r);
  }

  lemma MovesChain(c: Scene, v: Screen, d: Scene, w: Screen, e: Scene, x: Screen)
    requires Moves(c, v, d, w) && Moves(d, w, e, x)
    ensures Moves(c, v, e, x)
  {
    hide HearsAll, Safe;
    var a :| d.toHost == c.toHost + a && w == HearsAll(v, a) && Safe(v, a);
    var b :| e.toHost == d.toHost + b && x == HearsAll(w, b) && Safe(w, b);
    HearsConcat(v, a, b);
    assert e.toHost == c.toHost + (a + b);
  }

  // ---- retiring idle buffers ----

  lemma CandidateIsIdle(c: Scene, v: Screen, host: u32)
    requires Inv(c, v) && c.IsCandidate(host)
    ensures Idle(v, host)
  {
  }

  lemma DestroyedKeepsMaps(c: Scene, guest: u32)
    requires MapsOk(c) && guest in c.hosts && IsActive(c.buffers, c.hosts[guest])
    ensures MapsOk(c.Destroyed(guest, c.hosts[guest]))
    ensures c.Destroyed(guest, c.hosts[guest]).fatal == c.fatal
    ensures c.Destroyed(guest, c.hosts[guest]).surfaces == c.surfaces
    ensures c.Destroyed(guest, c.hosts[guest]).toHost == c.toHost + [DestroyBuffer(c.hosts[guest])]
  {
  }

  lemma DestroyedKeepsPending(c: Scene, v: Screen, guest: u32)
    requires MapsOk(c) && PendingOk(c, v) && guest in c.hosts
    requires Idle(v, c.hosts[guest]) && IsActive(c.buffers, c.hosts[guest])
    ensures PendingOk(c.Destroyed(guest, c.hosts[guest]), v.Hears(DestroyBuffer(c.hosts[guest])))
  {
    var host := c.hosts[guest];
    var after := c.Destroyed(guest, host);
    assert v.Hears(DestroyBuffer(host)).pending == v.pending;
    forall s | s in c.surfaces && c.surfaces[s].pendingAttachment.Attach?
      ensures var g := c.surfaces[s].pendingAttachment.buffer;
              g in after.hosts && v.pending[s] == Some(after.hosts[g]) && IsActive(after.buffers, after.hosts[g])
    {
      var g := c.surfaces[s].pendingAttachment.buffer;
      assert v.pending[s] == Some(c.hosts[g]) && c.hosts[g] != host;
    }
  }

  lemma DestroyedKeepsUses(c: Scene, v: Screen, guest: u32)
    requires MapsOk(c) && UsesOk(c, v) && guest in c.hosts
    requires Idle(v, c.hosts[guest]) && IsActive(c.buffers, c.hosts[guest])
    ensures UsesOk(c.Destroyed(guest, c.hosts[guest]), v.Hears(DestroyBuffer(c.hosts[guest])))
  {
    assert forall s :: s in v.using ==> v.using[s] != c.hosts[guest];
  }

  lemma DestroyedKeeps(c: Scene, v: Screen, guest: u32)
    requires Inv(c, v) && guest in c.hosts && Idle(v, c.hosts[guest]) && IsActive(c.buffers, c.hosts[guest])
    ensures Inv(c.Destroyed(guest, c.hosts[guest]), v.Hears(DestroyBuffer(c.hosts[guest])))
  {
    DestroyedKeepsMaps(c, guest);
    DestroyedKeepsPending(c, v, guest);
    DestroyedKeepsUses(c, v, guest);
  }

  lemma RetireOneKeepsCandidates(c: Scene, host: u32, other: u32)
    requires MapsOk(c) && c.IsCandidate(host) && c.IsCandidate(other) && host != other
    ensures c.RetireOne(host).IsCandidate(other)
  {
    var after := c.RetireOne(host);
    DestroyedKeepsMaps(c, c.guests[host]);
    assert after.surfaces == c.surfaces;
    assert c.guests[other] != c.guests[host];
  }

  lemma {:induction false} RetireAllKeeps(c: Scene, v: Screen, order: seq<u32>) returns (w: Screen)
    requires Inv(c, v)
    requires forall h :: h in order ==> c.IsCandidate(h)
    requires forall i, j | 0 <= i < j < |order| :: order[i] != order[j]
    ensures Inv(c.RetireAll(order), w) && Moves(c, v, c.RetireAll(order), w)
    ensures c.RetireAll(order).fatal == c.fatal
    ensures forall h :: c.IsCandidate(h) && h !in order ==> c.RetireAll(order).IsCandidate(h)
  {
    if order == [] {
      w := v;
      MovesNothing(c, v, c);
    } else {
      var init, last := order[..|order| - 1], order[|order| - 1];
      var u := RetireAllKeeps(c, v, init);
      var d := c.RetireAll(init);
      assert d.IsCandidate(last);
      CandidateIsIdle(d, u, last);
      DestroyedKeepsMaps(d, d.guests[last]);
      DestroyedKeeps(d, u, d.guests[last]);
      w := u.Hears(DestroyBuffer(last));
      MovesOne(d, u, d.RetireOne(last), DestroyBuffer(last));
      MovesChain(c, v, d, u, d.RetireOne(last), w);
      forall h | c.IsCandidate(h) && h !in order ensures d.RetireOne(last).IsCandidate(h) {
        assert d.IsCandidate(h);
        RetireOneKeepsCandidates(d, last, h);
      }
    }
  }

  // ---- handlers ----

  lemma NewKeeps(c: Scene, v: Screen, guest: u32, host: u32, backing: Backing)
    requires Inv(c, v) && guest !in c.hosts && host !in c.guests
    ensures Inv(c.NewBuffer(guest, host, backing), v)
  {
  }

  lemma AttachedKeeps(c: Scene, v: Screen, s: u32, buffer: Option<u32>, legacy: bool, x: i32, y: i32)
    requires Inv(c, v) && c.AcceptsAttach(buffer, legacy, x, y)
    ensures Inv(c.Attached(s, buffer, legacy, x, y), v.Hears(AttachBuffer(s, c.HostOf(buffer))))
  {
  }

  lemma SurfaceDestroyedKeepsPending(c: Scene, v: Screen, s: u32)
    requires MapsOk(c) && PendingOk(c, v)
    ensures MapsOk(c.SurfaceDestroyed(s)) && PendingOk(c.SurfaceDestroyed(s), v.Hears(DestroySurface(s)))
  {
  }

  lemma UseEndedSpares(c: Scene, held: Option<u32>, host: u32)
    requires MapsOk(c) && IsAwaiting(c.buffers, host)
    requires c.buffers[host].use.hasDetachedUse || held != Some(c.guests[host]) || c.HasCurrent(c.guests[host])
    ensures Lookup(c.UseEnded(held).buffers, host) == Some(c.buffers[host])
  {
  }

  lemma UseEndedKeepsRest(c: Scene, held: Option<u32>)
    ensures c.UseEnded(held).surfaces == c.surfaces && c.UseEnded(held).guests == c.guests
  {
  }

  /** Only the destroyed surface's own use ends; a lingering one, or one of another surface, stays recorded. */
  lemma SurfaceDestroyedKeepsUses(c: Scene, v: Screen, s: u32)
    requires MapsOk(c) && UsesOk(c, v)
    ensures UsesOk(c.SurfaceDestroyed(s), v.Hears(DestroySurface(s)))
  {
    var gone := c.(surfaces := c.surfaces - {s}, toHost := c.toHost + [DestroySurface(s)]);
    var held := if s in c.surfaces then c.surfaces[s].CurrentBuffer() else None;
    var after := gone.UseEnded(held);
    assert c.SurfaceDestroyed(s) == after;
    UseEndedKeepsRest(gone, held);
    hide gone.UseEnded;
    forall other | other in v.using && other != s
      ensures Lookup(after.buffers, v.using[other]) == Some(c.buffers[v.using[other]])
    {
      assert other in gone.surfaces && gone.surfaces[other].CurrentBuffer() == Some(c.guests[v.using[other]]);
      UseEndedSpares(gone, held, v.using[other]);
    }
    forall host | host in v.lingering ensures Lookup(after.buffers, host) == Some(c.buffers[host]) {
      UseEndedSpares(gone, held, host);
    }
  }

  lemma SurfaceDestroyedKeeps(c: Scene, v: Screen, s: u32)
    requires Inv(c, v)
    ensures Inv(c.SurfaceDestroyed(s), v.Hears(DestroySurface(s)))
  {
    SurfaceDestroyedKeepsPending(c, v, s);
    SurfaceDestroyedKeepsUses(c, v, s);
  }

  lemma GuestDestroyedKeeps(c: Scene, v: Screen, host: u32)
    requires Inv(c, v)
    ensures Inv(c.(buffers := GuestDestroyedBy(c.buffers, host)), v)
  {
  }

  lemma ClearedKeepsMaps(c: Scene, guest: u32)
    requires MapsOk(c)
    ensures MapsOk(c.ClearReferences(guest))
  {
  }

  lemma ClearedIs(c: Scene, guest: u32)
    requires !c.HasPending(guest)
    ensures var after := c.ClearReferences(guest);
            && after == c.(surfaces := after.surfaces) && after.surfaces.Keys == c.surfaces.Keys
            && forall s :: s in c.surfaces ==> after.surfaces[s].pendingAttachment == c.surfaces[s].pendingAttachment
  {
  }

  lemma ClearedKeepsPending(c: Scene, v: Screen, guest: u32)
    requires PendingOk(c, v) && !c.HasPending(guest)
    ensures PendingOk(c.ClearReferences(guest), v)
  {
    ClearedIs(c, guest);
    hide c.ClearReferences, c.HasPending;
  }

  lemma ClearedKeepsUses(c: Scene, v: Screen, guest: u32)
    requires UsesOk(c, v)
    requires forall s :: s in v.using ==> c.guests[v.using[s]] != guest
    ensures UsesOk(c.ClearReferences(guest), v)
  {
  }

  lemma ClearedKeeps(c: Scene, v: Screen, guest: u32)
    requires Inv(c, v) && !c.HasPending(guest)
    requires forall s :: s in v.using ==> c.guests[v.using[s]] != guest
    ensures Inv(c.ClearReferences(guest), v)
  {
    ClearedKeepsMaps(c, guest);
    ClearedKeepsPending(c, v, guest);
    ClearedKeepsUses(c, v, guest);
  }

  lemma ReleasedKeepsPending(c: Scene, v: Screen, host: u32)
    requires MapsOk(c) && PendingOk(c, v)
    ensures var d := c.(buffers := ReleasedBy(c.buffers, host)); MapsOk(d) && PendingOk(d, v.Releases(host))
  {
    assert forall h :: IsActive(ReleasedBy(c.buffers, host), h) <==> IsActive(c.buffers, h);
    hide ReleasedBy;
    assert ReleasedBy(c.buffers, host).Keys == c.buffers.Keys by {
      ReleaseKeepsKeys(c.buffers, host);
    }
  }

  lemma ReleaseKeepsKeys(m: Entries, host: u32)
    ensures ReleasedBy(m, host).Keys == m.Keys
    ensures forall h :: h in m && h != host ==> ReleasedBy(m, host)[h] == m[h]
  {
  }

  lemma ReleasedKeepsUses(c: Scene, v: Screen, host: u32)
    requires UsesOk(c, v)
    ensures UsesOk(c.(buffers := ReleasedBy(c.buffers, host)), v.Releases(host))
  {
    ReleaseKeepsKeys(c.buffers, host);
    hide ReleasedBy;
  }

  lemma ReleasedKeeps(c: Scene, v: Screen, host: u32)
    requires Inv(c, v)
    ensures Inv(c.(buffers := ReleasedBy(c.buffers, host)), v.Releases(host))
    ensures !v.Releases(host).Uses(host)
  {
    ReleasedKeepsPending(c, v, host);
    ReleasedKeepsUses(c, v, host);
    hide MapsOk, PendingOk, UsesOk;
  }

  lemma DeletedKeeps(c: Scene, v: Screen, host: u32)
    requires Inv(c, v) && host in c.buffers && c.buffers[host].HostDestroyQueued?
    ensures Inv(c.OnDeleteBuffer(host), v)
  {
  }

  lemma CopiedKeeps(c: Scene, v: Screen, guest: u32, ok: bool)
    requires Inv(c, v)
    ensures Inv(c.Copied(guest, ok), v)
  {
  }

  /** The scene a successful replacement leaves, before its messages are queued. */
  function Shown(c: Scene, s: u32): Scene
    requires s in c.surfaces
  {
    var t := Prepare(c.surfaces[s]);
    c.(surfaces := c.surfaces[s := t.state]).Replaced(s, t.previous.CurrentBuffer(), t.attachment.Buffer())
  }

  lemma ShownIs(c: Scene, s: u32)
    requires s in c.surfaces && !c.surfaces[s].pendingAttachment.Unchanged?
    ensures var d := Shown(c, s); var next := c.surfaces[s].pendingAttachment.Buffer();
            && d == c.(surfaces := d.surfaces, buffers := d.buffers)
            && d.buffers == Finalized(c.buffers, c.HostOf(c.surfaces[s].CurrentBuffer()), c.HostOf(next))
            && d.surfaces == c.surfaces[s := d.surfaces[s]]
            && d.surfaces[s].CurrentBuffer() == next && d.surfaces[s].pendingAttachment == Unchanged
  {
  }

  /** A replacement ends no use: the replaced one is only marked as detached. */
  lemma FinalizedKeepsUses(m: Entries, previous: Option<u32>, next: Option<u32>, host: u32)
    requires CanFinalize(m, previous, next)
    ensures var r := Finalized(m, previous, next);
            && (IsActive(r, host) <==> IsActive(m, host))
            && (IsAwaiting(m, host) ==> IsAwaiting(r, host))
            && (IsAwaiting(m, host) && (m[host].use.hasDetachedUse || (previous == Some(host) && next != Some(host)))
                ==> r[host].use.hasDetachedUse)
            && (next == Some(host) ==> IsAwaiting(r, host))
            && r.Keys == m.Keys
  {
  }

  lemma ShownKeepsPending(c: Scene, v: Screen, s: u32)
    requires MapsOk(c) && PendingOk(c, v) && s in c.surfaces && !c.surfaces[s].pendingAttachment.Unchanged?
    requires c.CanReplace(c.surfaces[s].CurrentBuffer(), c.surfaces[s].pendingAttachment.Buffer())
    ensures MapsOk(Shown(c, s)) && PendingOk(Shown(c, s), v.Hears(CommitSurface(s)))
  {
    var previous, next := c.HostOf(c.surfaces[s].CurrentBuffer()), c.HostOf(c.surfaces[s].pendingAttachment.Buffer());
    ShownIs(c, s);
    forall h ensures IsActive(Finalized(c.buffers, previous, next), h) <==> IsActive(c.buffers, h) {
      FinalizedKeepsUses(c.buffers, previous, next, h);
    }
    FinalizedKeepsUses(c.buffers, previous, next, 0);
    hide Shown, Finalized;
  }

  /** What the compositor uses after a commit: as before, but with this surface's buffer replaced. */
  lemma CommitHeard(c: Scene, v: Screen, s: u32)
    requires PendingOk(c, v) && UsesOk(c, v) && s in c.surfaces && !c.surfaces[s].pendingAttachment.Unchanged?
    requires c.CanReplace(c.surfaces[s].CurrentBuffer(), c.surfaces[s].pendingAttachment.Buffer()) && MapsOk(c)
    ensures var next := c.HostOf(c.surfaces[s].pendingAttachment.Buffer());
            var previous := c.HostOf(c.surfaces[s].CurrentBuffer());
            var w := v.Hears(CommitSurface(s));
            && w.using == (if next.Some? then v.using[s := next.value] else v.using - {s})
            && w.lingering <= v.lingering + (if s in v.using && next != Some(v.using[s]) then {v.using[s]} else {})
            && (s in v.using ==> previous == Some(v.using[s]))
            && (next.Some? ==> next.value in c.guests && c.surfaces[s].pendingAttachment.Buffer() == Some(c.guests[next.value]))
  {
  }

  lemma ShownKeepsUses(c: Scene, v: Screen, s: u32)
    requires MapsOk(c) && PendingOk(c, v) && UsesOk(c, v)
    requires s in c.surfaces && !c.surfaces[s].pendingAttachment.Unchanged?
    requires c.CanReplace(c.surfaces[s].CurrentBuffer(), c.surfaces[s].pendingAttachment.Buffer())
    ensures UsesOk(Shown(c, s), v.Hears(CommitSurface(s)))
  {
    var d, w := Shown(c, s), v.Hears(CommitSurface(s));
    var previous, next := c.HostOf(c.surfaces[s].CurrentBuffer()), c.HostOf(c.surfaces[s].pendingAttachment.Buffer());
    ShownIs(c, s);
    CommitHeard(c, v, s);
    assert CanFinalize(c.buffers, previous, next);
    hide Shown, Finalized, v.Hears, c.CanReplace, CanFinalize, MapsOk, PendingOk;
    forall other | other in w.using
      ensures other in d.surfaces && IsAwaiting(d.buffers, w.using[other]) && w.using[other] in d.guests
              && d.surfaces[other].CurrentBuffer() == Some(d.guests[w.using[other]])
    {
      FinalizedKeepsUses(c.buffers, previous, next, w.using[other]);
    }
    forall host | host in w.lingering ensures IsAwaiting(d.buffers, host) && d.buffers[host].use.hasDetachedUse {
      FinalizedKeepsUses(c.buffers, previous, next, host);
    }
  }

  lemma {:induction false} DamageIsSilent(v: Screen, s: u32, damage: seq<Rect>)
    ensures HearsAll(v, DamageBatch(s, damage)[..|damage|]) == v && Safe(v, DamageBatch(s, damage)[..|damage|])
  {
    var batch := DamageBatch(s, damage)[..|damage|];
    if damage != [] {
      var init := damage[..|damage| - 1];
      DamageIsSilent(v, s, init);
      assert batch[..|batch| - 1] == DamageBatch(s, init)[..|init|];
      assert batch[|batch| - 1] == Damage(s, damage[|damage| - 1]);
    }
  }

  lemma BatchMoves(c: Scene, v: Screen, after: Scene, s: u32, damage: seq<Rect>)
    requires after.toHost == c.toHost + DamageBatch(s, damage)
    ensures Moves(c, v, after, v.Hears(CommitSurface(s)))
  {
    var batch := DamageBatch(s, damage);
    DamageIsSilent(v, s, damage);
    HearsOne(v, CommitSurface(s));
    HearsConcat(v, batch[..|damage|], [CommitSurface(s)]);
    assert batch == batch[..|damage|] + [CommitSurface(s)];
  }

  /** Nothing but the message queue and the failure flag differs. */
  predicate SameScene(c: Scene, d: Scene) {
    c.hosts == d.hosts && c.guests == d.guests && c.buffers == d.buffers && c.surfaces == d.surfaces
  }

  lemma SameSceneKeeps(c: Scene, d: Scene, v: Screen)
    requires SameScene(c, d) && Inv(c, v)
    ensures Inv(d, v)
  {
  }

  lemma UnchangedKeeps(c: Scene, v: Screen, s: u32)
    requires Inv(c, v) && s in c.surfaces && c.surfaces[s].pendingAttachment.Unchanged?
    ensures Inv(c.(surfaces := c.surfaces[s := c.surfaces[s].Applied()]), v.Hears(CommitSurface(s)))
  {
  }

  lemma FailedCommitIs(c: Scene, s: u32, outcome: Outcome)
    requires c.CommitFailure(s, outcome).Some?
    ensures var t := Prepare(if s in c.surfaces then c.surfaces[s] else DEFAULT_SURFACE);
            var after := c.Committed(s, outcome);
            && after.toHost == c.toHost
            && (SameScene(c, after)
                || (t.attachment.Attach? && SameScene(c.Copied(t.attachment.buffer, outcome.copied), after)))
  {
    hide c.CopyReady, c.SyncReady, c.CanReplace, c.Copied;
    CopySendsNothing(c, s, outcome);
  }

  lemma CopySendsNothing(c: Scene, s: u32, outcome: Outcome)
    ensures var t := Prepare(if s in c.surfaces then c.surfaces[s] else DEFAULT_SURFACE);
            t.attachment.Attach? ==> c.Copied(t.attachment.buffer, outcome.copied).toHost == c.toHost
  {
  }

  lemma FailedCommitKeeps(c: Scene, v: Screen, s: u32, outcome: Outcome)
    requires Inv(c, v) && c.CommitFailure(s, outcome).Some?
    ensures Inv(c.Committed(s, outcome), v) && Moves(c, v, c.Committed(s, outcome), v)
  {
    hide c.Committed, c.CommitFailure, Inv, c.Copied;
    var t := Prepare(if s in c.surfaces then c.surfaces[s] else DEFAULT_SURFACE);
    var after := c.Committed(s, outcome);
    FailedCommitIs(c, s, outcome);
    if SameScene(c, after) {
      SameSceneKeeps(c, after, v);
    } else {
      CopiedKeeps(c, v, t.attachment.buffer, outcome.copied);
      SameSceneKeeps(c.Copied(t.attachment.buffer, outcome.copied), after, v);
    }
    MovesNothing(c, v, after);
  }

  lemma SucceededCommitKeeps(c: Scene, v: Screen, s: u32, outcome: Outcome)
    requires Inv(c, v) && c.CommitFailure(s, outcome).None?
    ensures Inv(c.Committed(s, outcome), v.Hears(CommitSurface(s)))
    ensures Moves(c, v, c.Committed(s, outcome), v.Hears(CommitSurface(s)))
  {
    var t := Prepare(if s in c.surfaces then c.surfaces[s] else DEFAULT_SURFACE);
    var after := c.Committed(s, outcome);
    var ready := if t.attachment.Attach? then c.Copied(t.attachment.buffer, outcome.copied) else c;
    if t.attachment.Attach? {
      CopiedKeeps(c, v, t.attachment.buffer, outcome.copied);
      CopyKeepsGuards(c, t.attachment.buffer, outcome.copied, t.previous.CurrentBuffer(), t.attachment.Buffer());
    }
    if s !in c.surfaces {
      assert SameScene(c, after) && v.Hears(CommitSurface(s)) == v;
      SameSceneKeeps(c, after, v);
    } else if t.attachment.Unchanged? {
      UnchangedKeeps(c, v, s);
      SameSceneKeeps(c.(surfaces := c.surfaces[s := t.state]), after, v.Hears(CommitSurface(s)));
    } else {
      ShownKeepsPending(ready, v, s);
      ShownKeepsUses(ready, v, s);
      SameSceneKeeps(Shown(ready, s), after, v.Hears(CommitSurface(s)));
    }
    BatchMoves(c, v, after, s, outcome.damage.value);
  }

  lemma NotAwaitingIsIdle(c: Scene, v: Screen, guest: u32)
    requires Inv(c, v) && guest in c.hosts && !c.HasPending(guest) && !IsAwaiting(c.buffers, c.hosts[guest])
    ensures Idle(v, c.hosts[guest])
  {
  }

  lemma DestroyedAndCleared(c: Scene, v: Screen, guest: u32)
    requires Inv(c, v) && guest in c.hosts && !c.HasPending(guest)
    requires IsActive(c.buffers, c.hosts[guest]) && !IsAwaiting(c.buffers, c.hosts[guest])
    ensures var host := c.hosts[guest];
            var after := c.Destroyed(guest, host).ClearReferences(guest);
            Inv(after, v.Hears(DestroyBuffer(host))) && Moves(c, v, after, v.Hears(DestroyBuffer(host)))
  {
    var host := c.hosts[guest];
    var d, w := c.Destroyed(guest, host), v.Hears(DestroyBuffer(host));
    NotAwaitingIsIdle(c, v, guest);
    DestroyedKeepsMaps(c, guest);
    DestroyedKeeps(c, v, guest);
    assert w.using == v.using;
    assert forall s :: s in w.using ==> d.guests[w.using[s]] != guest;
    ClearedKeeps(d, w, guest);
    MovesOne(c, v, d.ClearReferences(guest), DestroyBuffer(host));
  }

  lemma BufferGoneKeeps(c: Scene, v: Screen, guest: u32) returns (w: Screen)
    requires Inv(c, v) && c.IsLiveBuffer(guest)
    ensures Inv(c.OnDestroyBuffer(guest), w) && Moves(c, v, c.OnDestroyBuffer(guest), w)
  {
    if c.Defers(guest) {
      w := v;
      var d := c.(buffers := GuestDestroyedBy(c.buffers, c.hosts[guest]));
      GuestDestroyedKeeps(c, v, c.hosts[guest]);
      SameSceneKeeps(d, c.OnDestroyBuffer(guest), v);
      MovesNothing(c, v, c.OnDestroyBuffer(guest));
    } else {
      w := v.Hears(DestroyBuffer(c.hosts[guest]));
      DestroyedAndCleared(c, v, guest);
    }
  }

  lemma ReleaseKeeps(c: Scene, v: Screen, host: u32) returns (w: Screen)
    requires Inv(c, v)
    ensures Inv(c.OnRelease(host), w) && Moves(c, v.Releases(host), c.OnRelease(host), w)
  {
    var u := v.Releases(host);
    var recorded := c.(buffers := ReleasedBy(c.buffers, host));
    ReleasedKeeps(c, v, host);
    if host !in c.guests {
      assert ReleasedBy(c.buffers, host) == c.buffers;
      w := u;
      MovesNothing(c, u, c);
    } else if c.OnRelease(host) == recorded {
      w := u;
      MovesNothing(c, u, recorded);
    } else {
      w := u.Hears(DestroyBuffer(host));
      DestroyedAndCleared(recorded, u, c.guests[host]);
      var rs :| recorded.Destroyed(c.guests[host], host).ClearReferences(c.guests[host]).toHost == recorded.toHost + rs
                && w == HearsAll(u, rs) && Safe(u, rs);
    }
  }

  lemma RetiresAfter(c: Scene, v: Screen, d: Scene, u: Screen, order: seq<u32>) returns (w: Screen)
    requires Inv(d, u) && Moves(c, v, d, u) && Lists(d, order)
    ensures Inv(d.RetireAll(order), w) && Moves(c, v, d.RetireAll(order), w)
  {
    w := RetireAllKeeps(d, u, order);
    MovesChain(c, v, d, u, d.RetireAll(order), w);
  }

  /** Every handler keeps both accounts in agreement, and destroys only idle buffers. */
  lemma StepKeepsInv(c: Scene, v: Screen, e: Event) returns (w: Screen)
    requires Inv(c, v) && Enabled(c, e)
    ensures Inv(Handle(c, e), w) && Moves(c, Emits(v, e), Handle(c, e), w)
  {
    hide Inv, Moves, Lists;
    match e
    case New(guest, host, backing) =>
      w := v;
      NewKeeps(c, v, guest, host, backing);
      MovesNothing(c, v, Handle(c, e));
    case AttachTo(s, buffer, legacy, x, y, order) =>
      if c.AcceptsAttach(buffer, legacy, x, y) {
        var d := c.Attached(s, buffer, legacy, x, y);
        var r := AttachBuffer(s, c.HostOf(buffer));
        AttachedKeeps(c, v, s, buffer, legacy, x, y);
        MovesOne(c, v, d, r);
        w := RetiresAfter(c, v, d, v.Hears(r), order);
      } else {
        w := v;
        SameSceneKeeps(c, c.Reject(), v);
        MovesNothing(c, v, c.Reject());
      }
    case CommitOf(s, outcome, order) => w := CommitKeeps(c, v, s, outcome, order);
    case SurfaceGone(s, order) =>
      var d := c.SurfaceDestroyed(s);
      SurfaceDestroyedKeeps(c, v, s);
      MovesOne(c, v, d, DestroySurface(s));
      w := RetiresAfter(c, v, d, v.Hears(DestroySurface(s)), order);
    case BufferGone(guest) => w := BufferGoneKeeps(c, v, guest);
    case Release(host) => w := ReleaseKeeps(c, v, host);
    case Deleted(host) =>
      w := v;
      DeletedKeeps(c, v, host);
      MovesNothing(c, v, Handle(c, e));
  }

  lemma CommitKeeps(c: Scene, v: Screen, s: u32, outcome: Outcome, order: seq<u32>) returns (w: Screen)
    requires Inv(c, v) && Lists(c.Committed(s, outcome), order)
    ensures Inv(c.OnCommit(s, outcome, order), w) && Moves(c, v, c.OnCommit(s, outcome, order), w)
  {
    hide c.Committed, c.CommitFailure, Inv, Moves, Lists;
    var u: Screen;
    if c.CommitFailure(s, outcome).Some? {
      u := v;
      FailedCommitKeeps(c, v, s, outcome);
    } else {
      u := v.Hears(CommitSurface(s));
      SucceededCommitKeeps(c, v, s, outcome);
    }
    if c.CommitFailure(s, outcome) == Some(BadViewport) {
      w := u;
    } else {
      w := RetiresAfter(c, v, c.Committed(s, outcome), u, order);
    }
  }

  // ---- runs ----

  ghost predicate Legal(c: Scene, es: seq<Event>)
    decreases |es|
  {
    es != [] ==> Enabled(c, es[0]) && Legal(Handle(c, es[0]), es[1..])
  }

  /** The compositor's account after a step. */
  function Watches(c: Scene, v: Screen, e: Event): Screen
    requires e.BufferGone? ==> e.guest in c.hosts
  {
    HearsAll(Emits(v, e), Sent(c.toHost, Handle(c, e).toHost))
  }

  ghost function Run(c: Scene, v: Screen, es: seq<Event>): (Scene, Screen)
    requires Legal(c, es)
    decreases |es|
  {
    if es == [] then (c, v) else Run(Handle(c, es[0]), Watches(c, v, es[0]), es[1..])
  }

  /** In every step, each `wl_buffer.destroy` names a buffer the compositor no longer
      reads on any surface and that no uncommitted attach is about to show. */
  lemma StepIsSafe(c: Scene, v: Screen, e: Event)
    requires Inv(c, v) && Enabled(c, e)
    ensures Inv(Handle(c, e), Watches(c, v, e))
    ensures Safe(Emits(v, e), Sent(c.toHost, Handle(c, e).toHost))
    ensures |c.toHost| <= |Handle(c, e).toHost| && Handle(c, e).toHost[..|c.toHost|] == c.toHost
  {
    var w := StepKeepsInv(c, v, e);
    hide Inv, Safe, HearsAll, Handle, Enabled;
    var rs :| Handle(c, e).toHost == c.toHost + rs && w == HearsAll(Emits(v, e), rs) && Safe(Emits(v, e), rs);
    assert Sent(c.toHost, Handle(c, e).toHost) == rs;
  }

  lemma {:induction false} RunKeepsInv(c: Scene, v: Screen, es: seq<Event>)
    requires Inv(c, v) && Legal(c, es)
    ensures Inv(Run(c, v, es).0, Run(c, v, es).1)
    decreases |es|
  {
    hide Inv, Handle, Watches;
    if es != [] {
      StepIsSafe(c, v, es[0]);
      RunKeepsInv(Handle(c, es[0]), Watches(c, v, es[0]), es[1..]);
    }
  }

  // ---- what the use phases mean ----

  /** A buffer counts as never submitted, released or destroyed only when the
      compositor has no use of it left, on any surface, attached or replaced. */
  lemma IdlePhasesAreIdle(c: Scene, v: Screen, host: u32)
    requires Inv(c, v) && !IsAwaiting(c.buffers, host)
    ensures !v.Uses(host)
  {
  }

  lemma {:induction false} LingeringGrows(v: Screen, rs: seq<Request>)
    ensures v.lingering <= HearsAll(v, rs).lingering
  {
    if rs != [] {
      LingeringGrows(v, rs[..|rs| - 1]);
    }
  }

  /** A replaced use ends only with the compositor's release, whatever surfaces are
      destroyed meanwhile; until then its buffer is neither reset nor destroyed. */
  lemma {:induction false} ReplacedUseEndsOnlyByRelease(c: Scene, v: Screen, es: seq<Event>, host: u32)
    requires Inv(c, v) && Legal(c, es) && host in v.lingering && Release(host) !in es
    ensures host in Run(c, v, es).1.lingering
    ensures IsAwaiting(Run(c, v, es).0.buffers, host) && Run(c, v, es).0.buffers[host].use.hasDetachedUse
    decreases |es|
  {
    if es != [] {
      StepIsSafe(c, v, es[0]);
      hide Inv, Enabled, Handle;
      LingeringGrows(Emits(v, es[0]), Sent(c.toHost, Handle(c, es[0]).toHost));
      ReplacedUseEndsOnlyByRelease(Handle(c, es[0]), Watches(c, v, es[0]), es[1..], host);
    }
  }

  /** What `other` shows is `host`, or the compositor still reads it after a replacement. */
  predicate UsedBeside(v: Screen, other: u32, host: u32) {
    host in v.lingering || (other in v.using && v.using[other] == host)
  }

  lemma {:induction false} RetireAllSends(c: Scene, order: seq<u32>)
    ensures var d := c.RetireAll(order);
            && |c.toHost| <= |d.toHost| && d.toHost[..|c.toHost|] == c.toHost
            && (forall r :: r in Sent(c.toHost, d.toHost) ==> r.DestroyBuffer? && r.buffer in order)
  {
    if order != [] {
      var init, last := order[..|order| - 1], order[|order| - 1];
      RetireAllSends(c, init);
      var d, e := c.RetireAll(init), c.RetireAll(order);
      assert e == d.RetireOne(last);
      assert e.toHost == d.toHost || e.toHost == d.toHost + [DestroyBuffer(last)];
    }
  }

  lemma {:induction false} RetireAllSpares(c: Scene, order: seq<u32>, host: u32)
    requires host !in order
    ensures Lookup(c.RetireAll(order).buffers, host) == Lookup(c.buffers, host)
  {
    if order != [] {
      RetireAllSpares(c, order[..|order| - 1], host);
    }
  }

  lemma SentInTwo(c: Scene, d: Scene, e: Scene)
    requires |c.toHost| <= |d.toHost| <= |e.toHost| && d.toHost[..|c.toHost|] == c.toHost && e.toHost[..|d.toHost|] == d.toHost
    ensures Sent(c.toHost, e.toHost) == Sent(c.toHost, d.toHost) + Sent(d.toHost, e.toHost)
  {
  }

  /** Destroying a surface ends no use but its own: a buffer that another surface shows, or
      that lingers after a replacement, keeps its entry in the proxy's registry and is
      not destroyed. */
  lemma OtherSurfacesKeepTheirUse(c: Scene, v: Screen, s: u32, order: seq<u32>, other: u32, host: u32)
    requires Inv(c, v) && Enabled(c, SurfaceGone(s, order)) && other != s && UsedBeside(v, other, host)
    ensures var after := c.OnDestroySurface(s, order);
            && IsAwaiting(after.buffers, host) && after.buffers[host] == c.buffers[host]
            && DestroyBuffer(host) !in Sent(c.toHost, after.toHost)
  {
    var d := c.SurfaceDestroyed(s);
    SurfaceDestroyedKeeps(c, v, s);
    DestroySparesUse(c, v, s, other, host);
    assert host !in order;
    RetireAllSpares(d, order, host);
    RetireAllSends(d, order);
    SentInTwo(c, d, d.RetireAll(order));
  }

  lemma DestroySparesUse(c: Scene, v: Screen, s: u32, other: u32, host: u32)
    requires Inv(c, v) && other != s && UsedBeside(v, other, host)
    ensures var d := c.SurfaceDestroyed(s);
            && IsAwaiting(d.buffers, host) && d.buffers[host] == c.buffers[host]
            && d.toHost == c.toHost + [DestroySurface(s)] && !d.IsCandidate(host)
  {
    var gone := c.(surfaces := c.surfaces - {s}, toHost := c.toHost + [DestroySurface(s)]);
    if other in v.using && v.using[other] == host {
      assert other in gone.surfaces && gone.surfaces[other].CurrentBuffer() == Some(c.guests[host]);
    }
  }

  lemma {:induction false} HearingKeepsUse(v: Screen, rs: seq<Request>, other: u32, host: u32)
    requires UsedBeside(v, other, host) && DestroySurface(other) !in rs
    ensures UsedBeside(HearsAll(v, rs), other, host)
  {
    if rs != [] {
      HearingKeepsUse(v, rs[..|rs| - 1], other, host);
    }
  }

  lemma RetiringDestroysNoSurface(c: Scene, d: Scene, order: seq<u32>, s: u32)
    requires |c.toHost| <= |d.toHost| && d.toHost[..|c.toHost|] == c.toHost
    ensures DestroySurface(s) in Sent(c.toHost, d.RetireAll(order).toHost) <==> DestroySurface(s) in Sent(c.toHost, d.toHost)
  {
    RetireAllSends(d, order);
    SentInTwo(c, d, d.RetireAll(order));
  }

  lemma EachSendsOne(c: Scene, surface: u32, buffer: Option<u32>, legacy: bool, x: i32, y: i32)
    ensures c.SurfaceDestroyed(surface).toHost == c.toHost + [DestroySurface(surface)]
    ensures c.Attached(surface, buffer, legacy, x, y).toHost == c.toHost + [AttachBuffer(surface, c.HostOf(buffer))]
  {
  }

  lemma OnlySurfaceGoneDestroys(c: Scene, e: Event, s: u32)
    requires Enabled(c, e) && DestroySurface(s) in Sent(c.toHost, Handle(c, e).toHost)
    ensures e.SurfaceGone? && e.surface == s
  {
    hide Lists, c.CommitFailure, c.Committed, c.RetireAll, c.AcceptsAttach, c.Attached, c.SurfaceDestroyed;
    match e
    case AttachTo(surface, buffer, legacy, x, y, order) =>
      if c.AcceptsAttach(buffer, legacy, x, y) {
        EachSendsOne(c, surface, buffer, legacy, x, y);
        RetiringDestroysNoSurface(c, c.Attached(surface, buffer, legacy, x, y), order, s);
      }
    case CommitOf(surface, outcome, order) =>
      var d := c.Committed(surface, outcome);
      CommitSends(c, surface, outcome);
      RetiringDestroysNoSurface(c, d, order, s);
    case SurfaceGone(surface, order) =>
      EachSendsOne(c, surface, None, false, 0, 0);
      RetiringDestroysNoSurface(c, c.SurfaceDestroyed(surface), order, s);
    case _ =>
  }

  lemma CommitSends(c: Scene, surface: u32, outcome: Outcome)
    ensures var d := c.Committed(surface, outcome);
            && |c.toHost| <= |d.toHost| && d.toHost[..|c.toHost|] == c.toHost
            && forall r :: r in Sent(c.toHost, d.toHost) ==> !r.DestroySurface?
  {
    CommitAppends(c, surface, outcome);
    hide c.Committed, c.CommitFailure;
    var d := c.Committed(surface, outcome);
    if c.CommitFailure(surface, outcome).Some? {
      FailedCommitIs(c, surface, outcome);
      assert Sent(c.toHost, d.toHost) == [];
    } else {
      assert Sent(c.toHost, d.toHost) == DamageBatch(surface, outcome.damage.value);
    }
  }

  lemma CommitAppends(c: Scene, s: u32, outcome: Outcome)
    ensures c.CommitFailure(s, outcome).None? ==>
              outcome.damage.Some? && c.Committed(s, outcome).toHost == c.toHost + DamageBatch(s, outcome.damage.value)
  {
    hide c.CopyReady, c.SyncReady, c.CanReplace, Finalized;
  }

  /** Over every run, a use ends only with the compositor's release or with its own
      surface: until then the proxy neither resets nor destroys the buffer. */
  lemma {:induction false} UseEndsOnlyWithItsSurface(c: Scene, v: Screen, es: seq<Event>, other: u32, host: u32)
    requires Inv(c, v) && Legal(c, es) && UsedBeside(v, other, host)
    requires Release(host) !in es && forall e :: e in es && e.SurfaceGone? ==> e.surface != other
    ensures UsedBeside(Run(c, v, es).1, other, host) && IsAwaiting(Run(c, v, es).0.buffers, host)
    decreases |es|
  {
    if es != [] {
      var e := es[0];
      StepIsSafe(c, v, e);
      if DestroySurface(other) in Sent(c.toHost, Handle(c, e).toHost) {
        OnlySurfaceGoneDestroys(c, e, other);
        assert false;
      }
      hide Inv, Enabled, Handle;
      HearingKeepsUse(Emits(v, e), Sent(c.toHost, Handle(c, e).toHost), other, host);
      UseEndsOnlyWithItsSurface(Handle(c, e), Watches(c, v, e), es[1..], other, host);
    }
  }

  // ---- a commit is a transaction ----

  /** The same buffers in the same phases; only a copy flag may differ. */
  ghost predicate SameUses(m: Entries, r: Entries) {
    && r.Keys == m.Keys
    && forall h :: h in m ==>
         && m[h].HostDestroyQueued? == r[h].HostDestroyQueued? && m[h].GuestAlive? == r[h].GuestAlive?
         && (m[h].Active() ==> m[h].use == r[h].use)
  }

  /** Whatever fails, the surface is as it was before the commit, no use begins or
      ends, nothing is sent, and only a failed copy leaves the connection open. */
  lemma FailedCommitChangesNothing(c: Scene, s: u32, outcome: Outcome)
    requires c.CommitFailure(s, outcome).Some? && !c.fatal
    ensures var after := c.Committed(s, outcome);
            && after.surfaces == c.surfaces && after.hosts == c.hosts && after.toHost == c.toHost
            && SameUses(c.buffers, after.buffers)
    ensures !c.Committed(s, outcome).fatal <==>
            || c.CommitFailure(s, outcome) == Some(CopyFailed)
            || (c.CommitFailure(s, outcome) == Some(BadViewport) && !outcome.viewportObject)
  {
    hide c.CopyReady, c.SyncReady, c.CanReplace, c.Copied, SameUses;
    var p := Prepare(if s in c.surfaces then c.surfaces[s] else DEFAULT_SURFACE);
    SameUsesAlways(c.buffers);
    if p.attachment.Attach? {
      CopyKeepsUses(c, p.attachment.buffer, outcome.copied);
    }
  }

  lemma SameUsesAlways(m: Entries)
    ensures SameUses(m, m)
  {
  }

  lemma CopyKeepsUses(c: Scene, guest: u32, ok: bool)
    ensures var r := c.Copied(guest, ok); r == c.(buffers := r.buffers) && SameUses(c.buffers, r.buffers)
  {
  }

  /** A failed copy leaves the whole image to be copied by the next attempt, which
      the restored pending state repeats. */
  lemma FailedCopyIsRetried(c: Scene, s: u32, outcome: Outcome)
    requires c.CommitFailure(s, outcome) == Some(CopyFailed)
    ensures var attached := c.surfaces[s].pendingAttachment.Buffer();
            var after := c.Committed(s, outcome);
            && s in c.surfaces && attached.Some? && c.Resolve(attached.value).Some?
            && after.surfaces[s] == c.surfaces[s]
            && after.buffers[c.hosts[attached.value]].backing.needsFullCopy
            && forall h :: h in c.buffers && h != c.hosts[attached.value] ==> after.buffers[h] == c.buffers[h]
  {
  }

  /** A commit that succeeds applies the whole pending state, and sends its damage
      followed by the commit, with nothing in between. */
  lemma SucceededCommitAppliesAll(c: Scene, s: u32, outcome: Outcome)
    requires c.CommitFailure(s, outcome).None? && s in c.surfaces
    ensures var after := c.Committed(s, outcome);
            var before := c.surfaces[s];
            && after.toHost == c.toHost + DamageBatch(s, outcome.damage.value)
            && after.surfaces == c.surfaces[s := after.surfaces[s]]
            && after.surfaces[s].(content := None) == before.Applied().(content := None)
            && (before.pendingAttachment.Unchanged? ==> after.surfaces[s].content == before.content)
            && (before.pendingAttachment.Detach? ==> after.surfaces[s].content == None)
            && (before.pendingAttachment.Attach? ==>
                  after.surfaces[s].content
                  == Some(Content(before.pendingAttachment.Buffer(), c.Dimensions(before.pendingAttachment.buffer))))
  {
  }

  /** The new buffer's use has begun, the old one's is marked as detached, and no other
      buffer is touched. */
  ghost predicate MovesUses(before: Entries, after: Entries, previous: Option<u32>, next: Option<u32>) {
    && after.Keys == before.Keys
    && (next.Some? ==> IsAwaiting(after, next.value))
    && (previous.Some? && previous != next && IsAwaiting(before, previous.value) ==>
          IsActive(after, previous.value) && after[previous.value].use == AwaitingRelease(true))
    && (forall h :: h in before && Some(h) != previous && Some(h) != next ==> after[h] == before[h])
  }

  lemma FinalizedMovesBothUses(m: Entries, previous: Option<u32>, next: Option<u32>)
    requires CanFinalize(m, previous, next)
    ensures MovesUses(m, Finalized(m, previous, next), previous, next)
  {
  }

  lemma CommittedBuffers(c: Scene, s: u32, outcome: Outcome)
    requires c.CommitFailure(s, outcome).None? && s in c.surfaces && !c.surfaces[s].pendingAttachment.Unchanged?
    ensures var t := c.surfaces[s];
            var ready := if t.pendingAttachment.Attach? then c.Copied(t.pendingAttachment.buffer, outcome.copied) else c;
            && CanFinalize(c.buffers, c.HostOf(t.CurrentBuffer()), c.HostOf(t.pendingAttachment.Buffer()))
            && c.Committed(s, outcome).buffers
                 == Finalized(ready.buffers, c.HostOf(t.CurrentBuffer()), c.HostOf(t.pendingAttachment.Buffer()))
  {
  }

  lemma CopiedBuffers(c: Scene, guest: u32, ok: bool)
    ensures var r := c.Copied(guest, ok).buffers;
            && r.Keys == c.buffers.Keys
            && (forall h :: h in r ==> r[h].Active() == c.buffers[h].Active() && (r[h].Active() ==> r[h].use == c.buffers[h].use))
            && (forall h :: h in r && Some(h) != c.Resolve(guest) ==> r[h] == c.buffers[h])
  {
  }

  /** It moves the use from the old contents' buffer to the new one's. */
  lemma SucceededCommitMovesBothUses(c: Scene, s: u32, outcome: Outcome)
    requires c.CommitFailure(s, outcome).None? && s in c.surfaces && !c.surfaces[s].pendingAttachment.Unchanged?
    ensures MovesUses(c.buffers, c.Committed(s, outcome).buffers, c.HostOf(c.surfaces[s].CurrentBuffer()),
                      c.HostOf(c.surfaces[s].pendingAttachment.Buffer()))
  {
    var t := c.surfaces[s];
    var previous, next := c.HostOf(t.CurrentBuffer()), c.HostOf(t.pendingAttachment.Buffer());
    CommittedBuffers(c, s, outcome);
    hide c.Committed, c.CommitFailure, Finalized, c.Copied;
    var ready := if t.pendingAttachment.Attach? then c.Copied(t.pendingAttachment.buffer, outcome.copied) else c;
    if t.pendingAttachment.Attach? {
      CopiedBuffers(c, t.pendingAttachment.buffer, outcome.copied);
    }
    assert CanFinalize(ready.buffers, previous, next);
    FinalizedMovesBothUses(ready.buffers, previous, next);
  }

  /** When a replacement is refused: its old buffer was never submitted, is already
      destroyed, or is unknown. */
  lemma GuardRefusesIff(c: Scene, previous: Option<u32>, next: Option<u32>)
    requires MapsOk(c)
    requires next.Some? ==> c.Resolve(next.value).Some? && IsActive(c.buffers, c.hosts[next.value])
    ensures !c.CanReplace(previous, next) <==>
            && previous.Some? && previous != next
            && (c.Resolve(previous.value).None? || !CanDetach(c.buffers, c.hosts[previous.value]))
  {
  }

  // ---- a reference that outlives its buffer ----

  /** Retiring a released buffer that is still some surface's contents leaves the
      reference in place, and the next replacement on that surface is refused. */
  lemma RetiredContentsBlockReplacement(c: Scene, v: Screen, s: u32, host: u32, next: Option<u32>)
    requires Inv(c, v) && c.IsCandidate(host)
    requires s in c.surfaces && c.surfaces[s].CurrentBuffer() == Some(c.guests[host])
    requires next != Some(c.guests[host])
    ensures var d := c.RetireOne(host);
            d.surfaces[s] == c.surfaces[s] && !d.CanReplace(d.surfaces[s].CurrentBuffer(), next)
  {
    var d := c.RetireOne(host);
    if c.guests[host] >= GUEST_SERVER_ID_START {
      assert d.Resolve(c.guests[host]).None?;
    } else {
      assert d.buffers[host] == HostDestroyQueued && d.hosts == c.hosts;
      assert d.Resolve(c.guests[host]) == Some(host) && !CanDetach(d.buffers, host);
    }
  }

  const NOTHING: Scene := Scene(map[], map[], map[], map[], [], false)

  /** Two buffers; the first is shown, attached again, destroyed, released, and then
      replaced before the second attach was committed. */
  const REPLACED_BEFORE_COMMIT: seq<Event> :=
    [New(5, 50, Native(8, 8))] + ([New(6, 60, Native(8, 8))] + SHOW_FIRST)

  const SHOW_FIRST: seq<Event> :=
    [AttachTo(1, Some(5), false, 0, 0, [])] + ([CommitOf(1, READY, [])] + DESTROY_FIRST)

  const DESTROY_FIRST: seq<Event> :=
    [AttachTo(1, Some(5), false, 0, 0, [])] + ([BufferGone(5)] + ([Release(50)] + SHOW_SECOND))

  const SHOW_SECOND: seq<Event> :=
    [AttachTo(1, Some(6), false, 0, 0, [50])] + ([CommitOf(1, READY, [])] + [])

  function SceneWith(first: RenderBuffer, surface: Surface, toHost: seq<Request>, fatal: bool): Scene {
    Scene(map[5 := 50, 6 := 60], map[50 := 5, 60 := 6],
          map[50 := first, 60 := GuestAlive(Native(8, 8), NeverSubmitted)], map[1 := surface], toHost, fatal)
  }

  const SHOWN: Surface := DEFAULT_SURFACE.(content := Some(Content(Some(5), Some((8, 8)))))

  /** From `c`, the events `es` are legal and end with a closed connection. */
  ghost predicate EndsFatally(c: Scene, es: seq<Event>) {
    Legal(c, es) && forall v :: Run(c, v, es).0.fatal
  }

  lemma FatalNow(c: Scene)
    requires c.fatal
    ensures EndsFatally(c, [])
  {
  }

  lemma FatalAfter(c: Scene, e: Event, rest: seq<Event>)
    requires Enabled(c, e) && EndsFatally(Handle(c, e), rest)
    ensures EndsFatally(c, [e] + rest)
  {
    assert ([e] + rest)[1..] == rest;
    forall v ensures Run(c, v, [e] + rest).0.fatal {
      assert Run(Handle(c, e), Watches(c, v, e), rest).0.fatal;
      assert Run(c, v, [e] + rest) == Run(Handle(c, e), Watches(c, v, e), rest);
    }
  }

  const READY: Outcome := Outcome(Some([]), true, true, false)

  lemma RetireOnlyOne(c: Scene, host: u32)
    ensures c.RetireAll([host]) == c.RetireOne(host)
  {
    assert [host][..0] == [];
    assert c.RetireAll([]) == c;
  }

  lemma NothingToRetire(c: Scene)
    requires forall h :: h in c.buffers ==> !c.buffers[h].GuestDestroyed?
    ensures Lists(c, [])
  {
  }

  /** The buffers are created. */
  lemma Created()
    ensures var one := NOTHING.NewBuffer(5, 50, Native(8, 8));
            && Enabled(NOTHING, New(5, 50, Native(8, 8))) && Enabled(one, New(6, 60, Native(8, 8)))
            && Handle(one, New(6, 60, Native(8, 8)))
                 == SceneWith(GuestAlive(Native(8, 8), NeverSubmitted), DEFAULT_SURFACE, [], false).(surfaces := map[])
  {
  }

  /** The first buffer is attached, also for the second time. */
  lemma AttachedFirst(c: Scene, surface: Surface, use: Use, toHost: seq<Request>)
    requires c.surfaces == map[] || c.surfaces == map[1 := surface]
    requires c.surfaces == map[] ==> surface == DEFAULT_SURFACE
    requires c == SceneWith(GuestAlive(Native(8, 8), use), surface, toHost, false).(surfaces := c.surfaces)
    requires surface.pendingAttachOffset == None
    ensures Enabled(c, AttachTo(1, Some(5), false, 0, 0, []))
    ensures Handle(c, AttachTo(1, Some(5), false, 0, 0, []))
         == SceneWith(GuestAlive(Native(8, 8), use), surface.(pendingAttachment := Attach(5)),
                      toHost + [AttachBuffer(1, Some(50))], false)
  {
    NothingToRetire(c.Attached(1, Some(5), false, 0, 0));
  }

  lemma CommittedFirst(toHost: seq<Request>)
    ensures var c := SceneWith(GuestAlive(Native(8, 8), NeverSubmitted), DEFAULT_SURFACE.(pendingAttachment := Attach(5)),
                               toHost, false);
            && Enabled(c, CommitOf(1, READY, []))
            && Handle(c, CommitOf(1, READY, []))
                 == SceneWith(GuestAlive(Native(8, 8), AwaitingRelease(false)), SHOWN, toHost + [CommitSurface(1)], false)
  {
    var c := SceneWith(GuestAlive(Native(8, 8), NeverSubmitted), DEFAULT_SURFACE.(pendingAttachment := Attach(5)), toHost, false);
    assert DamageBatch(1, []) == [CommitSurface(1)];
    assert c.CommitFailure(1, READY) == None;
    assert c.Committed(1, READY)
        == SceneWith(GuestAlive(Native(8, 8), AwaitingRelease(false)), SHOWN, toHost + [CommitSurface(1)], false);
    NothingToRetire(c.Committed(1, READY));
  }

  /** It is destroyed with an attach pending, and then released. */
  lemma DestroyedWhileShown(toHost: seq<Request>)
    ensures var surface := SHOWN.(pendingAttachment := Attach(5));
            var c := SceneWith(GuestAlive(Native(8, 8), AwaitingRelease(false)), surface, toHost, false);
            var d := SceneWith(GuestDestroyed(Native(8, 8), AwaitingRelease(false)), surface, toHost, false);
            Enabled(c, BufferGone(5)) && Handle(c, BufferGone(5)) == d
  {
    var surface := SHOWN.(pendingAttachment := Attach(5));
    var c := SceneWith(GuestAlive(Native(8, 8), AwaitingRelease(false)), surface, toHost, false);
    assert c.surfaces[1].CurrentBuffer() == Some(5) && c.surfaces[1].pendingAttachment == Attach(5);
    assert c.HasCurrent(5) && c.HasPending(5);
  }

  lemma ReleasedWhilePending(toHost: seq<Request>)
    ensures var surface := SHOWN.(pendingAttachment := Attach(5));
            var d := SceneWith(GuestDestroyed(Native(8, 8), AwaitingRelease(false)), surface, toHost, false);
            && Enabled(d, Release(50))
            && Handle(d, Release(50)) == SceneWith(GuestDestroyed(Native(8, 8), Released), surface, toHost, false)
  {
    var surface := SHOWN.(pendingAttachment := Attach(5));
    var d := SceneWith(GuestDestroyed(Native(8, 8), AwaitingRelease(false)), surface, toHost, false);
    assert d.surfaces[1].pendingAttachment == Attach(5);
    assert d.HasPending(5);
  }

  /** Attaching the second buffer instead retires the first, which is still the surface's contents. */
  lemma ReplacedPending(toHost: seq<Request>)
    ensures var c := SceneWith(GuestDestroyed(Native(8, 8), Released), SHOWN.(pendingAttachment := Attach(5)), toHost, false);
            && Enabled(c, AttachTo(1, Some(6), false, 0, 0, [50]))
            && Handle(c, AttachTo(1, Some(6), false, 0, 0, [50]))
                 == SceneWith(HostDestroyQueued, SHOWN.(pendingAttachment := Attach(6)),
                              toHost + [AttachBuffer(1, Some(60))] + [DestroyBuffer(50)], false)
  {
    var c := SceneWith(GuestDestroyed(Native(8, 8), Released), SHOWN.(pendingAttachment := Attach(5)), toHost, false);
    var d := SceneWith(GuestDestroyed(Native(8, 8), Released), SHOWN.(pendingAttachment := Attach(6)),
                       toHost + [AttachBuffer(1, Some(60))], false);
    assert c.Attached(1, Some(6), false, 0, 0) == d;
    assert !d.HasPending(5) && d.IsCandidate(50);
    RetireOnlyOne(d, 50);
  }

  lemma RefusedCommit(toHost: seq<Request>)
    ensures var c := SceneWith(HostDestroyQueued, SHOWN.(pendingAttachment := Attach(6)), toHost, false);
            && Enabled(c, CommitOf(1, READY, []))
            && Handle(c, CommitOf(1, READY, [])).fatal
  {
    var c := SceneWith(HostDestroyQueued, SHOWN.(pendingAttachment := Attach(6)), toHost, false);
    assert c.CommitFailure(1, READY) == Some(NotReplaced);
    NothingToRetire(c.Committed(1, READY));
  }

  lemma SecondIsRefused(toHost: seq<Request>)
    ensures EndsFatally(SceneWith(GuestDestroyed(Native(8, 8), Released), SHOWN.(pendingAttachment := Attach(5)), toHost, false),
                        SHOW_SECOND)
  {
    hide Enabled, Handle, EndsFatally;
    var c := SceneWith(GuestDestroyed(Native(8, 8), Released), SHOWN.(pendingAttachment := Attach(5)), toHost, false);
    ReplacedPending(toHost);
    var sent := toHost + [AttachBuffer(1, Some(60))] + [DestroyBuffer(50)];
    var d := SceneWith(HostDestroyQueued, SHOWN.(pendingAttachment := Attach(6)), sent, false);
    RefusedCommit(sent);
    FatalNow(Handle(d, CommitOf(1, READY, [])));
    FatalAfter(d, CommitOf(1, READY, []), []);
    FatalAfter(c, AttachTo(1, Some(6), false, 0, 0, [50]), [CommitOf(1, READY, [])] + []);
  }

  lemma DestroyedThenRefused(toHost: seq<Request>)
    ensures EndsFatally(SceneWith(GuestAlive(Native(8, 8), AwaitingRelease(false)), SHOWN, toHost, false), DESTROY_FIRST)
  {
    hide Enabled, Handle, EndsFatally;
    var b := SceneWith(GuestAlive(Native(8, 8), AwaitingRelease(false)), SHOWN, toHost, false);
    var sent := toHost + [AttachBuffer(1, Some(50))];
    var surface := SHOWN.(pendingAttachment := Attach(5));
    var c := SceneWith(GuestAlive(Native(8, 8), AwaitingRelease(false)), surface, sent, false);
    var d := SceneWith(GuestDestroyed(Native(8, 8), AwaitingRelease(false)), surface, sent, false);
    assert 1 in b.surfaces;
    AttachedFirst(b, SHOWN, AwaitingRelease(false), toHost);
    DestroyedWhileShown(sent);
    ReleasedWhilePending(sent);
    SecondIsRefused(sent);
    FatalAfter(d, Release(50), SHOW_SECOND);
    FatalAfter(c, BufferGone(5), [Release(50)] + SHOW_SECOND);
    FatalAfter(b, AttachTo(1, Some(5), false, 0, 0, []), [BufferGone(5)] + ([Release(50)] + SHOW_SECOND));
  }

  lemma ShownThenRefused()
    ensures EndsFatally(SceneWith(GuestAlive(Native(8, 8), NeverSubmitted), DEFAULT_SURFACE, [], false).(surfaces := map[]),
                        SHOW_FIRST)
  {
    hide Enabled, Handle, EndsFatally;
    var b := SceneWith(GuestAlive(Native(8, 8), NeverSubmitted), DEFAULT_SURFACE, [], false).(surfaces := map[]);
    var sent := [] + [AttachBuffer(1, Some(50))];
    var c := SceneWith(GuestAlive(Native(8, 8), NeverSubmitted), DEFAULT_SURFACE.(pendingAttachment := Attach(5)), sent, false);
    AttachedFirst(b, DEFAULT_SURFACE, NeverSubmitted, []);
    CommittedFirst(sent);
    DestroyedThenRefused(sent + [CommitSurface(1)]);
    FatalAfter(c, CommitOf(1, READY, []), DESTROY_FIRST);
    FatalAfter(b, AttachTo(1, Some(5), false, 0, 0, []), [CommitOf(1, READY, [])] + DESTROY_FIRST);
  }

  /** Ordinary requests and one release end with the proxy closing the connection:
      show a buffer, attach it again, destroy it, and attach another before committing. */
  lemma ReattachDestroyReplaceIsFatal()
    ensures EndsFatally(NOTHING, REPLACED_BEFORE_COMMIT)
  {
    Created();
    ShownThenRefused();
    hide Enabled, EndsFatally, SceneWith;
    FatalAfter(NOTHING.NewBuffer(5, 50, Native(8, 8)), New(6, 60, Native(8, 8)), SHOW_FIRST);
    FatalAfter(NOTHING, New(5, 50, Native(8, 8)), [New(6, 60, Native(8, 8))] + SHOW_FIRST);
  }
}

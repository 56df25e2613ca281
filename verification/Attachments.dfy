/**
 What a client may attach and commit, and what is sent for it, in terms of the client's own
 account of its buffers (sommelier/src/handler/compositor.rs, shm.rs).
 */
module Attachments {
  import opened Prelude
  import opened Surfaces
  import opened RenderBuffers
  import opened Scenes
  import opened UseIntervals
  import opened StaleContents

  /**
   The client's account, computed from its requests alone.
   `alive`: the buffers it has and has not destroyed, with their host numbers.
   `made`: the storage each host number was registered with last.
   */
  datatype Client = Client(alive: map<u32, u32>, made: map<u32, Backing>)

  const NO_BUFFERS: Client := Client(map[], map[])

  function Asks(g: Client, e: Event): Client {
    match e
    case New(guest, host, backing) => Client(g.alive[guest := host], g.made[host := backing])
    case BufferGone(guest) => g.(alive := g.alive - {guest})
    case _ => g
  }

  predicate SameKind(a: Backing, b: Backing) {
    a.LocalCopy? == b.LocalCopy? && a.width == b.width && a.height == b.height
  }

  /** The proxy lets the client name exactly its live buffers, under their host numbers, and
      knows the storage of each. */
  ghost predicate Knows(c: Scene, g: Client) {
    && (forall x :: x in g.alive <==> c.IsLiveBuffer(x))
    && (forall x :: x in g.alive ==> x in c.hosts && c.hosts[x] == g.alive[x])
    && (forall h :: IsActive(c.buffers, h) ==> h in g.made && SameKind(c.buffers[h].backing, g.made[h]))
  }

  // ---- steps keep the account ----

  ghost predicate KeepsLive(c: Scene, d: Scene) {
    && (forall x :: c.IsLiveBuffer(x) <==> d.IsLiveBuffer(x))
    && (forall x :: c.IsLiveBuffer(x) ==> x in d.hosts && d.hosts[x] == c.hosts[x])
    && (forall h :: IsActive(d.buffers, h) ==> IsActive(c.buffers, h) && SameKind(d.buffers[h].backing, c.buffers[h].backing))
  }

  lemma KeepsLiveKnows(c: Scene, d: Scene, g: Client)
    requires Knows(c, g) && KeepsLive(c, d)
    ensures Knows(d, g)
  {
  }

  lemma KeepsLiveChain(b: Scene, c: Scene, d: Scene)
    requires KeepsLive(b, c) && KeepsLive(c, d)
    ensures KeepsLive(b, d)
  {
  }

  /** Registries that differ in uses, or in what has still to be copied. */
  ghost predicate SameLives(m: Entries, r: Entries) {
    && r.Keys == m.Keys
    && forall h :: h in m ==>
         && m[h].GuestAlive? == r[h].GuestAlive? && m[h].Active() == r[h].Active()
         && (m[h].Active() ==> SameKind(r[h].backing, m[h].backing))
  }

  lemma SameLivesKeeps(c: Scene, d: Scene)
    requires d.hosts == c.hosts && SameLives(c.buffers, d.buffers)
    ensures KeepsLive(c, d)
  {
  }

  lemma UsesDoNotMatter(m: Entries, host: u32, other: bool)
    ensures SameLives(m, m) && SameLives(m, ReleasedBy(m, host)) && SameLives(m, SurfaceUseEnded(m, host, other))
  {
  }

  lemma EdgesDoNotMatter(m: Entries, host: u32)
    ensures SameLives(m, Submitted(m, host)) && SameLives(m, Detached(m, host))
  {
  }

  lemma SameLivesChain(m: Entries, n: Entries, r: Entries)
    requires SameLives(m, n) && SameLives(n, r)
    ensures SameLives(m, r)
  {
  }

  lemma ReplacingDoesNotMatter(m: Entries, previous: Option<u32>, next: Option<u32>)
    ensures SameLives(m, Finalized(m, previous, next))
  {
    hide SameLives, Submitted, Detached, CanFinalize;
    UsesDoNotMatter(m, 0, false);
    if CanFinalize(m, previous, next) {
      var detached := if previous.Some? && previous != next then Detached(m, previous.value) else m;
      if previous.Some? {
        EdgesDoNotMatter(m, previous.value);
      }
      if next.Some? {
        EdgesDoNotMatter(detached, next.value);
        SameLivesChain(m, detached, Submitted(detached, next.value));
      }
    }
  }

  lemma CopyKeepsLive(c: Scene, guest: u32, ok: bool)
    ensures SameLives(c.buffers, c.Copied(guest, ok).buffers) && c.Copied(guest, ok).hosts == c.hosts
  {
  }

  lemma DestroyedKeepsLive(c: Scene, guest: u32)
    requires MapsOk(c) && guest in c.hosts && IsActive(c.buffers, c.hosts[guest]) && !c.IsLiveBuffer(guest)
    ensures KeepsLive(c, c.Destroyed(guest, c.hosts[guest]))
  {
    var host := c.hosts[guest];
    var d := c.Destroyed(guest, host);
    forall x | c.IsLiveBuffer(x) || d.IsLiveBuffer(x)
      ensures c.IsLiveBuffer(x) && d.IsLiveBuffer(x) && d.hosts[x] == c.hosts[x]
    {
      assert x != guest ==> x in c.hosts && c.hosts[x] != host;
    }
  }

  // ---- retiring ----

  function Destructors(order: seq<u32>): (rs: seq<Request>)
    ensures |rs| == |order| && forall i | 0 <= i < |order| :: rs[i] == DestroyBuffer(order[i])
  {
    seq(|order|, i requires 0 <= i < |order| => DestroyBuffer(order[i]))
  }

  /** Retiring destroys the listed buffers, one message each in that order, and none that lives. */
  lemma {:induction false} RetiringTells(c: Scene, v: Screen, order: seq<u32>)
    requires Inv(c, v)
    requires forall h :: h in order ==> c.IsCandidate(h)
    requires forall i, j | 0 <= i < j < |order| :: order[i] != order[j]
    ensures var d := c.RetireAll(order);
            && d.toHost == c.toHost + Destructors(order) && d.fatal == c.fatal && d.surfaces == c.surfaces
            && KeepsLive(c, d)
  {
    hide KeepsLive, PendingOk, UsesOk, c.IsCandidate;
    if order == [] {
      UsesDoNotMatter(c.buffers, 0, false);
      SameLivesKeeps(c, c);
    } else {
      var init, last := order[..|order| - 1], order[|order| - 1];
      var w := RetireAllKeeps(c, v, init);
      var d := c.RetireAll(init);
      assert d.IsCandidate(last);
      RetiringTells(c, v, init);
      RetiredTells(d, last);
      assert Destructors(order) == Destructors(init) + [DestroyBuffer(last)];
      KeepsLiveChain(c, d, d.RetireOne(last));
    }
  }

  lemma RetiredTells(c: Scene, host: u32)
    requires MapsOk(c) && c.IsCandidate(host)
    ensures var d := c.RetireOne(host);
            && d.toHost == c.toHost + [DestroyBuffer(host)] && d.fatal == c.fatal && d.surfaces == c.surfaces
            && KeepsLive(c, d)
  {
    DestroyedKeepsMaps(c, c.guests[host]);
    DestroyedKeepsLive(c, c.guests[host]);
    hide KeepsLive;
  }

  // ---- what a step sends ----

  /** No live buffer has this host number. */
  ghost predicate Dead(g: Client, host: u32) {
    forall x :: x in g.alive ==> g.alive[x] != host
  }

  /** `head`, and then destructors of distinct buffers none of which is alive. */
  ghost predicate Sends(before: Scene, after: Scene, g: Client, head: seq<Request>) {
    exists order: seq<u32> ::
      && after.toHost == before.toHost + head + Destructors(order)
      && (forall i | 0 <= i < |order| :: Dead(g, order[i]))
      && (forall i, j | 0 <= i < j < |order| :: order[i] != order[j])
  }

  lemma CandidatesAreDead(c: Scene, g: Client, order: seq<u32>)
    requires MapsOk(c) && Knows(c, g) && forall h :: h in order ==> c.IsCandidate(h)
    ensures forall i | 0 <= i < |order| :: Dead(g, order[i])
  {
    forall i | 0 <= i < |order| ensures Dead(g, order[i]) {
      assert c.IsCandidate(order[i]);
    }
  }

  /** A handler that has done its work retires what has become idle. */
  lemma ThenRetires(c: Scene, d: Scene, v: Screen, g: Client, head: seq<Request>, order: seq<u32>)
    requires Inv(d, v) && Knows(d, g) && d.toHost == c.toHost + head && Lists(d, order)
    ensures var e := d.RetireAll(order);
            Knows(e, g) && Sends(c, e, g, head) && e.fatal == d.fatal && e.surfaces == d.surfaces
  {
    RetiringTells(d, v, order);
    CandidatesAreDead(d, g, order);
    KeepsLiveKnows(d, d.RetireAll(order), g);
    hide Knows, Inv, KeepsLive;
  }

  lemma SendsOnly(c: Scene, d: Scene, g: Client, head: seq<Request>)
    requires d.toHost == c.toHost + head
    ensures Sends(c, d, g, head)
  {
    assert c.toHost + head + Destructors([]) == c.toHost + head;
  }

  lemma SendsDestructor(c: Scene, d: Scene, g: Client, host: u32)
    requires d.toHost == c.toHost + [DestroyBuffer(host)] && Dead(g, host)
    ensures Sends(c, d, g, [])
  {
    assert Destructors([host]) == [DestroyBuffer(host)];
    assert c.toHost + [] + Destructors([host]) == d.toHost;
  }

  // ---- attaching ----

  /** What the attach is announced as. */
  function Announced(g: Client, surface: u32, buffer: Option<u32>): seq<Request>
    requires buffer.Some? ==> buffer.value in g.alive
  {
    [AttachBuffer(surface, match buffer case None => None case Some(x) => Some(g.alive[x]))]
  }

  /** The surface with the attach as one of its requests; a detach has no offset. */
  function Recorded(c: Scene, s: u32, buffer: Option<u32>, legacy: bool, x: i32, y: i32): Surface {
    Pend(if s in c.surfaces then c.surfaces[s] else DEFAULT_SURFACE,
         SetAttachment(buffer, if buffer.Some? && legacy then Some((x, y)) else None))
  }

  /** An attach is accepted exactly for a live buffer of the client, or for none, and with an
      offset only where the surface's version has one; it is announced under the buffer's
      host number, and recorded as a request of the surface. */
  lemma AttachAcceptedIff(c: Scene, v: Screen, g: Client, s: u32, buffer: Option<u32>, legacy: bool, x: i32, y: i32,
      order: seq<u32>)
    requires Inv(c, v) && Knows(c, g) && Enabled(c, AttachTo(s, buffer, legacy, x, y, order))
    ensures var d := c.OnAttach(s, buffer, legacy, x, y, order);
            && (d.fatal <==> (buffer.Some? && buffer.value !in g.alive) || (!legacy && (x != 0 || y != 0)))
            && Knows(d, g)
            && if d.fatal then d == c.Reject()
               else
                 && Sends(c, d, g, Announced(g, s, buffer))
                 && d.surfaces == c.surfaces[s := Recorded(c, s, buffer, legacy, x, y)]
  {
    hide Inv, Lists;
    if c.AcceptsAttach(buffer, legacy, x, y) {
      var d := c.Attached(s, buffer, legacy, x, y);
      AttachedKeeps(c, v, s, buffer, legacy, x, y);
      UsesDoNotMatter(c.buffers, 0, false);
      SameLivesKeeps(c, d);
      KeepsLiveKnows(c, d, g);
      AttachedTells(c, g, s, buffer, legacy, x, y);
      hide Knows, c.AcceptsAttach, c.Attached, Sends, KeepsLive;
      ThenRetires(c, d, v.Hears(AttachBuffer(s, c.HostOf(buffer))), g, Announced(g, s, buffer), order);
    } else {
      UsesDoNotMatter(c.buffers, 0, false);
      SameLivesKeeps(c, c.Reject());
      KeepsLiveKnows(c, c.Reject(), g);
    }
  }

  lemma AttachedTells(c: Scene, g: Client, s: u32, buffer: Option<u32>, legacy: bool, x: i32, y: i32)
    requires Knows(c, g) && c.AcceptsAttach(buffer, legacy, x, y)
    ensures buffer.Some? ==> buffer.value in g.alive
    ensures c.Attached(s, buffer, legacy, x, y).toHost == c.toHost + Announced(g, s, buffer)
    ensures c.Attached(s, buffer, legacy, x, y).surfaces
         == c.surfaces[s := Recorded(c, s, buffer, legacy, x, y)]
  {
  }

  // ---- committing ----

  /** The viewport the commit would leave crops to parts of pixels and does not scale. */
  predicate CropsFractions(s: Surface) {
    match (match s.pendingViewport case Some(next) => next case None => s.viewport)
    case None => false
    case Some(viewport) =>
      viewport.source.Some? && viewport.destination.None?
      && !(viewport.source.value.width % 256 == 0 && viewport.source.value.height % 256 == 0)
  }

  /** The buffer about to be shown is one whose pixels the proxy copies, or one it must wait for. */
  predicate NeedsCopy(g: Client, v: Screen, s: u32) {
    s in v.pending && v.pending[s].Some? && v.pending[s].value in g.made && g.made[v.pending[s].value].LocalCopy?
  }

  predicate NeedsFence(g: Client, v: Screen, s: u32) {
    s in v.pending && v.pending[s].Some? && v.pending[s].value in g.made && g.made[v.pending[s].value].Native?
  }

  /** The surface's contents are to be replaced, and what they were is gone. */
  ghost predicate LosesTrack(c: Scene, v: Screen, t: Shows, s: u32) {
    s in c.surfaces && s in v.pending && c.surfaces[s].CurrentBuffer() != c.surfaces[s].pendingAttachment.Buffer()
    && Stale(c, t, s)
  }

  lemma PendingIs(c: Scene, v: Screen, g: Client, s: u32)
    requires Inv(c, v) && Knows(c, g) && s in c.surfaces
    ensures var p := c.surfaces[s].pendingAttachment;
            && (s in v.pending <==> !p.Unchanged?)
            && (p.Attach? ==> c.Resolve(p.buffer).Some? && IsActive(c.buffers, c.hosts[p.buffer])
                              && v.pending[s] == Some(c.hosts[p.buffer])
                              && (c.buffers[c.hosts[p.buffer]].backing.LocalCopy? <==> NeedsCopy(g, v, s))
                              && (c.buffers[c.hosts[p.buffer]].backing.Native? <==> NeedsFence(g, v, s)))
            && (!p.Attach? ==> !NeedsCopy(g, v, s) && !NeedsFence(g, v, s))
  {
  }

  lemma ReadinessIs(c: Scene, v: Screen, g: Client, s: u32, outcome: Outcome)
    requires Inv(c, v) && Knows(c, g) && s in c.surfaces
    ensures var p := c.surfaces[s].pendingAttachment;
            && (p.Attach? && !c.CopyReady(p.buffer, outcome.copied) <==> NeedsCopy(g, v, s) && !outcome.copied)
            && (p.Attach? && !c.SyncReady(p.buffer, outcome.synchronized) <==> NeedsFence(g, v, s) && !outcome.synchronized)
  {
    hide Inv, Knows, NeedsCopy, NeedsFence;
    PendingIs(c, v, g, s);
  }

  lemma ReplaceableIff(c: Scene, v: Screen, t: Shows, g: Client, s: u32)
    requires Inv(c, v) && ShowsOk(c, t) && Knows(c, g) && s in c.surfaces && s in v.pending
    ensures c.CanReplace(c.surfaces[s].CurrentBuffer(), c.surfaces[s].pendingAttachment.Buffer()) <==> !LosesTrack(c, v, t, s)
  {
    hide ShowsOk, Knows, Stale, UsesOk, PendingOk;
    PendingIs(c, v, g, s);
    if c.surfaces[s].CurrentBuffer() != c.surfaces[s].pendingAttachment.Buffer() {
      hide c.CanReplace;
      RefusedWhenStale(c, t, s, c.surfaces[s].pendingAttachment.Buffer());
    }
  }

  /** When a commit is carried out, when it is put off, and when it ends the connection. */
  lemma CarriedOutIff(c: Scene, v: Screen, t: Shows, g: Client, s: u32, outcome: Outcome)
    requires Inv(c, v) && ShowsOk(c, t) && Knows(c, g) && !c.fatal
    ensures var fractional := s in c.surfaces && CropsFractions(c.surfaces[s]);
            var uncopied := NeedsCopy(g, v, s) && !outcome.copied;
            var unready := (NeedsFence(g, v, s) && !outcome.synchronized) || LosesTrack(c, v, t, s);
            && (c.CommitFailure(s, outcome).None? <==> !fractional && outcome.damage.Some? && !uncopied && !unready)
            && (c.Committed(s, outcome).fatal <==>
                  if fractional then outcome.viewportObject else outcome.damage.None? || (!uncopied && unready))
  {
    hide Inv, ShowsOk, Knows, NeedsCopy, NeedsFence, LosesTrack, c.CopyReady, c.SyncReady, c.CanReplace, c.Copied,
         Finalized, SameUses;
    if s in c.surfaces {
      PendingIs(c, v, g, s);
      ReadinessIs(c, v, g, s, outcome);
      if c.surfaces[s].pendingAttachment.Attach? {
        CopyKeepsUses(c, c.surfaces[s].pendingAttachment.buffer, outcome.copied);
      }
      if s in v.pending {
        ReplaceableIff(c, v, t, g, s);
      } else {
        NotPending(c, v, t, g, s);
      }
    } else {
      NotPending(c, v, t, g, s);
    }
  }

  lemma NotPending(c: Scene, v: Screen, t: Shows, g: Client, s: u32)
    requires Inv(c, v) && (s in v.pending ==> s !in c.surfaces)
    ensures !NeedsCopy(g, v, s) && !NeedsFence(g, v, s) && !LosesTrack(c, v, t, s)
  {
  }

  lemma CommitKeepsLive(c: Scene, s: u32, outcome: Outcome)
    ensures SameLives(c.buffers, c.Committed(s, outcome).buffers) && c.Committed(s, outcome).hosts == c.hosts
  {
    hide c.Committed, c.CommitFailure, SameLives, c.Copied;
    var p := Prepare(if s in c.surfaces then c.surfaces[s] else DEFAULT_SURFACE).attachment;
    UsesDoNotMatter(c.buffers, 0, false);
    var ready := if p.Attach? then c.Copied(p.buffer, outcome.copied) else c;
    if p.Attach? {
      CopyKeepsLive(c, p.buffer, outcome.copied);
    }
    if c.CommitFailure(s, outcome).Some? {
      FailedCommitIs(c, s, outcome);
    } else {
      CommittedIs(c, s, outcome);
      if s in c.surfaces && !p.Unchanged? {
        ShownIs(ready, s);
        ReplacingDoesNotMatter(ready.buffers, ready.HostOf(c.surfaces[s].CurrentBuffer()), ready.HostOf(p.Buffer()));
        SameLivesChain(c.buffers, ready.buffers, Shown(ready, s).buffers);
      }
    }
  }

  /** A commit that is carried out sends its damage and then itself, any other sends nothing. */
  lemma CommitTells(c: Scene, v: Screen, g: Client, s: u32, outcome: Outcome, order: seq<u32>)
    requires Inv(c, v) && Knows(c, g) && Enabled(c, CommitOf(s, outcome, order))
    ensures var d := c.OnCommit(s, outcome, order);
            && Knows(d, g) && d.fatal == c.Committed(s, outcome).fatal
            && Sends(c, d, g, if c.CommitFailure(s, outcome).None? && outcome.damage.Some?
                              then DamageBatch(s, outcome.damage.value) else [])
  {
    hide c.Committed, c.CommitFailure, Inv, Knows, KeepsLive, SameLives, Sends, Lists;
    var d := c.Committed(s, outcome);
    var head := if c.CommitFailure(s, outcome).None? && outcome.damage.Some? then DamageBatch(s, outcome.damage.value) else [];
    CommitKeepsLive(c, s, outcome);
    SameLivesKeeps(c, d);
    KeepsLiveKnows(c, d, g);
    CommitAppends(c, s, outcome);
    if c.CommitFailure(s, outcome).Some? {
      FailedCommitIs(c, s, outcome);
      FailedCommitKeeps(c, v, s, outcome);
      assert d.toHost == c.toHost + head;
      if c.CommitFailure(s, outcome) == Some(BadViewport) {
        SendsOnly(c, d, g, head);
      } else {
        ThenRetires(c, d, v, g, head, order);
      }
    } else {
      SucceededCommitKeeps(c, v, s, outcome);
      ThenRetires(c, d, v.Hears(CommitSurface(s)), g, head, order);
    }
  }

  // ---- the other requests, and the compositor's events ----

  lemma SurfaceGoneTells(c: Scene, v: Screen, g: Client, s: u32, order: seq<u32>)
    requires Inv(c, v) && Knows(c, g) && Enabled(c, SurfaceGone(s, order))
    ensures var d := c.OnDestroySurface(s, order);
            Knows(d, g) && Sends(c, d, g, [DestroySurface(s)]) && d.surfaces == c.surfaces - {s}
  {
    hide Inv, Knows, KeepsLive, SameLives, Sends, Lists;
    var d := c.SurfaceDestroyed(s);
    SurfaceDestroyedKeeps(c, v, s);
    SurfaceDestroyedIs(c, s);
    SameLivesKeeps(c, d);
    KeepsLiveKnows(c, d, g);
    hide c.SurfaceDestroyed;
    ThenRetires(c, d, v.Hears(DestroySurface(s)), g, [DestroySurface(s)], order);
  }

  lemma SurfaceDestroyedIs(c: Scene, s: u32)
    ensures var d := c.SurfaceDestroyed(s);
            && SameLives(c.buffers, d.buffers) && d.hosts == c.hosts && d.surfaces == c.surfaces - {s}
            && d.toHost == c.toHost + [DestroySurface(s)]
  {
    hide SameLives;
    UsesDoNotMatter(c.buffers, 0, false);
    var held := if s in c.surfaces then c.surfaces[s].CurrentBuffer() else None;
    if held.Some? && c.Resolve(held.value).Some? {
      UsesDoNotMatter(c.buffers, c.hosts[held.value], c.(surfaces := c.surfaces - {s}).HasCurrent(held.value));
      SameCurrent(c, s, held.value);
    }
  }

  lemma SameCurrent(c: Scene, s: u32, guest: u32)
    ensures c.(surfaces := c.surfaces - {s}).HasCurrent(guest)
        <==> c.(surfaces := c.surfaces - {s}, toHost := c.toHost + [DestroySurface(s)]).HasCurrent(guest)
  {
  }

  lemma NewTells(c: Scene, g: Client, guest: u32, host: u32, backing: Backing)
    requires MapsOk(c) && Knows(c, g) && guest !in c.hosts && host !in c.guests
    ensures Knows(c.NewBuffer(guest, host, backing), Asks(g, New(guest, host, backing)))
  {
    var d := c.NewBuffer(guest, host, backing);
    NewIsLive(c, guest, host, backing);
    hide MapsOk, c.IsLiveBuffer;
  }

  lemma NewIsLive(c: Scene, guest: u32, host: u32, backing: Backing)
    requires MapsOk(c) && guest !in c.hosts && host !in c.guests
    ensures var d := c.NewBuffer(guest, host, backing);
            && (forall x :: d.IsLiveBuffer(x) <==> c.IsLiveBuffer(x) || x == guest)
            && (forall x :: c.IsLiveBuffer(x) ==> x in c.hosts)
  {
    var d := c.NewBuffer(guest, host, backing);
    forall x
      ensures d.IsLiveBuffer(x) <==> c.IsLiveBuffer(x) || x == guest
    {
      assert x in c.hosts ==> c.hosts[x] != host;
    }
  }

  lemma DeletedTells(c: Scene, g: Client, host: u32)
    requires MapsOk(c) && Knows(c, g) && host in c.buffers && c.buffers[host].HostDestroyQueued?
    ensures Knows(c.OnDeleteBuffer(host), g)
  {
    var d := c.OnDeleteBuffer(host);
    forall x | c.IsLiveBuffer(x) || d.IsLiveBuffer(x)
      ensures c.IsLiveBuffer(x) && d.IsLiveBuffer(x) && d.hosts[x] == c.hosts[x]
    {
    }
  }

  lemma ClearedKeepsLive(c: Scene, guest: u32)
    ensures var d := c.ClearReferences(guest);
            KeepsLive(c, d) && d.toHost == c.toHost && d.fatal == c.fatal
  {
  }

  /** Of the live buffers only this one is gone. */
  ghost predicate Loses(c: Scene, d: Scene, guest: u32) {
    && (forall x :: d.IsLiveBuffer(x) <==> c.IsLiveBuffer(x) && x != guest)
    && (forall x :: c.IsLiveBuffer(x) && x != guest ==> x in d.hosts && d.hosts[x] == c.hosts[x])
    && (forall h :: IsActive(d.buffers, h) ==> IsActive(c.buffers, h) && SameKind(d.buffers[h].backing, c.buffers[h].backing))
  }

  lemma LosesKnows(c: Scene, d: Scene, g: Client, guest: u32)
    requires Knows(c, g) && Loses(c, d, guest)
    ensures Knows(d, Asks(g, BufferGone(guest)))
  {
  }

  lemma DeferredLoses(c: Scene, guest: u32)
    requires MapsOk(c) && c.IsLiveBuffer(guest)
    ensures Loses(c, c.(buffers := GuestDestroyedBy(c.buffers, c.hosts[guest])), guest)
  {
    var d := c.(buffers := GuestDestroyedBy(c.buffers, c.hosts[guest]));
    forall x
      ensures d.IsLiveBuffer(x) <==> c.IsLiveBuffer(x) && x != guest
    {
      assert x in c.hosts && x != guest ==> c.hosts[x] != c.hosts[guest];
    }
  }

  lemma GoneLoses(c: Scene, guest: u32)
    requires MapsOk(c) && c.IsLiveBuffer(guest)
    ensures Loses(c, c.Destroyed(guest, c.hosts[guest]), guest)
  {
    var host := c.hosts[guest];
    var d := c.Destroyed(guest, host);
    assert d.buffers == (if guest >= GUEST_SERVER_ID_START then c.buffers - {host} else c.buffers[host := HostDestroyQueued]);
    forall x
      ensures d.IsLiveBuffer(x) <==> c.IsLiveBuffer(x) && x != guest
      ensures c.IsLiveBuffer(x) && x != guest ==> x in d.hosts && d.hosts[x] == c.hosts[x]
    {
      assert x in c.hosts && x != guest ==> c.hosts[x] != host;
    }
  }

  lemma GoneIsDead(c: Scene, g: Client, guest: u32)
    requires MapsOk(c) && Knows(c, g) && c.IsLiveBuffer(guest)
    ensures Dead(Asks(g, BufferGone(guest)), c.hosts[guest])
  {
    forall x | x in g.alive && x != guest ensures g.alive[x] != c.hosts[guest] {
      assert x in c.hosts && c.guests[c.hosts[x]] == x;
    }
  }

  lemma BufferGoneTells(c: Scene, v: Screen, g: Client, guest: u32)
    requires Inv(c, v) && Knows(c, g) && c.IsLiveBuffer(guest)
    ensures var d, after := c.OnDestroyBuffer(guest), Asks(g, BufferGone(guest));
            Knows(d, after) && Sends(c, d, after, []) && d.fatal == c.fatal
  {
    hide Inv, Knows, Asks, Sends, KeepsLive, Loses, c.ClearReferences, c.Defers, Dead;
    var after := Asks(g, BufferGone(guest));
    InvMaps(c, v);
    if c.Defers(guest) {
      DeferredLoses(c, guest);
      LosesKnows(c, c.(buffers := GuestDestroyedBy(c.buffers, c.hosts[guest])), g, guest);
      SendsOnly(c, c.OnDestroyBuffer(guest), after, []);
      SameSceneKnows(c.(buffers := GuestDestroyedBy(c.buffers, c.hosts[guest])), c.OnDestroyBuffer(guest), after);
    } else {
      var b := c.Destroyed(guest, c.hosts[guest]);
      GoneLoses(c, guest);
      GoneIsDead(c, g, guest);
      LosesKnows(c, b, g, guest);
      DestroyedKeepsMaps(c, guest);
      ClearedKeepsLive(b, guest);
      KeepsLiveKnows(b, c.OnDestroyBuffer(guest), after);
      SendsDestructor(c, c.OnDestroyBuffer(guest), after, c.hosts[guest]);
    }
  }

  lemma InvMaps(c: Scene, v: Screen)
    requires Inv(c, v)
    ensures MapsOk(c)
  {
  }

  lemma SameSceneKnows(c: Scene, d: Scene, g: Client)
    requires Knows(c, g) && d.hosts == c.hosts && d.buffers == c.buffers
    ensures Knows(d, g)
  {
    UsesDoNotMatter(c.buffers, 0, false);
    SameLivesKeeps(c, d);
    KeepsLiveKnows(c, d, g);
  }

  lemma DeadIs(c: Scene, g: Client, host: u32)
    requires Knows(c, g) && (host in c.buffers ==> !c.buffers[host].GuestAlive?)
    ensures Dead(g, host)
  {
  }

  lemma ReleaseTells(c: Scene, v: Screen, g: Client, host: u32)
    requires Inv(c, v) && Knows(c, g)
    ensures var d := c.OnRelease(host);
            Knows(d, g) && Sends(c, d, g, []) && d.fatal == c.fatal && !IsAwaiting(d.buffers, host)
  {
    hide PendingOk, UsesOk, Knows, Sends, KeepsLive, SameLives, Dead;
    if host !in c.guests {
      SendsOnly(c, c, g, []);
    } else {
      var guest := c.guests[host];
      var recorded := c.(buffers := ReleasedBy(c.buffers, host));
      UsesDoNotMatter(c.buffers, host, false);
      SameLivesKeeps(c, recorded);
      KeepsLiveKnows(c, recorded, g);
      ReleaseKeepsKeys(c.buffers, host);
      if host in c.buffers && c.buffers[host].GuestDestroyed? && !c.HasPending(guest) {
        assert !recorded.HasPending(guest) && !recorded.IsLiveBuffer(guest);
        ReleasedIsDestroyed(c, v, g, host);
      } else {
        assert recorded.HasPending(guest) <==> c.HasPending(guest);
        SendsOnly(c, recorded, g, []);
      }
    }
  }

  lemma ReleasedIsDestroyed(c: Scene, v: Screen, g: Client, host: u32)
    requires Inv(c, v) && host in c.buffers && c.buffers[host].GuestDestroyed?
    requires var recorded := c.(buffers := ReleasedBy(c.buffers, host)); MapsOk(recorded) && Knows(recorded, g)
    requires !c.(buffers := ReleasedBy(c.buffers, host)).HasPending(c.guests[host])
    ensures var d := c.OnRelease(host);
            Knows(d, g) && Sends(c, d, g, []) && d.fatal == c.fatal && !IsAwaiting(d.buffers, host)
  {
    hide PendingOk, UsesOk, Knows, Sends, KeepsLive, SameLives, Dead;
    var guest := c.guests[host];
    var recorded := c.(buffers := ReleasedBy(c.buffers, host));
    ReleaseKeepsKeys(c.buffers, host);
    var b := recorded.Destroyed(guest, host);
    DestroyedKeepsMaps(recorded, guest);
    DestroyedKeepsLive(recorded, guest);
    ClearedKeepsLive(b, guest);
    KeepsLiveKnows(recorded, b, g);
    KeepsLiveKnows(b, b.ClearReferences(guest), g);
    DeadIs(recorded, g, host);
    SendsDestructor(c, b.ClearReferences(guest), g, host);
  }

  // ---- steps and runs ----

  /** What a step sends before it destroys what is no longer needed. */
  ghost function Head(c: Scene, g: Client, e: Event): seq<Request> {
    match e
    case AttachTo(s, buffer, legacy, x, y, _) =>
      if (buffer.Some? ==> buffer.value in g.alive) && (legacy || (x == 0 && y == 0)) then Announced(g, s, buffer) else []
    case CommitOf(s, outcome, _) =>
      if c.CommitFailure(s, outcome).None? && outcome.damage.Some? then DamageBatch(s, outcome.damage.value) else []
    case SurfaceGone(s, _) => [DestroySurface(s)]
    case _ => []
  }

  /** Every step sends what its request calls for, then destructors of buffers that are not
      alive, each once, and leaves the client's account in agreement. */
  lemma StepTells(c: Scene, v: Screen, g: Client, e: Event)
    requires Inv(c, v) && Knows(c, g) && Enabled(c, e)
    ensures Knows(Handle(c, e), Asks(g, e)) && Sends(c, Handle(c, e), Asks(g, e), Head(c, g, e))
  {
    hide Inv, Knows, Sends, Lists, c.CommitFailure, c.OnCommit, c.OnDestroySurface, c.OnDestroyBuffer, c.OnRelease,
         c.IsLiveBuffer, Announced;
    InvMaps(c, v);
    match e
    case New(guest, host, backing) =>
      NewTells(c, g, guest, host, backing);
      SendsOnly(c, Handle(c, e), Asks(g, e), []);
    case AttachTo(s, buffer, legacy, x, y, order) =>
      AttachAcceptedIff(c, v, g, s, buffer, legacy, x, y, order);
      if c.OnAttach(s, buffer, legacy, x, y, order).fatal {
        SendsOnly(c, Handle(c, e), g, []);
      }
    case CommitOf(s, outcome, order) => CommitTells(c, v, g, s, outcome, order);
    case SurfaceGone(s, order) => SurfaceGoneTells(c, v, g, s, order);
    case BufferGone(guest) => BufferGoneTells(c, v, g, guest);
    case Release(host) => ReleaseTells(c, v, g, host);
    case Deleted(host) =>
      DeletedTells(c, g, host);
      SendsOnly(c, Handle(c, e), g, []);
  }

  lemma BeginKnows(c: Scene)
    requires c.buffers == map[]
    ensures Knows(c, NO_BUFFERS)
  {
  }

  ghost function AsksAll(g: Client, es: seq<Event>): Client
    decreases |es|
  {
    if es == [] then g else AsksAll(Asks(g, es[0]), es[1..])
  }

  lemma {:induction false} RunKnows(c: Scene, v: Screen, g: Client, es: seq<Event>)
    requires Inv(c, v) && Knows(c, g) && Legal(c, es)
    ensures Knows(Run(c, v, es).0, AsksAll(g, es))
    decreases |es|
  {
    hide Inv, Handle, Watches, Knows, Sends;
    if es != [] {
      StepIsSafe(c, v, es[0]);
      StepTells(c, v, g, es[0]);
      RunKnows(Handle(c, es[0]), Watches(c, v, es[0]), Asks(g, es[0]), es[1..]);
    }
  }
}

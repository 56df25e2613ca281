/** Double-buffered `wl_surface` state (sommelier/src/state/render.rs). */
module Surfaces {
  import opened Prelude

  const MAX_PENDING_DAMAGE_RECTS: nat := 256

  datatype Rect = Rect(x: i32, y: i32, width: i32, height: i32)

  /** Damage collected for one commit. `Full` is a state of its own, not a large rectangle. */
  datatype DamageRegion = Empty | Rects(rects: seq<Rect>) | Full
  {
    function Push(rect: Rect): DamageRegion {
      if Full? || rect.width <= 0 || rect.height <= 0 then this
      else match this
        case Empty => Rects([rect])
        case Rects(rs) => if |rs| >= MAX_PENDING_DAMAGE_RECTS then Full else Rects(rs + [rect])
    }

    function List(): seq<Rect> {
      if Rects? then rects else []
    }
  }

  /** `wp_viewport` state; source coordinates are raw 24.8 fixed point. */
  datatype Viewport = Viewport(source: Option<Source>, destination: Option<(i32, i32)>)
  {
    predicate IsIdentity() {
      source.None? && destination.None?
    }
  }

  datatype Source = Source(x: i32, y: i32, width: i32, height: i32)

  /** The committed contents. The buffer reference may go while the size stays known. */
  datatype Content = Content(buffer: Option<u32>, dimensions: Option<(i32, i32)>)

  datatype Attachment = Unchanged | Detach | Attach(buffer: u32)
  {
    function Buffer(): Option<u32> {
      if Attach? then Some(buffer) else None
    }
  }

  datatype Surface = Surface(
    content: Option<Content>,
    pendingAttachment: Attachment,
    pendingSurfaceDamage: DamageRegion,
    pendingBufferDamage: DamageRegion,
    pendingScale: Option<i32>,
    scale: i32,
    pendingTransform: Option<i32>,
    transform: i32,
    pendingOffset: Option<(i32, i32)>,
    pendingAttachOffset: Option<(i32, i32)>,
    viewport: Option<Viewport>,
    pendingViewport: Option<Option<Viewport>>)
  {
    function CurrentBuffer(): Option<u32> {
      if content.Some? then content.value.buffer else None
    }

    /** Record the size of the current contents, unless they are not `buffer`. */
    function SetDimensions(buffer: u32, dimensions: Option<(i32, i32)>): Surface {
      if CurrentBuffer() == Some(buffer)
      then this.(content := Some(content.value.(dimensions := dimensions))) else this
    }

    /** Forget a destroyed buffer; contents of unknown size are forgotten with it. */
    function ClearReference(buffer: u32): Surface {
      if CurrentBuffer() != Some(buffer) then this
      else if content.value.dimensions.None? then this.(content := None)
      else this.(content := Some(content.value.(buffer := None)))
    }

    /** Apply and consume everything pending. */
    function Applied(): Surface {
      this.(content := match pendingAttachment
                       case Unchanged => content
                       case Detach => None
                       case Attach(buffer) => Some(Content(Some(buffer), None)),
            pendingAttachment := Unchanged,
            pendingSurfaceDamage := Empty,
            pendingBufferDamage := Empty,
            scale := if pendingScale.Some? then pendingScale.value else scale,
            pendingScale := None,
            transform := if pendingTransform.Some? then pendingTransform.value else transform,
            pendingTransform := None,
            pendingOffset := None,
            pendingAttachOffset := None,
            viewport := if pendingViewport.Some? then pendingViewport.value else viewport,
            pendingViewport := None)
    }

    /** Placement of the attached buffer; `wl_surface.offset` wins over a legacy attach offset. */
    function BufferOffset(): (i32, i32) {
      if pendingOffset.Some? then pendingOffset.value
      else if pendingAttachOffset.Some? then pendingAttachOffset.value
      else (0, 0)
    }
  }

  const DEFAULT_SURFACE: Surface :=
    Surface(None, Unchanged, Empty, Empty, None, 1, None, 0, None, None, None, None)

  /** One prepared commit: what it consumed, and the state to return to if it fails. */
  datatype Commit = Commit(
    previous: Surface,
    state: Surface,
    attachment: Attachment,
    surfaceDamage: DamageRegion,
    bufferDamage: DamageRegion,
    offset: (i32, i32))
  {
    /** A fractional source needs a destination. */
    predicate HasInvalidFractionalViewport() {
      && state.viewport.Some? && state.viewport.value.source.Some?
      && state.viewport.value.destination.None?
      && (state.viewport.value.source.value.width % 256 != 0 || state.viewport.value.source.value.height % 256 != 0)
    }
  }

  function Prepare(surface: Surface): Commit {
    Commit(surface, surface.Applied(), surface.pendingAttachment, surface.pendingSurfaceDamage,
           surface.pendingBufferDamage, surface.BufferOffset())
  }

  /** A commit with nothing pending changes nothing, so committing twice is committing once. */
  lemma CommitIsIdempotent(surface: Surface)
    ensures surface.Applied().Applied() == surface.Applied()
    ensures var again := Prepare(surface.Applied());
            again.attachment == Unchanged && again.surfaceDamage == Empty && again.bufferDamage == Empty
            && again.offset == (0, 0) && again.state == again.previous
  {
  }

  /** However many requests arrive, a region holds at most the cap, and forgets an
      individual rectangle only by becoming full. */
  ghost predicate WithinCap(region: DamageRegion) {
    region.Rects? ==> 0 < |region.rects| <= MAX_PENDING_DAMAGE_RECTS
  }

  lemma PushKeepsDamage(region: DamageRegion, rect: Rect, other: Rect)
    requires WithinCap(region)
    ensures WithinCap(region.Push(rect))
    ensures rect.width > 0 && rect.height > 0 ==> region.Push(rect).Full? || rect in region.Push(rect).List()
    ensures other in region.List() ==> region.Push(rect).Full? || other in region.Push(rect).List()
  {
  }

  // ---- double buffering ----

  /** What a client may ask of a surface between two commits. A version-5 attach carries
      no offset. */
  datatype SurfaceRequest =
    | AddDamage(rect: Rect, inBuffer: bool)
    | SetScale(scale: i32)
    | SetTransform(transform: i32)
    | SetOffset(x: i32, y: i32)
    | SetViewport(viewport: Option<Viewport>)
    | SetAttachment(buffer: Option<u32>, offset: Option<(i32, i32)>)

  /** The request as it is recorded. */
  function Pend(s: Surface, r: SurfaceRequest): Surface {
    match r
    case AddDamage(rect, inBuffer) =>
      if inBuffer then s.(pendingBufferDamage := s.pendingBufferDamage.Push(rect))
      else s.(pendingSurfaceDamage := s.pendingSurfaceDamage.Push(rect))
    case SetScale(v) => s.(pendingScale := Some(v))
    case SetTransform(v) => s.(pendingTransform := Some(v))
    case SetOffset(x, y) => s.(pendingOffset := Some((x, y)))
    case SetViewport(v) => s.(pendingViewport := Some(v))
    case SetAttachment(buffer, offset) =>
      s.(pendingAttachment := if buffer.Some? then Attach(buffer.value) else Detach, pendingAttachOffset := offset)
  }

  function PendAll(s: Surface, rs: seq<SurfaceRequest>): Surface {
    if rs == [] then s else Pend(PendAll(s, rs[..|rs| - 1]), rs[|rs| - 1])
  }

  /** The request as it would be if nothing were double-buffered. */
  function AtOnce(s: Surface, r: SurfaceRequest): Surface {
    match r
    case SetScale(v) => s.(scale := v)
    case SetTransform(v) => s.(transform := v)
    case SetViewport(v) => s.(viewport := v)
    case SetAttachment(buffer, _) => s.(content := if buffer.Some? then Some(Content(buffer, None)) else None)
    case _ => s
  }

  function AllAtOnce(s: Surface, rs: seq<SurfaceRequest>): Surface {
    if rs == [] then s else AtOnce(AllAtOnce(s, rs[..|rs| - 1]), rs[|rs| - 1])
  }

  /** Where the last requests put the buffer; an explicit offset wins over a later attach. */
  function LastOffset(rs: seq<SurfaceRequest>): Option<(i32, i32)> {
    if rs == [] then None
    else if rs[|rs| - 1].SetOffset? then Some((rs[|rs| - 1].x, rs[|rs| - 1].y))
    else LastOffset(rs[..|rs| - 1])
  }

  function LastAttachOffset(rs: seq<SurfaceRequest>): Option<(i32, i32)> {
    if rs == [] then None
    else if rs[|rs| - 1].SetAttachment? then rs[|rs| - 1].offset
    else LastAttachOffset(rs[..|rs| - 1])
  }

  /** Deferring requests to the commit has the effect of carrying them out one by one in
      the order they came, and a commit consumes them. */
  lemma {:induction false} CommitAppliesRequests(s: Surface, rs: seq<SurfaceRequest>)
    ensures Prepare(PendAll(s, rs)).state == AllAtOnce(s.Applied(), rs)
    ensures var placed := Prepare(PendAll(s.Applied(), rs)).offset;
            placed == if LastOffset(rs).Some? then LastOffset(rs).value
                      else if LastAttachOffset(rs).Some? then LastAttachOffset(rs).value
                      else (0, 0)
  {
    OffsetsPend(s, rs);
    if rs != [] {
      CommitAppliesRequests(s, rs[..|rs| - 1]);
    }
  }

  lemma {:induction false} OffsetsPend(s: Surface, rs: seq<SurfaceRequest>)
    ensures PendAll(s.Applied(), rs).pendingOffset == LastOffset(rs)
    ensures PendAll(s.Applied(), rs).pendingAttachOffset == LastAttachOffset(rs)
  {
    if rs != [] {
      OffsetsPend(s, rs[..|rs| - 1]);
    }
  }

  /** A commit consumes all damage asked for since the last one, or the whole surface. */
  lemma {:induction false} CommitCollectsDamage(s: Surface, rs: seq<SurfaceRequest>, rect: Rect, inBuffer: bool)
    requires WithinCap(s.pendingSurfaceDamage) && WithinCap(s.pendingBufferDamage)
    requires AddDamage(rect, inBuffer) in rs && rect.width > 0 && rect.height > 0
    ensures var commit := Prepare(PendAll(s, rs));
            var region := if inBuffer then commit.bufferDamage else commit.surfaceDamage;
            region.Full? || rect in region.List()
  {
    var init, last := rs[..|rs| - 1], rs[|rs| - 1];
    CapsHold(s, init);
    var before := PendAll(s, init);
    if last == AddDamage(rect, inBuffer) {
      PushKeepsDamage(if inBuffer then before.pendingBufferDamage else before.pendingSurfaceDamage, rect, rect);
    } else {
      assert AddDamage(rect, inBuffer) in init;
      CommitCollectsDamage(s, init, rect, inBuffer);
      if last.AddDamage? {
        PushKeepsDamage(if inBuffer then before.pendingBufferDamage else before.pendingSurfaceDamage, last.rect, rect);
      }
    }
  }

  lemma {:induction false} CapsHold(s: Surface, rs: seq<SurfaceRequest>)
    requires WithinCap(s.pendingSurfaceDamage) && WithinCap(s.pendingBufferDamage)
    ensures WithinCap(PendAll(s, rs).pendingSurfaceDamage) && WithinCap(PendAll(s, rs).pendingBufferDamage)
  {
    if rs != [] {
      CapsHold(s, rs[..|rs| - 1]);
    }
  }
}

/**
 Damage of one commit: coalescing rectangles, and mapping buffer pixels to surface
 coordinates through scale and viewport (sommelier/src/handler/shm.rs and
 compositor.rs). Floating point is modelled by real arithmetic.
 */
module DamageMapping {
  import opened Prelude
  import opened Surfaces

  const I32_MAX: int := 0x7fff_ffff
  const I32_MIN: int := -0x8000_0000

  // ---- coalescing ----

  /** Half-open edges, in unbounded integers as in the 64-bit original. */
  datatype Edges = Edges(x0: int, y0: int, x1: int, y1: int)
  {
    predicate Positive() {
      x0 < x1 && y0 < y1
    }

    predicate Fits() {
      && I32_MIN <= x0 <= I32_MAX && I32_MIN <= y0 <= I32_MAX && x1 <= I32_MAX && y1 <= I32_MAX
      && x1 - x0 <= I32_MAX && y1 - y0 <= I32_MAX
    }

    predicate Touches(other: Edges) {
      x0 <= other.x1 && other.x0 <= x1 && y0 <= other.y1 && other.y0 <= y1
    }

    /** The smallest rectangle around both. */
    function Around(other: Edges): Edges {
      Edges(if x0 < other.x0 then x0 else other.x0, if y0 < other.y0 then y0 else other.y0,
            if x1 > other.x1 then x1 else other.x1, if y1 > other.y1 then y1 else other.y1)
    }

    function Area(): int {
      (x1 - x0) * (y1 - y0)
    }

    predicate Contains(other: Edges) {
      x0 <= other.x0 && y0 <= other.y0 && other.x1 <= x1 && other.y1 <= y1
    }

    /** At most half of the union's area may be clean. */
    predicate Merges(other: Edges) {
      && Touches(other) && Around(other).Fits()
      && 2 * Around(other).Area() <= 3 * (Area() + other.Area())
    }
  }

  function EdgesOf(r: Rect): Option<Edges> {
    if r.width <= 0 || r.height <= 0 then None
    else Some(Edges(r.x, r.y, r.x + r.width, r.y + r.height))
  }

  function RectOf(e: Edges): (r: Rect)
    requires e.Positive() && e.Fits()
    ensures EdgesOf(r) == Some(e)
  {
    Rect(e.x0, e.y0, e.x1 - e.x0, e.y1 - e.y0)
  }

  predicate AllPositive(rects: seq<Rect>) {
    forall r :: r in rects ==> EdgesOf(r).Some?
  }

  predicate Covers(rects: seq<Rect>, e: Edges) {
    exists r :: r in rects && EdgesOf(r).Some? && EdgesOf(r).value.Contains(e)
  }

  /** No two rectangles are still worth merging. */
  predicate Apart(rects: seq<Rect>) {
    forall i, j | 0 <= i < |rects| && 0 <= j < |rects| && i != j ::
      EdgesOf(rects[i]).Some? && EdgesOf(rects[j]).Some? ==> !EdgesOf(rects[i]).value.Merges(EdgesOf(rects[j]).value)
  }

  lemma MergesIsSymmetric(a: Edges, b: Edges)
    ensures a.Merges(b) <==> b.Merges(a)
  {
    assert a.Around(b) == b.Around(a);
  }

  /** The first rectangle worth merging with `candidate`. */
  method FindMerge(merged: seq<Rect>, candidate: Edges) returns (index: Option<nat>)
    requires AllPositive(merged)
    ensures index.Some? ==> index.value < |merged| && candidate.Merges(EdgesOf(merged[index.value]).value)
    ensures index.None? ==> forall i | 0 <= i < |merged| :: !candidate.Merges(EdgesOf(merged[i]).value)
  {
    var i := 0;
    while i < |merged|
      invariant 0 <= i <= |merged|
      invariant forall j | 0 <= j < i :: !candidate.Merges(EdgesOf(merged[j]).value)
    {
      if candidate.Merges(EdgesOf(merged[i]).value) {
        return Some(i);
      }
      i := i + 1;
    }
    index := None;
  }

  function SwapRemoved<T>(s: seq<T>, i: nat): (r: seq<T>)
    requires i < |s|
    ensures |r| == |s| - 1
    ensures forall x :: x in s ==> x in r || x == s[i]
    ensures forall x :: x in r ==> x in s
  {
    var r := if i == |s| - 1 then s[..i] else s[..i] + [s[|s| - 1]] + s[i + 1..|s| - 1];
    assert forall x :: x in s ==> x in r || x == s[i];
    r
  }

  lemma SwapRemovedAt<T>(s: seq<T>, i: nat)
    requires i < |s|
    ensures forall k | 0 <= k < |s| - 1 :: SwapRemoved(s, i)[k] == if k == i then s[|s| - 1] else s[k]
  {
  }

  lemma SwapRemovedApart(s: seq<Rect>, i: nat)
    requires i < |s| && Apart(s)
    ensures Apart(SwapRemoved(s, i))
  {
    SwapRemovedAt(s, i);
    hide SwapRemoved;
  }

  /** Around both, nothing either covered is lost. */
  lemma MergeKeepsCover(previous: seq<Rect>, i: nat, candidate: Edges, e: Edges)
    requires i < |previous| && AllPositive(previous)
    requires Covers(previous, e) || candidate.Contains(e)
    ensures Covers(SwapRemoved(previous, i), e) || candidate.Around(EdgesOf(previous[i]).value).Contains(e)
  {
    if Covers(previous, e) {
      var r :| r in previous && EdgesOf(r).Some? && EdgesOf(r).value.Contains(e);
      assert r in SwapRemoved(previous, i) || r == previous[i];
    }
  }

  lemma MergedFits(a: Edges, b: Edges)
    requires a.Merges(b)
    ensures a.Around(b).Fits()
  {
  }

  // ---- how a rectangle came about ----

  /** A rectangle of the damage, or the smallest one around two others. */
  datatype Origin = Damaged(edges: Edges) | Union(first: Origin, second: Origin)

  function Box(o: Origin): Edges {
    match o
    case Damaged(edges) => edges
    case Union(first, second) => Box(first).Around(Box(second))
  }

  /** No two rectangles were merged that were not worth it. */
  predicate Sensible(o: Origin) {
    o.Union? ==> Sensible(o.first) && Sensible(o.second) && Box(o.first).Merges(Box(o.second))
  }

  function Parts(o: Origin): multiset<Edges> {
    match o
    case Damaged(edges) => multiset{edges}
    case Union(first, second) => Parts(first) + Parts(second)
  }

  function AllParts(os: seq<Origin>): multiset<Edges> {
    if os == [] then multiset{} else AllParts(os[..|os| - 1]) + Parts(os[|os| - 1])
  }

  /** The rectangles of the damage that are not empty. */
  function DamagedParts(damage: seq<Rect>): multiset<Edges> {
    if damage == [] then multiset{}
    else DamagedParts(damage[..|damage| - 1])
         + (match EdgesOf(damage[|damage| - 1]) case Some(edges) => multiset{edges} case None => multiset{})
  }

  predicate Explains(os: seq<Origin>, rects: seq<Rect>) {
    |os| == |rects| && forall i | 0 <= i < |os| :: Sensible(os[i]) && EdgesOf(rects[i]) == Some(Box(os[i]))
  }

  lemma {:induction false} PartsOfBoth(a: seq<Origin>, b: seq<Origin>)
    ensures AllParts(a + b) == AllParts(a) + AllParts(b)
  {
    hide Parts;
    if b == [] {
      assert a + b == a;
    } else {
      PartsOfBoth(a, b[..|b| - 1]);
      assert (a + b)[..|a + b| - 1] == a + b[..|b| - 1];
    }
  }

  lemma PartsOfOne(o: Origin)
    ensures AllParts([o]) == Parts(o)
  {
    assert [o][..0] == [];
  }

  lemma PartsSwapped(a: seq<Origin>, x: Origin, b: seq<Origin>, y: Origin)
    ensures AllParts(a + [y] + b) + Parts(x) == AllParts(a + [x] + b + [y])
  {
    hide Parts, AllParts;
    PartsOfOne(x);
    PartsOfOne(y);
    PartsOfBoth(a, [x]);
    PartsOfBoth(a, [y]);
    PartsOfBoth(a + [x], b);
    PartsOfBoth(a + [y], b);
    PartsOfBoth(a + [x] + b, [y]);
  }

  lemma SwapRemovedIs<T>(s: seq<T>, i: nat)
    requires i < |s|
    ensures var last := |s| - 1;
            if i < last then
              && s == s[..i] + [s[i]] + s[i + 1..last] + [s[last]]
              && SwapRemoved(s, i) == s[..i] + [s[last]] + s[i + 1..last]
            else
              s == s[..i] + [s[i]] && SwapRemoved(s, i) == s[..i]
  {
  }

  lemma SwapRemovedParts(os: seq<Origin>, i: nat)
    requires i < |os|
    ensures AllParts(SwapRemoved(os, i)) + Parts(os[i]) == AllParts(os)
  {
    hide Parts, AllParts, SwapRemoved;
    var last := |os| - 1;
    SwapRemovedIs(os, i);
    if i < last {
      var a, b := os[..i], os[i + 1..last];
      PartsSwapped(a, os[i], b, os[last]);
      calc {
        AllParts(SwapRemoved(os, i)) + Parts(os[i]);
        AllParts(a + [os[last]] + b) + Parts(os[i]);
        AllParts(a + [os[i]] + b + [os[last]]);
        AllParts(os);
      }
    } else {
      PartsOfBoth(os[..i], [os[i]]);
      PartsOfOne(os[i]);
    }
  }

  lemma SwapRemovedExplains(os: seq<Origin>, rects: seq<Rect>, i: nat)
    requires i < |os| && Explains(os, rects)
    ensures Explains(SwapRemoved(os, i), SwapRemoved(rects, i))
  {
    SwapRemovedAt(os, i);
    SwapRemovedAt(rects, i);
    hide SwapRemoved, Sensible, Box;
  }

  lemma AppendedExplains(os: seq<Origin>, rects: seq<Rect>, o: Origin, rect: Rect)
    requires Explains(os, rects) && Sensible(o) && EdgesOf(rect) == Some(Box(o))
    ensures Explains(os + [o], rects + [rect]) && AllParts(os + [o]) == AllParts(os) + Parts(o)
  {
    hide Sensible, Box, Parts;
    PartsOfBoth(os, [o]);
    PartsOfOne(o);
  }

  /** One more merge: where the two rectangles came from. */
  lemma UnionExplains(os: seq<Origin>, rects: seq<Rect>, i: nat, o: Origin)
    requires i < |os| && Explains(os, rects) && Sensible(o) && Box(o).Merges(Box(os[i]))
    ensures Sensible(Union(o, os[i])) && Box(Union(o, os[i])) == Box(o).Around(Box(os[i]))
    ensures Explains(SwapRemoved(os, i), SwapRemoved(rects, i))
    ensures AllParts(SwapRemoved(os, i)) + Parts(Union(o, os[i])) == AllParts(os) + Parts(o)
  {
    SwapRemovedExplains(os, rects, i);
    SwapRemovedParts(os, i);
    hide SwapRemoved, AllParts;
  }

  /** Rectangles touch when their edges included they have a point in common. */
  lemma TouchesIff(a: Edges, b: Edges)
    requires a.Positive() && b.Positive()
    ensures a.Touches(b) <==>
            exists x, y :: a.Contains(Edges(x, y, x, y)) && b.Contains(Edges(x, y, x, y))
  {
    if a.Touches(b) {
      var x, y := if a.x0 < b.x0 then b.x0 else a.x0, if a.y0 < b.y0 then b.y0 else a.y0;
      assert a.Contains(Edges(x, y, x, y)) && b.Contains(Edges(x, y, x, y));
    }
  }

  /** Merge `rect` into the list, repeatedly, until nothing more is worth merging. */
  method Absorb(before: seq<Rect>, rect: Rect, edges: Edges, ghost from: seq<Origin>)
      returns (merged: seq<Rect>, ghost origins: seq<Origin>)
    requires EdgesOf(rect) == Some(edges) && AllPositive(before) && Apart(before) && Explains(from, before)
    ensures AllPositive(merged) && Apart(merged)
    ensures Covers(merged, edges)
    ensures forall e: Edges :: Covers(before, e) ==> Covers(merged, e)
    ensures Explains(origins, merged) && AllParts(origins) == AllParts(from) + multiset{edges}
  {
    hide edges.Merges, Covers, Apart, SwapRemoved, Explains, AllParts, Parts, Sensible, Box;
    merged, origins := before, from;
    var candidate := edges;
    ghost var origin := Damaged(edges);
    DamagedIs(edges);
    var index := FindMerge(merged, candidate);
    while index.Some?
      invariant AllPositive(merged) && Apart(merged) && candidate.Positive() && candidate.Contains(edges)
      invariant candidate.Fits() || candidate == edges
      invariant forall e: Edges :: Covers(before, e) ==> Covers(merged, e) || candidate.Contains(e)
      invariant index.Some? ==> 0 <= index.value < |merged| && candidate.Merges(EdgesOf(merged[index.value]).value)
      invariant index.None? ==> forall i | 0 <= i < |merged| :: !candidate.Merges(EdgesOf(merged[i]).value)
      invariant Explains(origins, merged) && Sensible(origin) && Box(origin) == candidate
      invariant AllParts(origins) + Parts(origin) == AllParts(from) + multiset{edges}
      decreases |merged|
    {
      var existing := EdgesOf(merged[index.value]).value;
      MergedFits(candidate, existing);
      SwapRemovedApart(merged, index.value);
      ExplainedIs(origins, merged, index.value);
      UnionExplains(origins, merged, index.value, origin);
      forall e: Edges | Covers(before, e)
        ensures Covers(SwapRemoved(merged, index.value), e) || candidate.Around(existing).Contains(e)
      {
        MergeKeepsCover(merged, index.value, candidate, e);
      }
      origin, origins := Union(origin, origins[index.value]), SwapRemoved(origins, index.value);
      merged := SwapRemoved(merged, index.value);
      candidate := candidate.Around(existing);
      index := FindMerge(merged, candidate);
    }
    ghost var kept := merged;
    var last := if candidate.Fits() then RectOf(candidate) else rect;
    assert EdgesOf(last) == Some(candidate);
    AppendedExplains(origins, merged, origin, last);
    merged, origins := merged + [last], origins + [origin];
    Appended(kept, last, candidate);
  }

  lemma DamagedIs(edges: Edges)
    ensures Sensible(Damaged(edges)) && Box(Damaged(edges)) == edges && Parts(Damaged(edges)) == multiset{edges}
  {
  }

  lemma ExplainedIs(os: seq<Origin>, rects: seq<Rect>, i: nat)
    requires Explains(os, rects) && i < |rects|
    ensures |os| == |rects| && EdgesOf(rects[i]) == Some(Box(os[i]))
  {
  }

  lemma Appended(kept: seq<Rect>, last: Rect, candidate: Edges)
    requires AllPositive(kept) && Apart(kept) && EdgesOf(last) == Some(candidate)
    requires forall i | 0 <= i < |kept| :: !candidate.Merges(EdgesOf(kept[i]).value)
    ensures AllPositive(kept + [last]) && Apart(kept + [last])
    ensures forall e: Edges :: Covers(kept, e) || candidate.Contains(e) ==> Covers(kept + [last], e)
  {
    var merged := kept + [last];
    assert last in merged;
    forall e: Edges | Covers(kept, e) ensures Covers(merged, e) {
      var r :| r in kept && EdgesOf(r).Some? && EdgesOf(r).value.Contains(e);
      assert r in merged;
    }
    forall i | 0 <= i < |kept| ensures !EdgesOf(kept[i]).value.Merges(candidate) {
      MergesIsSymmetric(EdgesOf(kept[i]).value, candidate);
    }
  }

  /** Every damaged rectangle lies inside one of the result, no two of the result are worth
      merging any more, and none came about but by merging damaged rectangles, each of them
      once, where it was worth it. */
  method Coalesce(damage: seq<Rect>) returns (merged: seq<Rect>, ghost origins: seq<Origin>)
    ensures AllPositive(merged) && Apart(merged)
    ensures forall r :: r in damage && EdgesOf(r).Some? ==> Covers(merged, EdgesOf(r).value)
    ensures Explains(origins, merged) && AllParts(origins) == DamagedParts(damage)
  {
    hide Explains, AllParts, Apart, Covers;
    merged, origins := [], [];
    NothingToExplain();
    var i := 0;
    while i < |damage|
      invariant 0 <= i <= |damage|
      invariant AllPositive(merged) && Apart(merged)
      invariant forall r :: r in damage[..i] && EdgesOf(r).Some? ==> Covers(merged, EdgesOf(r).value)
      invariant Explains(origins, merged) && AllParts(origins) == DamagedParts(damage[..i])
    {
      assert damage[..i + 1] == damage[..i] + [damage[i]] && damage[..i + 1][..i] == damage[..i];
      var edges := EdgesOf(damage[i]);
      if edges.Some? {
        merged, origins := Absorb(merged, damage[i], edges.value, origins);
      }
      i := i + 1;
    }
    assert damage[..|damage|] == damage;
  }

  lemma NothingToExplain()
    ensures Explains([], []) && AllParts([]) == multiset{} && Apart([])
  {
  }

  // ---- mapping buffer pixels to the surface ----

  const DAMAGE_MIN: int := -214_748_364
  const DAMAGE_MAX: int := 214_748_364

  function Clamp(v: int): int {
    if v < DAMAGE_MIN then DAMAGE_MIN else if v > DAMAGE_MAX then DAMAGE_MAX else v
  }

  function Trunc(r: real): int {
    if r >= 0.0 then r.Floor else -(-r).Floor
  }

  function Ceil(r: real): int {
    -(-r).Floor
  }

  function Saturate(v: int): i32 {
    if v < I32_MIN then I32_MIN else if v > I32_MAX then I32_MAX else v
  }

  function AtLeastOne(v: int): int {
    if v < 1 then 1 else v
  }

  /** The state viewport requests can commit, together with a positive scale. */
  predicate Committable(s: Surface) {
    && s.scale >= 1
    && (s.viewport.Some? && s.viewport.value.source.Some? ==>
          var source := s.viewport.value.source.value; source.x >= 0 && source.y >= 0 && source.width > 0 && source.height > 0)
    && (s.viewport.Some? && s.viewport.value.destination.Some? ==>
          s.viewport.value.destination.value.0 > 0 && s.viewport.value.destination.value.1 > 0)
  }

  /** One axis of a viewport: where the source starts, its size, and the destination size. */
  datatype Axis = Axis(scale: int, source: Option<(int, int)>, destination: Option<int>)
  {
    predicate Valid() {
      && scale >= 1
      && (source.Some? ==> source.value.0 >= 0 && source.value.1 > 0)
      && (destination.Some? ==> destination.value > 0)
    }

    /** How many buffer pixels the code takes one surface unit to be. */
    function Ratio(extent: int): real
      requires Valid() && extent >= 1
    {
      if destination.None? then scale as real
      else if source.None? then scale as real * (extent as real / destination.value as real)
      else scale as real * (extent as real / destination.value as real)
           * (source.value.1 as real / 256.0 / extent as real)
    }

    /** The whole part of the source offset, which the code subtracts from buffer pixels. */
    function Offset(): int {
      if source.Some? then source.value.0 / 256 else 0
    }

    function Mapped(extent: int, pixel: real): real
      requires Valid() && extent >= 1 && Ratio(extent) > 0.0
    {
      (pixel - Offset() as real) / Ratio(extent)
    }

    /** Where `wp_viewport` puts a buffer pixel: scale first, then crop, then stretch. */
    function Image(extent: int, pixel: real): real
      requires Valid() && extent >= 1
    {
      var unscaled := pixel / scale as real;
      var start := if source.Some? then source.value.0 as real / 256.0 else 0.0;
      var size := if source.Some? then source.value.1 as real / 256.0 else extent as real / scale as real;
      if destination.Some? then (unscaled - start) * (destination.value as real / size) else unscaled - start
    }

    /** The part of the surface this axis fills. */
    function Size(extent: int): real
      requires Valid() && extent >= 1
    {
      if destination.Some? then destination.value as real
      else if source.Some? then source.value.1 as real / 256.0
      else extent as real / scale as real
    }

    /** Whether the code's mapping of damage, with `outset` pixels of it on either side,
        keeps up with the image: there is no viewport, or nothing is scaled, or the
        scaled start of the source is close enough to the truncated one. */
    predicate Encloses(outset: nat)
      requires outset <= 1
    {
      if source.None? then scale == 1 || destination.None?
      else scale * source.value.0 <= 256 * Offset() + 256 * (1 - outset)
    }
  }

  function Horizontal(s: Surface): Axis {
    if s.viewport.None? then Axis(s.scale, None, None)
    else
      var v := s.viewport.value;
      Axis(s.scale,
           if v.source.Some? then Some((v.source.value.x, v.source.value.width)) else None,
           if v.destination.Some? then Some(v.destination.value.0) else None)
  }

  function Vertical(s: Surface): Axis {
    if s.viewport.None? then Axis(s.scale, None, None)
    else
      var v := s.viewport.value;
      Axis(s.scale,
           if v.source.Some? then Some((v.source.value.y, v.source.value.height)) else None,
           if v.destination.Some? then Some(v.destination.value.1) else None)
  }

  lemma RatioIsPositive(a: Axis, extent: int)
    requires a.Valid() && extent >= 1
    ensures a.Ratio(extent) > 0.0
    ensures a.source.Some? && a.destination.Some? ==>
              a.Ratio(extent) == a.scale as real * (a.source.value.1 as real / 256.0) / a.destination.value as real
  {
  }

  lemma ImageIs(a: Axis, extent: int, pixel: real)
    requires a.Valid() && extent >= 1
    ensures a.Ratio(extent) > 0.0
    ensures a.source.Some? ==>
              a.Image(extent, pixel) == (pixel - a.scale as real * (a.source.value.0 as real / 256.0)) / a.Ratio(extent)
    ensures a.source.None? && a.destination.None? ==> a.Image(extent, pixel) == pixel / a.Ratio(extent)
    ensures a.source.None? && a.destination.Some? ==> a.Image(extent, pixel) == a.scale as real * pixel / a.Ratio(extent)
  {
    hide a.Image;
    RatioIsPositive(a, extent);
    if a.destination.None? {
      CroppedImage(a, extent, pixel);
    } else if a.source.Some? {
      StretchedImage(a, extent, pixel);
    } else {
      WholeImage(a, extent, pixel);
    }
  }

  lemma CroppedImage(a: Axis, extent: int, pixel: real)
    requires a.Valid() && extent >= 1 && a.destination.None?
    ensures a.source.None? ==> a.Image(extent, pixel) == pixel / a.scale as real
    ensures a.source.Some? ==>
              a.Image(extent, pixel) == (pixel - a.scale as real * (a.source.value.0 as real / 256.0)) / a.scale as real
  {
    if a.source.Some? {
      Crop(pixel, a.scale as real, a.source.value.0 as real / 256.0);
    }
  }

  lemma StretchedImage(a: Axis, extent: int, pixel: real)
    requires a.Valid() && extent >= 1 && a.destination.Some? && a.source.Some?
    ensures var r := a.scale as real * (a.source.value.1 as real / 256.0) / a.destination.value as real;
            r > 0.0 && a.Image(extent, pixel) == (pixel - a.scale as real * (a.source.value.0 as real / 256.0)) / r
  {
    hide a.Ratio;
    Stretch(pixel, a.scale as real, a.source.value.0 as real / 256.0, a.destination.value as real,
            a.source.value.1 as real / 256.0);
  }

  lemma WholeImage(a: Axis, extent: int, pixel: real)
    requires a.Valid() && extent >= 1 && a.destination.Some? && a.source.None?
    ensures a.Image(extent, pixel) == a.scale as real * pixel / (a.scale as real * (extent as real / a.destination.value as real))
  {
    StretchWhole(pixel, a.scale as real, a.destination.value as real, extent as real);
  }

  lemma Quotient(x: real, y: real, r: real)
    requires r > 0.0 && x * r == y
    ensures x == y / r
  {
  }

  lemma Crop(p: real, s: real, start: real)
    requires s > 0.0
    ensures p / s - start == (p - s * start) / s
  {
    assert (p / s - start) * s == p - s * start;
    Quotient(p / s - start, p - s * start, s);
  }

  lemma Stretch(p: real, s: real, start: real, d: real, w: real)
    requires s > 0.0 && d > 0.0 && w > 0.0
    ensures s * w / d > 0.0
    ensures (p / s - start) * (d / w) == (p - s * start) / (s * w / d)
  {
    var a, b, r := p / s - start, d / w, s * w / d;
    assert s * w > 0.0;
    Crop(p, s, start);
    assert a * s == p - s * start;
    assert b * w == d && r * d == s * w;
    assert b * r == s by {
      assert b * r * d == b * (s * w) == s * d;
      Quotient(b * r, s * d, d);
      Quotient(s, s * d, d);
    }
    assert a * b * r == a * (b * r) == a * s;
    Quotient(a * b, p - s * start, r);
  }

  lemma StretchWhole(p: real, s: real, d: real, e: real)
    requires s > 0.0 && d > 0.0 && e > 0.0
    ensures s * (e / d) > 0.0
    ensures (p / s - 0.0) * (d / (e / s)) == s * p / (s * (e / d))
  {
    Stretch(p, s, 0.0, d, Share(e, s));
    WholeShare(s, d, e);
    assert p - s * 0.0 == p;
    Cancels(p, s, e / d);
  }

  function Share(e: real, s: real): (w: real)
    requires e > 0.0 && s > 0.0
    ensures w == e / s && w > 0.0
  {
    e / s
  }

  lemma WholeShare(s: real, d: real, e: real)
    requires s > 0.0 && d > 0.0 && e > 0.0
    ensures e / s > 0.0 && s * (e / s) / d == e / d && e / d > 0.0
  {
  }

  lemma Cancels(p: real, s: real, q: real)
    requires s > 0.0 && q > 0.0
    ensures s * q > 0.0 && p / q == s * p / (s * q)
  {
    assert p / q * (s * q) == s * p;
    Quotient(p / q, s * p, s * q);
  }

  lemma DividesMonotone(x: real, y: real, d: real)
    requires d > 0.0
    ensures x <= y <==> x / d <= y / d
  {
  }

  lemma Product(scale: int, x: int)
    requires scale >= 1 && x >= 0
    ensures scale * x >= x
    ensures scale as real * (x as real / 256.0) == (scale * x) as real / 256.0
  {
    assert scale as real * x as real == (scale * x) as real;
  }

  lemma ScaledStart(scale: int, x: int, f: int, outset: nat)
    requires scale >= 1 && x >= 256 * f && f >= 0 && outset <= 1
    ensures scale as real * (x as real / 256.0) <= (f + 1 - outset) as real
       <==> scale * x <= 256 * f + 256 * (1 - outset)
    ensures f as real <= scale as real * (x as real / 256.0)
  {
    Product(scale, x);
    assert scale as real * (x as real / 256.0) == (scale * x) as real / 256.0;
  }

  /** The rounded interval of one axis. */
  function Interval(a: Axis, extent: int, from: i32, length: i32): (i32, i32)
    requires a.Valid() && extent >= 1 && a.Ratio(extent) > 0.0
  {
    var start := a.Mapped(extent, Clamp(from - 1) as real);
    var end := a.Mapped(extent, Clamp(from + length + 1) as real);
    var low, high := Trunc(if start < end then start else end), Ceil(if start < end then end else start);
    var left := if low < DAMAGE_MIN then DAMAGE_MIN else low;
    var right := if high > DAMAGE_MAX then DAMAGE_MAX else high;
    (Saturate(left), Saturate(AtLeastOne(right - left)))
  }

  predicate Includes(interval: (i32, i32), q: real) {
    interval.0 as real <= q <= (interval.0 + interval.1) as real
  }

  /** Rounding loses nothing between 0 and the damage limit. */
  lemma RoundingCovers(a: Axis, extent: int, from: i32, length: i32, q: real)
    requires a.Valid() && extent >= 1 && a.Ratio(extent) > 0.0
    requires 0.0 <= q <= DAMAGE_MAX as real
    requires a.Mapped(extent, Clamp(from - 1) as real) <= q <= a.Mapped(extent, Clamp(from + length + 1) as real)
    ensures Includes(Interval(a, extent, from, length), q)
  {
  }

  lemma ClampBelow(v: int, p: real)
    requires v as real <= p && 0.0 <= p + 1.0
    ensures Clamp(v) as real <= p
  {
  }

  /** The image of every damaged position on one axis, and of `outset` pixels around it,
      lies in the reported interval between 0 and the damage limit. */
  lemma AxisCovers(a: Axis, extent: int, from: i32, length: i32, p: real, outset: nat)
    requires a.Valid() && extent >= 1 && outset <= 1 && a.Encloses(outset) && length > 0
    requires (from - outset) as real <= p <= (from + length + outset) as real && p <= DAMAGE_MAX as real
    requires 0.0 <= a.Image(extent, p) <= DAMAGE_MAX as real
    ensures a.Ratio(extent) > 0.0 && Includes(Interval(a, extent, from, length), a.Image(extent, p))
  {
    hide a.Ratio, a.Image;
    ShiftedImage(a, extent, p, outset);
    var r, f, shift := a.Ratio(extent), a.Offset() as real, Shift(a);
    DividesMonotone(0.0, p - shift, r);
    var start, end := Clamp(from - 1), Clamp(from + length + 1);
    ClampBelow(from - 1, p - (1 - outset) as real);
    assert p - shift <= end as real - f;
    DividesMonotone(start as real - f, p - shift, r);
    DividesMonotone(p - shift, end as real - f, r);
    assert a.Mapped(extent, start as real) == (start as real - f) / r;
    assert a.Mapped(extent, end as real) == (end as real - f) / r;
    hide a.Mapped;
    RoundingCovers(a, extent, from, length, a.Image(extent, p));
  }

  /** Where the source begins, in buffer pixels. */
  function Shift(a: Axis): real {
    if a.source.Some? then a.scale as real * (a.source.value.0 as real / 256.0) else 0.0
  }

  lemma ShiftedImage(a: Axis, extent: int, p: real, outset: nat)
    requires a.Valid() && extent >= 1 && outset <= 1 && a.Encloses(outset)
    ensures a.Ratio(extent) > 0.0 && a.Image(extent, p) == (p - Shift(a)) / a.Ratio(extent)
    ensures Shift(a) <= (a.Offset() + 1 - outset) as real && a.Offset() as real <= Shift(a) && 0.0 <= Shift(a)
  {
    hide a.Ratio, a.Image;
    ImageIs(a, extent, p);
    if a.source.Some? {
      var x, f := a.source.value.0, a.source.value.0 / 256;
      Product(a.scale, x);
      ScaledStart(a.scale, x, f, outset);
      assert x >= 256 * f;
    } else if a.destination.Some? {
      assert a.scale == 1;
    }
  }

  /** It is a single unit, or begins less than one unit before `low` and ends less than one after `high`. */
  predicate Within(interval: (i32, i32), low: real, high: real) {
    && low - 1.0 < interval.0 as real
    && (interval.1 == 1 || (interval.0 + interval.1) as real < high + 1.0)
  }

  lemma RoundingIsTight(a: Axis, extent: int, from: i32, length: i32)
    requires a.Valid() && extent >= 1 && a.Ratio(extent) > 0.0
    requires DAMAGE_MIN <= from - 1 && from + length + 1 <= DAMAGE_MAX && length > 0
    requires a.Mapped(extent, (from - 1) as real) <= a.Mapped(extent, (from + length + 1) as real) <= DAMAGE_MAX as real
    ensures Within(Interval(a, extent, from, length),
                   a.Mapped(extent, (from - 1) as real), a.Mapped(extent, (from + length + 1) as real))
  {
    hide a.Mapped, a.Ratio;
    assert Clamp(from - 1) == from - 1 && Clamp(from + length + 1) == from + length + 1;
  }

  /** Nor is more reported than that: an axis that encloses reports the image of the damage
      with one pixel before it and two after, rounded outwards to whole units. */
  lemma AxisIsTight(a: Axis, extent: int, from: i32, length: i32)
    requires a.Valid() && extent >= 1 && a.Encloses(0) && length > 0
    requires DAMAGE_MIN <= from - 1 && from + length + 1 <= DAMAGE_MAX
    requires a.Image(extent, (from + length + 2) as real) <= DAMAGE_MAX as real
    ensures a.Ratio(extent) > 0.0
    ensures Within(Interval(a, extent, from, length),
                   a.Image(extent, (from - 1) as real), a.Image(extent, (from + length + 2) as real))
  {
    hide a.Ratio, a.Image, Interval, a.Encloses;
    var first, last := (from - 1) as real, (from + length + 1) as real;
    ShiftedImage(a, extent, first, 0);
    ShiftedImage(a, extent, last + 1.0, 0);
    var r, f, shift := a.Ratio(extent), a.Offset() as real, Shift(a);
    DividesMonotone(first - shift, first - f, r);
    DividesMonotone(first - f, last - f, r);
    DividesMonotone(last - f, last + 1.0 - shift, r);
    assert last + 1.0 == (from + length + 2) as real;
    RoundingIsTight(a, extent, from, length);
  }

  // ---- exactly which axes are always reported in full ----

  /** Some damage in a buffer of whole surface units that holds the source, all of it
      within the range damage is kept in. */
  predicate Setting(a: Axis, extent: int, from: int, length: int) {
    && a.Valid() && 1 <= extent <= DAMAGE_MAX && extent % a.scale == 0
    && (a.source.Some? ==> a.source.value.1 <= I32_MAX && a.scale * (a.source.value.0 + a.source.value.1) <= 256 * extent)
    && (a.destination.Some? ==> a.destination.value <= I32_MAX)
    && 0 <= from && 0 < length && from + length <= extent
  }

  /** The position lies in the buffer and the viewport shows it. */
  predicate Shown(a: Axis, extent: int, p: real)
    requires a.Valid() && extent >= 1
  {
    && 0.0 <= p <= extent as real
    && 0.0 <= a.Image(extent, p) <= a.Size(extent) && a.Image(extent, p) <= DAMAGE_MAX as real
  }

  /** Everything shown of the damage and of `outset` pixels around it is reported. */
  ghost predicate Reports(a: Axis, extent: int, from: int, length: int, outset: nat)
    requires Setting(a, extent, from, length) && outset <= 1
  {
    RatioIsPositive(a, extent);
    forall p: real | (from - outset) as real <= p <= (from + length + outset) as real && Shown(a, extent, p) ::
      Includes(Interval(a, extent, from, length), a.Image(extent, p))
  }

  /** The same scale and source start, and a destination alone only if the other has one. */
  predicate Kin(a: Axis, b: Axis) {
    && a.scale == b.scale
    && (if a.source.None? then b.source.None? && (a.destination.Some? <==> b.destination.Some?)
        else b.source.Some? && a.source.value.0 == b.source.value.0)
  }

  ghost predicate AlwaysReports(a: Axis, outset: nat)
    requires outset <= 1
  {
    forall b: Axis, extent: int, from: int, length: int ::
      Kin(a, b) && Setting(b, extent, from, length) ==> Reports(b, extent, from, length, outset)
  }

  /** Even the smallest source at this start needs a buffer beyond the damage limit. */
  predicate NoBufferFits(a: Axis)
    requires a.Valid()
  {
    a.scale * (a.Offset() + 1) > DAMAGE_MAX
  }

  /** Over all buffer extents, source sizes, destination sizes and damage, what the code
      reports is enough exactly when the axis encloses, or there is nothing to report. */
  lemma ReportsIff(a: Axis, outset: nat)
    requires a.Valid() && outset <= 1 && (a.source.Some? ==> a.source.value.0 <= I32_MAX)
    ensures AlwaysReports(a, outset) <==> a.Encloses(outset) || NoBufferFits(a)
  {
    if a.Encloses(outset) || NoBufferFits(a) {
      forall b: Axis, extent: int, from: int, length: int | Kin(a, b) && Setting(b, extent, from, length)
        ensures Reports(b, extent, from, length, outset)
      {
        EnclosingReports(b, extent, from, length, outset);
      }
    } else {
      var b, extent, from, p;
      if a.source.Some? {
        b, extent, from, p := SourceEscapes(a, outset);
      } else {
        b, extent, from, p := DestinationEscapes(a.scale);
      }
      hide Setting, Interval, Shown, Includes, a.Encloses, NoBufferFits;
      assert !Reports(b, extent, from, 1, outset);
    }
  }

  lemma EnclosingReports(a: Axis, extent: int, from: int, length: int, outset: nat)
    requires Setting(a, extent, from, length) && outset <= 1 && (a.Encloses(outset) || NoBufferFits(a))
    ensures Reports(a, extent, from, length, outset)
  {
    if a.Encloses(outset) {
      RatioIsPositive(a, extent);
      forall p: real | (from - outset) as real <= p <= (from + length + outset) as real && Shown(a, extent, p)
        ensures Includes(Interval(a, extent, from, length), a.Image(extent, p))
      {
        AxisCovers(a, extent, from, length, p, outset);
      }
    } else {
      BufferIsTooLarge(a, extent);
      assert false;
    }
  }

  lemma BufferIsTooLarge(a: Axis, extent: int)
    requires Setting(a, extent, 0, 1)
    ensures !NoBufferFits(a)
  {
    var m := extent / a.scale;
    assert extent == a.scale * m;
    if a.source.Some? {
      var x, w := a.source.value.0, a.source.value.1;
      assert a.scale * (x + w) <= a.scale * (256 * m);
      Cancel(a.scale, x + w, 256 * m);
      assert a.Offset() + 1 <= m;
      Scales(a.scale, a.Offset() + 1, m);
    } else {
      assert m >= 1;
      Scales(a.scale, 1, m);
    }
  }

  lemma Cancel(s: int, x: int, y: int)
    requires s >= 1 && s * x <= s * y
    ensures x <= y
  {
    if x > y {
      Scales(s, y + 1, x);
    }
  }

  lemma Scales(s: int, x: int, y: int)
    requires s >= 0 && x <= y
    ensures s * x <= s * y
  {
  }

  /** A destination size at which the code counts exactly 256 surface units a pixel. */
  lemma FineAxis(s: int, x: int, w: int, extent: int, p: real)
    requires s >= 1 && x >= 0 && w >= 1 && extent >= 1
    ensures s * w > 0
    ensures var b := Axis(s, Some((x, w)), Some(s * w));
            && b.Valid() && b.Ratio(extent) == 1.0 / 256.0
            && b.Image(extent, p) == 256.0 * p - (s * x) as real
            && b.Mapped(extent, p) == 256.0 * (p - (x / 256) as real)
  {
    var b := Axis(s, Some((x, w)), Some(s * w));
    hide b.Ratio, b.Image;
    Scales(s, 1, w);
    FineRatio(s, x, w, extent);
    ImageIs(b, extent, p);
    Product(s, x);
    Finely(p, (s * x) as real);
  }

  lemma FineRatio(s: int, x: int, w: int, extent: int)
    requires s >= 1 && x >= 0 && w >= 1 && extent >= 1 && s * w > 0
    ensures Axis(s, Some((x, w)), Some(s * w)).Ratio(extent) == 1.0 / 256.0
  {
    var b := Axis(s, Some((x, w)), Some(s * w));
    RatioIsPositive(b, extent);
    hide b.Ratio;
    Product(s, w);
    var d := (s * w) as real;
    Quotient(1.0 / 256.0, d / 256.0, d);
  }

  lemma Finely(p: real, start: real)
    ensures (p - start / 256.0) / (1.0 / 256.0) == 256.0 * p - start
  {
  }

  /** With that destination, damage of one pixel escapes when its image starts too far left. */
  lemma FineEscape(s: int, x: int, w: int, extent: int, from: int, p: real)
    requires s * w > 0
    requires var b := Axis(s, Some((x, w)), Some(s * w)); Setting(b, extent, from, 1)
    requires 0.0 <= p <= extent as real && 1 <= from
    requires 0.0 <= 256.0 * p - (s * x) as real <= (s * w) as real && 256.0 * p - (s * x) as real <= 512.0
    requires 256.0 * p - (s * x) as real < (256 * (from - 1 - x / 256)) as real
    ensures var b := Axis(s, Some((x, w)), Some(s * w));
            b.Ratio(extent) > 0.0 && Shown(b, extent, p) && !Includes(Interval(b, extent, from, 1), b.Image(extent, p))
  {
    var b := Axis(s, Some((x, w)), Some(s * w));
    FineAxis(s, x, w, extent, p);
    FineAxis(s, x, w, extent, (from - 1) as real);
    FineAxis(s, x, w, extent, Clamp(from + 2) as real);
    hide b.Ratio, b.Image, b.Mapped;
    var left := 256 * (from - 1 - x / 256);
    assert b.Mapped(extent, (from - 1) as real) == left as real;
    assert Clamp(from - 1) == from - 1 <= Clamp(from + 2);
  }

  /** Damage of one pixel that escapes, for every start and scale that do not enclose:
      in a buffer of whole surface units around the source, and shown by the viewport. */
  lemma SourceEscapes(a: Axis, outset: nat) returns (b: Axis, extent: int, from: int, p: real)
    requires a.Valid() && outset <= 1 && !a.Encloses(outset) && !NoBufferFits(a)
    requires a.source.Some? && a.source.value.0 <= I32_MAX
    ensures Kin(a, b) && b.destination.Some? && Setting(b, extent, from, 1) && b.Ratio(extent) > 0.0
    ensures (from - outset) as real <= p <= (from + 1 + outset) as real && Shown(b, extent, p)
    ensures !Includes(Interval(b, extent, from, 1), b.Image(extent, p))
  {
    var s, x, f := a.scale, a.source.value.0, a.Offset();
    hide b.Ratio, b.Image, Interval, Includes, Shown, Setting;
    if s * x >= 256 * (f + 2) {
      b, extent, from, p := Axis(s, Some((x, 1)), Some(s * 1)), s * (f + 1), s * x / 256, (s * x) as real / 256.0;
      FarEscapes(s, x, f);
    } else {
      b, extent, from, p := Axis(s, Some((x, 1024)), Some(s * 1024)), s * (f + 5), f + 2 + outset, (f + 2) as real;
      NearEscapes(s, x, f, outset);
    }
  }

  /** A source of one unit that starts far from its truncated start. */
  lemma FarEscapes(s: int, x: int, f: int)
    requires s >= 1 && 0 <= x && f == x / 256 && s * x >= 256 * (f + 2) && s * (f + 1) <= DAMAGE_MAX
    ensures var b, extent, from, p := Axis(s, Some((x, 1)), Some(s * 1)), s * (f + 1), s * x / 256, (s * x) as real / 256.0;
            && Setting(b, extent, from, 1) && b.Ratio(extent) > 0.0 && Shown(b, extent, p)
            && from as real <= p <= (from + 1) as real && !Includes(Interval(b, extent, from, 1), b.Image(extent, p))
  {
    var start, units := s * x, s * (f + 1);
    var b, from, p := Axis(s, Some((x, 1)), Some(s * 1)), start / 256, start as real / 256.0;
    hide b.Ratio, b.Image, Interval, Includes, Shown, Setting;
    FarSetting(s, x, f);
    FarPosition(s, x, f);
    assert s * 1 == s;
    FineEscape(s, x, 1, units, from, p);
  }

  /** A source of four units that starts near its truncated start. */
  lemma NearEscapes(s: int, x: int, f: int, outset: nat)
    requires s >= 1 && 0 < x <= I32_MAX && f == x / 256 && outset <= 1
    requires 256 * f + 256 * (1 - outset) < s * x < 256 * (f + 2)
    ensures var b, extent, from, p := Axis(s, Some((x, 1024)), Some(s * 1024)), s * (f + 5), f + 2 + outset, (f + 2) as real;
            && Setting(b, extent, from, 1) && b.Ratio(extent) > 0.0 && Shown(b, extent, p)
            && (from - outset) as real <= p && !Includes(Interval(b, extent, from, 1), b.Image(extent, p))
  {
    var b, start, units := Axis(s, Some((x, 1024)), Some(s * 1024)), s * x, s * (f + 5);
    hide b.Ratio, b.Image, Interval, Includes, Shown, Setting;
    NearSetting(s, x, f, outset);
    assert s * 1024 >= 512;
    FineEscape(s, x, 1024, units, f + 2 + outset, (f + 2) as real);
  }

  /** The arithmetic of a source of one unit that starts far from its truncated start. */
  lemma FarFits(s: int, x: int, f: int)
    requires s >= 1 && 0 <= x && f == x / 256 && s * x >= 256 * (f + 2) && s * (f + 1) <= DAMAGE_MAX
    ensures s * (x + 1) == s * x + s <= 256 * (s * (f + 1)) && s <= s * (f + 1) && s * (f + 1) >= 1
    ensures (s * (f + 1)) % s == 0
  {
    Scales(s, x + 1, 256 * (f + 1));
    assert s * (256 * (f + 1)) == 256 * (s * (f + 1));
    WholeUnits(s, f + 1);
  }

  lemma FarSetting(s: int, x: int, f: int)
    requires s >= 1 && 0 <= x && f == x / 256 && s * x >= 256 * (f + 2) && s * (f + 1) <= DAMAGE_MAX
    ensures Setting(Axis(s, Some((x, 1)), Some(s * 1)), s * (f + 1), s * x / 256, 1)
  {
    FarFits(s, x, f);
    var start, units := s * x, s * (f + 1);
    FloorBelow(start, s, units);
    assert s * 1 == s;
  }

  lemma FloorBelow(start: int, s: int, units: int)
    requires 0 <= start && 1 <= s && start + s <= 256 * units
    ensures 0 <= start / 256 && start / 256 + 1 <= units
  {
  }

  lemma FarPosition(s: int, x: int, f: int)
    requires s >= 1 && 0 <= x && f == x / 256 && s * x >= 256 * (f + 2) && s * (f + 1) <= DAMAGE_MAX
    ensures var p := (s * x) as real / 256.0; 256.0 * p == (s * x) as real && 0.0 <= p <= (s * (f + 1)) as real
    ensures (s * x / 256) as real <= (s * x) as real / 256.0 <= (s * x / 256 + 1) as real
  {
    FarFits(s, x, f);
    Floors(s * x);
  }

  lemma Floors(n: int)
    requires n >= 0
    ensures (n / 256) as real <= n as real / 256.0 <= (n / 256 + 1) as real
    ensures 256.0 * (n as real / 256.0) == n as real
  {
  }

  lemma NearSetting(s: int, x: int, f: int, outset: nat)
    requires s >= 1 && 0 < x <= I32_MAX && f == x / 256 && s * x < 256 * (f + 2) && outset <= 1
    ensures Setting(Axis(s, Some((x, 1024)), Some(s * 1024)), s * (f + 5), f + 2 + outset, 1)
    ensures f + 5 <= s * (f + 5)
  {
    var units := s * (f + 5);
    SmallStart(s, x, f);
    Scales(s, x + 1024, 256 * (f + 5));
    assert s * (256 * (f + 5)) == 256 * units;
    WholeUnits(s, f + 5);
  }

  lemma WholeUnits(s: int, n: int)
    requires s >= 1 && n >= 1
    ensures s * n >= n && s * n >= s && (s * n) % s == 0
  {
    Scales(s, 1, n);
    Scales(n, 1, s);
  }

  lemma SmallStart(s: int, x: int, f: int)
    requires s >= 1 && 0 < x <= I32_MAX && f == x / 256 && s * x < 256 * (f + 2)
    ensures s * (f + 5) <= DAMAGE_MAX && s * 1024 <= I32_MAX
  {
    if s > 1 {
      assert (s - 1) * x < 512;
      Scales(s - 1, 1, x);
      Scales(x, 1, s - 1);
      Scales(f + 5, s, 512);
    }
  }

  /** Damage of the last pixel escapes from every scaled buffer shown whole at its own size. */
  lemma DestinationEscapes(scale: int) returns (b: Axis, extent: int, from: int, p: real)
    requires 2 <= scale <= DAMAGE_MAX
    ensures b == Axis(scale, None, Some(extent)) && Setting(b, extent, from, 1) && b.Ratio(extent) > 0.0
    ensures from as real <= p <= (from + 1) as real && Shown(b, extent, p)
    ensures !Includes(Interval(b, extent, from, 1), b.Image(extent, p))
  {
    extent := if scale == 2 then 4 else scale;
    b, from, p := Axis(scale, None, Some(extent)), extent - 1, extent as real;
    WholeAxis(scale, extent, p);
    hide b.Ratio, b.Image, b.Mapped, Interval;
    WholeFallsShort(scale, extent);
  }

  lemma WholeFallsShort(scale: int, extent: int)
    requires 2 <= scale <= DAMAGE_MAX && extent == (if scale == 2 then 4 else scale)
    ensures var b := Axis(scale, None, Some(extent));
            && b.Ratio(extent) > 0.0
            && Interval(b, extent, extent - 1, 1).0 + Interval(b, extent, extent - 1, 1).1 < extent
  {
    var b := Axis(scale, None, Some(extent));
    WholeAxis(scale, extent, (extent - 2) as real);
    WholeAxis(scale, extent, (extent + 1) as real);
    OutsetBetween(scale, extent);
    hide b.Ratio, b.Image, b.Mapped, Interval;
    EndsBefore(b, extent, extent - 1, if scale > 2 then 2 else 3);
  }

  lemma OutsetBetween(scale: int, extent: int)
    requires 2 <= scale && extent == (if scale == 2 then 4 else scale)
    ensures var from, to := (extent - 2) as real / scale as real, (extent + 1) as real / scale as real;
            0.0 <= from < 2.0 && from <= to <= if scale > 2 then 2.0 else 3.0
  {
    if scale > 2 {
      Between(scale);
    }
  }

  /** An interval whose outset damage maps below `bound` does not reach past it. */
  lemma EndsBefore(a: Axis, extent: int, from: i32, bound: int)
    requires a.Valid() && extent >= 1 && a.Ratio(extent) > 0.0 && 1 <= bound <= DAMAGE_MAX
    requires 0.0 <= a.Mapped(extent, Clamp(from - 1) as real) <= a.Mapped(extent, Clamp(from + 2) as real) <= bound as real
    requires a.Mapped(extent, Clamp(from - 1) as real) < bound as real
    ensures Interval(a, extent, from, 1).0 + Interval(a, extent, from, 1).1 <= bound
  {
    hide a.Mapped, a.Ratio;
  }

  lemma WholeAxis(scale: int, extent: int, p: real)
    requires scale >= 1 && extent >= 1
    ensures var b := Axis(scale, None, Some(extent));
            b.Valid() && b.Ratio(extent) == scale as real && b.Image(extent, p) == p && b.Mapped(extent, p) == p / scale as real
  {
    var b := Axis(scale, None, Some(extent));
    assert extent as real / extent as real == 1.0;
    assert b.Ratio(extent) == scale as real;
    ImageIs(b, extent, p);
    Quotient(p, scale as real * p, scale as real);
    hide b.Ratio, b.Image;
  }

  lemma Between(scale: int)
    requires scale >= 3
    ensures 0.0 <= (scale - 2) as real / scale as real <= (scale + 1) as real / scale as real <= 2.0
    ensures (scale - 2) as real / scale as real < 2.0
  {
    var s := scale as real;
    DividesMonotone(0.0, s - 2.0, s);
    DividesMonotone(s - 2.0, s + 1.0, s);
    DividesMonotone(s + 1.0, 2.0 * s, s);
    Quotient(2.0, 2.0 * s, s);
  }

  // ---- the mapped rectangle ----

  function AtLeast1(v: i32): i32 {
    if v < 1 then 1 else v
  }

  function TransformedExtent(transform: i32, width: i32, height: i32): (i32, i32) {
    if transform in {1, 3, 5, 7} then (height, width) else (width, height)
  }

  function LogicalTransformedExtent(transform: i32, width: i32, height: i32, scale: i32): (i32, i32) {
    var e := TransformedExtent(transform, width, height);
    var s := AtLeast1(scale) as real;
    (Saturate(AtLeastOne(Ceil(e.0 as real / s))), Saturate(AtLeastOne(Ceil(e.1 as real / s))))
  }

  function EffectiveViewport(s: Surface): Option<Viewport> {
    if s.viewport.Some? && !s.viewport.value.IsIdentity() then s.viewport else None
  }

  /** `map_surface_damage`: a one-unit outset, kept away from the ends of the range. */
  function MapSurfaceDamage(r: Rect): Rect {
    if r.width <= 0 || r.height <= 0 then Rect(0, 0, 0, 0)
    else
      var left, top, right, bottom := Clamp(r.x - 1), Clamp(r.y - 1), Clamp(r.x + r.width + 1), Clamp(r.y + r.height + 1);
      Rect(left, top, AtLeastOne(right - left), AtLeastOne(bottom - top))
  }

  /** `map_buffer_damage`. */
  function MapBufferDamage(r: Rect, s: Surface, width: i32, height: i32): Rect
    requires Committable(s)
  {
    var viewport := EffectiveViewport(s);
    if r.width <= 0 || r.height <= 0 then Rect(0, 0, 0, 0)
    else if s.transform != 0 then
      if viewport.Some? && viewport.value.destination.Some? then
        Rect(0, 0, viewport.value.destination.value.0, viewport.value.destination.value.1)
      else if viewport.Some? && viewport.value.source.Some? then
        Rect(0, 0, AtLeast1(viewport.value.source.value.width / 256), AtLeast1(viewport.value.source.value.height / 256))
      else
        var e := LogicalTransformedExtent(s.transform, AtLeast1(width), AtLeast1(height), s.scale);
        Rect(0, 0, e.0, e.1)
    else
      RatioIsPositive(Horizontal(s), AtLeast1(width));
      RatioIsPositive(Vertical(s), AtLeast1(height));
      var x := Interval(Horizontal(s), AtLeast1(width), r.x, r.width);
      var y := Interval(Vertical(s), AtLeast1(height), r.y, r.height);
      Rect(x.0, y.0, x.1, y.1)
  }

  /** For an untransformed surface whose axes enclose, the reported rectangle holds the
      image of every damaged buffer position, and of the pixel around each for which its
      axes enclose one, up to the damage limit. */
  lemma BufferDamageIsNotUnderReported(r: Rect, s: Surface, width: i32, height: i32, px: real, py: real, outset: nat)
    requires Committable(s) && s.transform == 0 && r.width > 0 && r.height > 0
    requires outset <= 1 && Horizontal(s).Encloses(outset) && Vertical(s).Encloses(outset)
    requires (r.x - outset) as real <= px <= (r.x + r.width + outset) as real && px <= DAMAGE_MAX as real
    requires (r.y - outset) as real <= py <= (r.y + r.height + outset) as real && py <= DAMAGE_MAX as real
    requires 0.0 <= Horizontal(s).Image(AtLeast1(width), px) <= DAMAGE_MAX as real
    requires 0.0 <= Vertical(s).Image(AtLeast1(height), py) <= DAMAGE_MAX as real
    ensures var mapped := MapBufferDamage(r, s, width, height);
            && Includes((mapped.x, mapped.width), Horizontal(s).Image(AtLeast1(width), px))
            && Includes((mapped.y, mapped.height), Vertical(s).Image(AtLeast1(height), py))
  {
    AxisCovers(Horizontal(s), AtLeast1(width), r.x, r.width, px, outset);
    AxisCovers(Vertical(s), AtLeast1(height), r.y, r.height, py, outset);
  }

  /** And it reports no more than the image of the damage with one pixel before it and two
      after, rounded outwards, in either direction. */
  lemma BufferDamageIsNotOverReported(r: Rect, s: Surface, width: i32, height: i32)
    requires Committable(s) && s.transform == 0 && r.width > 0 && r.height > 0
    requires Horizontal(s).Encloses(0) && Vertical(s).Encloses(0)
    requires DAMAGE_MIN < r.x && DAMAGE_MIN < r.y && r.x + r.width < DAMAGE_MAX && r.y + r.height < DAMAGE_MAX
    requires Horizontal(s).Image(AtLeast1(width), (r.x + r.width + 2) as real) <= DAMAGE_MAX as real
    requires Vertical(s).Image(AtLeast1(height), (r.y + r.height + 2) as real) <= DAMAGE_MAX as real
    ensures var mapped, x, y := MapBufferDamage(r, s, width, height), Horizontal(s), Vertical(s);
            && Within((mapped.x, mapped.width), x.Image(AtLeast1(width), (r.x - 1) as real),
                      x.Image(AtLeast1(width), (r.x + r.width + 2) as real))
            && Within((mapped.y, mapped.height), y.Image(AtLeast1(height), (r.y - 1) as real),
                      y.Image(AtLeast1(height), (r.y + r.height + 2) as real))
  {
    AxisIsTight(Horizontal(s), AtLeast1(width), r.x, r.width);
    AxisIsTight(Vertical(s), AtLeast1(height), r.y, r.height);
  }

  /** A surface with the same viewport axis in both directions. */
  function Square(a: Axis): Surface
    requires a.Valid() && a.scale <= I32_MAX
    requires a.source.Some? ==> a.source.value.0 <= I32_MAX && a.source.value.1 <= I32_MAX
    requires a.destination.Some? ==> a.destination.value <= I32_MAX
  {
    var source := if a.source.Some? then Some(Source(a.source.value.0, a.source.value.0, a.source.value.1, a.source.value.1))
                  else None;
    var destination := if a.destination.Some? then Some((a.destination.value, a.destination.value)) else None;
    DEFAULT_SURFACE.(scale := a.scale, viewport := Some(Viewport(source, destination)))
  }

  /** So for every scale from 2 there is a surface with only a destination size, and damage
      of one pixel shown on it, that the reported rectangle leaves out. */
  lemma ScaledDestinationUnderReports(scale: i32) returns (s: Surface, size: i32, r: Rect, p: real)
    requires 2 <= scale <= DAMAGE_MAX
    ensures Committable(s) && s.scale == scale && s.viewport == Some(Viewport(None, Some((size, size)))) && size % scale == 0
    ensures r.x as real <= p <= (r.x + 1) as real && 0 <= r.x < size && r == Rect(r.x, r.x, 1, 1)
    ensures Shown(Horizontal(s), size, p)
    ensures var mapped := MapBufferDamage(r, s, size, size);
            !Includes((mapped.x, mapped.width), Horizontal(s).Image(size, p))
  {
    var b, from;
    b, size, from, p := DestinationEscapes(scale);
    s, r := Square(b), Rect(from, from, 1, 1);
    hide Interval, Shown, Includes, b.Image, b.Ratio;
  }

  /** And for every scale and source start that do not enclose and fit a buffer. */
  lemma ScaledSourceUnderReports(scale: i32, start: i32) returns (s: Surface, size: i32, r: Rect, p: real)
    requires 1 <= scale && 0 <= start && scale * start > 256 * (start / 256) + 256
    requires scale * (start / 256 + 1) <= DAMAGE_MAX
    ensures Committable(s) && s.scale == scale && s.viewport.Some? && s.viewport.value.source.Some?
    ensures s.viewport.value.source.value.x == start == s.viewport.value.source.value.y
    ensures r.x as real <= p <= (r.x + 1) as real && 0 <= r.x < size && r == Rect(r.x, r.x, 1, 1)
    ensures Shown(Horizontal(s), size, p)
    ensures var mapped := MapBufferDamage(r, s, size, size);
            !Includes((mapped.x, mapped.width), Horizontal(s).Image(size, p))
  {
    var b, from;
    b, size, from, p := SourceEscapes(Axis(scale, Some((start, 1)), None), 0);
    s, r := Square(b), Rect(from, from, 1, 1);
    hide Interval, Shown, Includes, b.Image, b.Ratio;
  }

  /** Damage already in surface coordinates is only ever widened, within the range. */
  lemma SurfaceDamageIsWidened(r: Rect, x: int, y: int)
    requires r.width > 0 && r.height > 0
    requires r.x <= x <= r.x + r.width && r.y <= y <= r.y + r.height
    requires DAMAGE_MIN <= x <= DAMAGE_MAX && DAMAGE_MIN <= y <= DAMAGE_MAX
    ensures var m := MapSurfaceDamage(r);
            m.x <= x <= m.x + m.width && m.y <= y <= m.y + m.height
            && DAMAGE_MIN <= m.x && DAMAGE_MIN <= m.y && m.x + m.width <= DAMAGE_MAX + 1 && m.y + m.height <= DAMAGE_MAX + 1
            && (DAMAGE_MIN < r.x && r.x + r.width < DAMAGE_MAX ==> r.x - m.x == 1 && m.width - r.width == 2)
            && (DAMAGE_MIN < r.y && r.y + r.height < DAMAGE_MAX ==> r.y - m.y == 1 && m.height - r.height == 2)
  {
  }

  // ---- what viewport and scale requests can commit ----

  predicate SoundViewport(v: Option<Viewport>) {
    v.Some? ==>
      && (v.value.source.Some? ==>
            v.value.source.value.x >= 0 && v.value.source.value.y >= 0
            && v.value.source.value.width > 0 && v.value.source.value.height > 0)
      && (v.value.destination.Some? ==> v.value.destination.value.0 > 0 && v.value.destination.value.1 > 0)
  }

  /** Current and pending state of a surface are both acceptable. */
  predicate Sound(s: Surface) {
    && s.scale >= 1 && (s.pendingScale.Some? ==> s.pendingScale.value >= 1)
    && SoundViewport(s.viewport) && (s.pendingViewport.Some? ==> SoundViewport(s.pendingViewport.value))
  }

  /** The viewport a request edits: the pending one, else the current one, else an empty one. */
  function Editable(s: Surface): Viewport {
    if s.pendingViewport.Some? && s.pendingViewport.value.Some? then s.pendingViewport.value.value
    else if s.viewport.Some? then s.viewport.value
    else Viewport(None, None)
  }

  /** `None` is a protocol error. */
  function OnSetSource(s: Surface, x: i32, y: i32, width: i32, height: i32): Option<Surface> {
    var unset := (x, y, width, height) == (-256, -256, -256, -256);
    if !unset && (x < 0 || y < 0 || width <= 0 || height <= 0) then None
    else
      Some(s.(pendingViewport := Some(Some(Editable(s).(source := if unset then None else Some(Source(x, y, width, height)))))))
  }

  function OnSetDestination(s: Surface, width: i32, height: i32): Option<Surface> {
    var unset := width == -1 && height == -1;
    if !unset && (width <= 0 || height <= 0) then None
    else Some(s.(pendingViewport := Some(Some(Editable(s).(destination := if unset then None else Some((width, height)))))))
  }

  function OnSetBufferScale(s: Surface, scale: i32): Option<Surface> {
    if scale <= 0 then None else Some(s.(pendingScale := Some(scale)))
  }

  datatype ViewportAct =
    | SetSource(x: i32, y: i32, width: i32, height: i32)
    | SetDestination(width: i32, height: i32)
    | SetBufferScale(scale: i32)
    | NewViewport
    | DestroyViewport
    | Commit

  /** A refused request changes nothing. */
  function After(s: Surface, act: ViewportAct): Surface {
    match act
    case SetSource(x, y, width, height) =>
      if OnSetSource(s, x, y, width, height).Some? then OnSetSource(s, x, y, width, height).value else s
    case SetDestination(width, height) =>
      if OnSetDestination(s, width, height).Some? then OnSetDestination(s, width, height).value else s
    case SetBufferScale(scale) => if OnSetBufferScale(s, scale).Some? then OnSetBufferScale(s, scale).value else s
    case NewViewport => s.(pendingViewport := Some(Some(Viewport(None, None))))
    case DestroyViewport => s.(pendingViewport := Some(None))
    case Commit => s.Applied()
  }

  function AfterAll(s: Surface, acts: seq<ViewportAct>): Surface
    decreases |acts|
  {
    if acts == [] then s else AfterAll(After(s, acts[0]), acts[1..])
  }

  lemma ActKeepsSound(s: Surface, act: ViewportAct)
    requires Sound(s)
    ensures Sound(After(s, act))
  {
  }

  lemma {:induction false} ActsKeepSound(s: Surface, acts: seq<ViewportAct>)
    requires Sound(s)
    ensures Sound(AfterAll(s, acts)) && Committable(AfterAll(s, acts))
    decreases |acts|
  {
    if acts != [] {
      ActKeepsSound(s, acts[0]);
      ActsKeepSound(After(s, acts[0]), acts[1..]);
    }
  }

  /** Whatever a client requests and commits, its surface is one damage can be mapped through. */
  lemma RequestsKeepSurfacesSound(acts: seq<ViewportAct>)
    ensures Committable(AfterAll(DEFAULT_SURFACE, acts))
  {
    ActsKeepSound(DEFAULT_SURFACE, acts);
  }
}

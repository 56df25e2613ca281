/**
 Plane metadata of linux-dmabuf params objects and its validation
 (sommelier/src/handler/linux_dmabuf.rs).
 */
module DmabufParams {
  import opened Prelude

  const FORMAT_NV12: u32 := 0x3231_564e
  const FORMAT_RGB565: u32 := 0x3631_4752
  const FORMAT_XRGB8888: u32 := 0x3432_5258
  const FORMAT_ARGB8888: u32 := 0x3432_5241
  const FORMAT_XBGR8888: u32 := 0x3432_4258
  const FORMAT_ABGR8888: u32 := 0x3432_4241

  /** One `zwp_linux_buffer_params_v1.add`, holding the proxy's duplicate of the descriptor. */
  datatype Plane = Plane(fd: Fd, planeIdx: u32, offset: u32, stride: u32, modifierHi: u32, modifierLo: u32)

  predicate IsSupportedFormat(format: u32) {
    format in {FORMAT_NV12, FORMAT_RGB565, FORMAT_XRGB8888, FORMAT_ARGB8888, FORMAT_XBGR8888, FORMAT_ABGR8888}
  }

  /** Minimum bytes in a row and the number of rows of one plane. */
  function PlaneLayout(format: u32, planeIdx: u32, width: i32, height: i32): Option<(nat, nat)> {
    if width < 0 || height < 0 then None
    else if format == FORMAT_NV12 && width % 2 == 0 && height % 2 == 0 && planeIdx < 2 then
      Some((width, if planeIdx == 0 then height else height / 2))
    else if format == FORMAT_RGB565 && planeIdx == 0 then Some((2 * width, height))
    else if format in {FORMAT_XRGB8888, FORMAT_ARGB8888, FORMAT_XBGR8888, FORMAT_ABGR8888} && planeIdx == 0 then
      Some((4 * width, height))
    else None
  }

  /** The last byte the host may touch while importing the plane. */
  function PlaneEnd(plane: Plane, rowBytes: nat, rows: nat): nat {
    plane.offset + plane.stride * (if rows == 0 then 0 else rows - 1) + rowBytes
  }

  predicate ValidPlane(plane: Plane, format: u32, width: i32, height: i32) {
    match PlaneLayout(format, plane.planeIdx, width, height)
    case None => false
    case Some((rowBytes, rows)) => rowBytes <= plane.stride && PlaneEnd(plane, rowBytes, rows) < U64_LIMIT
  }

  function ExpectedPlanes(format: u32): nat {
    if format == FORMAT_NV12 then 2 else 1
  }

  /** `valid_params`; `planes` is `None` when the params object was never tracked. */
  predicate ValidParams(planes: Option<seq<Plane>>, width: i32, height: i32, format: u32) {
    && width > 0 && height > 0 && IsSupportedFormat(format)
    && planes.Some? && |planes.value| == ExpectedPlanes(format)
    && (forall i | 0 <= i < |planes.value| ::
          && planes.value[i].fd >= 0
          && planes.value[i].planeIdx < ExpectedPlanes(format)
          && ValidPlane(planes.value[i], format, width, height))
    && (forall i, j | 0 <= i < j < |planes.value| :: planes.value[i].planeIdx != planes.value[j].planeIdx)
  }

  /** The error code of the first plane at or after `i` that `create` must reject. */
  function PlaneErrorCode(planes: seq<Plane>, i: nat, width: i32, height: i32, format: u32): (code: u32)
    requires i <= |planes|
    decreases |planes| - i
  {
    if i == |planes| then 3
    else if planes[i].planeIdx >= ExpectedPlanes(format) then 1
    else if exists k | 0 <= k < i :: planes[k].planeIdx == planes[i].planeIdx then 2
    else if !ValidPlane(planes[i], format, width, height) then 6
    else PlaneErrorCode(planes, i + 1, width, height, format)
  }

  function ParamsErrorCode(planes: Option<seq<Plane>>, width: i32, height: i32, format: u32): u32 {
    if width <= 0 || height <= 0 then 5
    else if !IsSupportedFormat(format) then 4
    else if planes.None? || |planes.value| != ExpectedPlanes(format) then 3
    else PlaneErrorCode(planes.value, 0, width, height, format)
  }

  lemma ProductBound(a: nat, b: nat, maxA: nat, maxB: nat)
    requires a <= maxA && b <= maxB
    ensures a * b <= maxA * maxB
  {
    assert a * b <= maxA * b;
    assert maxA * b <= maxA * maxB;
  }

  /** 32-bit offsets and strides cannot push the end of a plane past 64 bits: the
      host's import arithmetic is safe for every plane with a layout. */
  lemma PlaneEndNeverOverflows(plane: Plane, rowBytes: nat, rows: nat)
    requires rowBytes <= 4 * 0x7fff_ffff && rows <= 0x7fff_ffff
    ensures PlaneEnd(plane, rowBytes, rows) < U64_LIMIT
  {
    ProductBound(plane.stride, if rows == 0 then 0 else rows - 1, 0xffff_ffff, 0x7fff_ffff);
  }

  lemma {:induction false} PlaneErrorCodeMeans(planes: seq<Plane>, i: nat, width: i32, height: i32, format: u32)
    requires i <= |planes|
    ensures PlaneErrorCode(planes, i, width, height, format) in {1, 2, 3, 6}
    ensures PlaneErrorCode(planes, i, width, height, format) == 3 <==>
            forall j | i <= j < |planes| ::
              && planes[j].planeIdx < ExpectedPlanes(format)
              && (forall k | 0 <= k < j :: planes[k].planeIdx != planes[j].planeIdx)
              && ValidPlane(planes[j], format, width, height)
    decreases |planes| - i
  {
    if i < |planes| {
      PlaneErrorCodeMeans(planes, i + 1, width, height, format);
    }
  }

  /** A complete plane list that `create` rejects is reported as "incomplete" (3)
      only when its sole fault is a missing descriptor; every other rejection
      names the fault. The code is always one the protocol defines. */
  lemma RejectionCodeIsExact(planes: seq<Plane>, width: i32, height: i32, format: u32)
    requires width > 0 && height > 0 && IsSupportedFormat(format)
    requires |planes| == ExpectedPlanes(format)
    requires !ValidParams(Some(planes), width, height, format)
    ensures ParamsErrorCode(Some(planes), width, height, format) in {1, 2, 3, 6}
    ensures ParamsErrorCode(Some(planes), width, height, format) == 3
            ==> exists i | 0 <= i < |planes| :: planes[i].fd < 0
  {
    PlaneErrorCodeMeans(planes, 0, width, height, format);
  }

  // ---- what the layout and the codes mean ----

  /** The format has such a plane: NV12 a second one for its colour samples, the others one. */
  predicate HasPlane(format: u32, planeIdx: u32) {
    planeIdx == 0 || (planeIdx == 1 && format == FORMAT_NV12)
  }

  /** Bits a plane holds for each pixel of the image; an NV12 colour sample of 16 bits
      serves a square of four pixels. */
  function BitsPerPixel(format: u32, planeIdx: u32): nat {
    if format == FORMAT_NV12 then (if planeIdx == 0 then 8 else 4)
    else if format == FORMAT_RGB565 then 16
    else 32
  }

  /** Only NV12 ties rows and columns together in pairs. */
  predicate Divides(format: u32, width: i32, height: i32) {
    format == FORMAT_NV12 ==> width % 2 == 0 && height % 2 == 0
  }

  /** The rows of a plane are exactly its samples, whole rows of them, and a plane without
      a layout is one the format or the dimensions do not have. */
  lemma PlaneHoldsItsSamples(format: u32, planeIdx: u32, width: i32, height: i32)
    requires IsSupportedFormat(format) && width > 0 && height > 0
    ensures PlaneLayout(format, planeIdx, width, height).Some? <==> HasPlane(format, planeIdx) && Divides(format, width, height)
    ensures match PlaneLayout(format, planeIdx, width, height)
            case None => true
            case Some((rowBytes, rows)) =>
              && 8 * (rowBytes * rows) == BitsPerPixel(format, planeIdx) * (width * height)
              && rows == if planeIdx == 1 then height / 2 else height
  {
    if format == FORMAT_NV12 && planeIdx == 1 && Divides(format, width, height) {
      var half := height / 2;
      assert width * height == width * half * 2;
    }
  }

  /** Every row of the plane fits the stride it was given with. */
  predicate RowsFit(plane: Plane, format: u32, width: i32, height: i32) {
    match PlaneLayout(format, plane.planeIdx, width, height)
    case None => false
    case Some((rowBytes, _)) => rowBytes <= plane.stride
  }

  lemma ValidPlaneIff(plane: Plane, format: u32, width: i32, height: i32)
    ensures ValidPlane(plane, format, width, height) <==> RowsFit(plane, format, width, height)
  {
    match PlaneLayout(format, plane.planeIdx, width, height)
    case None =>
    case Some((rowBytes, rows)) => PlaneEndNeverOverflows(plane, rowBytes, rows);
  }

  ghost predicate Repeats(planes: seq<Plane>, i: nat)
    requires i < |planes|
  {
    exists k | 0 <= k < i :: planes[k].planeIdx == planes[i].planeIdx
  }

  ghost predicate Sound(planes: seq<Plane>, i: nat, width: i32, height: i32, format: u32)
    requires i < |planes|
  {
    HasPlane(format, planes[i].planeIdx) && !Repeats(planes, i) && RowsFit(planes[i], format, width, height)
  }

  lemma {:induction false} FirstFaultFrom(planes: seq<Plane>, from: nat, i: nat, width: i32, height: i32, format: u32)
    requires from <= i < |planes| && IsSupportedFormat(format) && !Sound(planes, i, width, height, format)
    requires forall j | from <= j < i :: Sound(planes, j, width, height, format)
    ensures PlaneErrorCode(planes, from, width, height, format) ==
            if !HasPlane(format, planes[i].planeIdx) then 1 else if Repeats(planes, i) then 2 else 6
    decreases i - from
  {
    ValidPlaneIff(planes[from], format, width, height);
    if from < i {
      assert Sound(planes, from, width, height, format);
      FirstFaultFrom(planes, from + 1, i, width, height, format);
    }
  }

  /** The code names the fault: impossible dimensions, an unsupported format, a wrong number of
      planes or a missing descriptor, and otherwise what is wrong with the first faulty plane. */
  lemma CodeNamesFault(tracked: Option<seq<Plane>>, width: i32, height: i32, format: u32)
    requires !ValidParams(tracked, width, height, format)
    ensures var planes := match tracked case Some(added) => added case None => [];
            var code := ParamsErrorCode(tracked, width, height, format);
            && (code == 5 <==> width <= 0 || height <= 0)
            && (code == 4 <==> width > 0 && height > 0 && !IsSupportedFormat(format))
            && (width > 0 && height > 0 && IsSupportedFormat(format) ==>
                  if |planes| != (if format == FORMAT_NV12 then 2 else 1) then code == 3
                  else if forall i | 0 <= i < |planes| :: Sound(planes, i, width, height, format)
                  then code == 3 && exists i | 0 <= i < |planes| :: planes[i].fd < 0
                  else exists i | 0 <= i < |planes| ::
                    && !Sound(planes, i, width, height, format)
                    && (forall j | 0 <= j < i :: Sound(planes, j, width, height, format))
                    && code == if !HasPlane(format, planes[i].planeIdx) then 1 else if Repeats(planes, i) then 2 else 6)
  {
    if tracked.Some? && width > 0 && height > 0 && IsSupportedFormat(format) && |tracked.value| == ExpectedPlanes(format) {
      var planes := tracked.value;
      PlaneErrorCodeMeans(planes, 0, width, height, format);
      if forall i | 0 <= i < |planes| :: Sound(planes, i, width, height, format) {
        SoundPlanes(planes, width, height, format);
      } else {
        var first := FirstFault(planes, 0, width, height, format);
        FirstFaultFrom(planes, 0, first, width, height, format);
      }
    }
  }

  lemma SoundPlanes(planes: seq<Plane>, width: i32, height: i32, format: u32)
    requires width > 0 && height > 0 && IsSupportedFormat(format) && |planes| == ExpectedPlanes(format)
    requires forall i | 0 <= i < |planes| :: Sound(planes, i, width, height, format)
    ensures PlaneErrorCode(planes, 0, width, height, format) == 3
    ensures !ValidParams(Some(planes), width, height, format) ==> exists i | 0 <= i < |planes| :: planes[i].fd < 0
  {
    forall i | 0 <= i < |planes|
      ensures ValidPlane(planes[i], format, width, height) && planes[i].planeIdx < ExpectedPlanes(format)
    {
      assert Sound(planes, i, width, height, format);
      ValidPlaneIff(planes[i], format, width, height);
    }
    forall i, j | 0 <= i < j < |planes|
      ensures planes[i].planeIdx != planes[j].planeIdx
    {
      assert Sound(planes, j, width, height, format) && !Repeats(planes, j);
    }
    PlaneErrorCodeMeans(planes, 0, width, height, format);
  }

  /** What an import needs: positive dimensions, a supported format, all of its planes and
      their descriptors, each plane once and with room for its rows. */
  lemma ParamsAcceptedIff(planes: seq<Plane>, width: i32, height: i32, format: u32)
    ensures ValidParams(Some(planes), width, height, format) <==>
            && width > 0 && height > 0 && IsSupportedFormat(format)
            && |planes| == (if format == FORMAT_NV12 then 2 else 1)
            && forall i | 0 <= i < |planes| :: planes[i].fd >= 0 && Sound(planes, i, width, height, format)
  {
    forall i | 0 <= i < |planes|
      ensures ValidPlane(planes[i], format, width, height) <==> RowsFit(planes[i], format, width, height)
    {
      ValidPlaneIff(planes[i], format, width, height);
    }
    if forall i | 0 <= i < |planes| :: Sound(planes, i, width, height, format) {
      forall i, j | 0 <= i < j < |planes|
        ensures planes[i].planeIdx != planes[j].planeIdx
      {
        assert Sound(planes, j, width, height, format) && !Repeats(planes, j);
      }
    }
  }

  ghost function FirstFault(planes: seq<Plane>, i: nat, width: i32, height: i32, format: u32): (first: nat)
    requires exists j: nat | i <= j < |planes| :: !Sound(planes, j, width, height, format)
    ensures i <= first < |planes| && !Sound(planes, first, width, height, format)
    ensures forall j: nat | i <= j < first :: Sound(planes, j, width, height, format)
    decreases |planes| - i
  {
    if !Sound(planes, i, width, height, format) then i else FirstFault(planes, i + 1, width, height, format)
  }
}

/** The layout checks over rendered canvases: counting overlapping rectangles, and the smallest URL font. */
module CanvasLayout {
  import opened JsValues

  datatype Rect = Rect(left: real, top: real, right: real, bottom: real)

  function Min(a: real, b: real): real { if a < b then a else b }
  function Max(a: real, b: real): real { if a > b then a else b }

  /** Nothing is left when less than a pixel remains on an axis. */
  function ClipRect(inner: Rect, outer: Rect): Option<Rect> {
    var r := Rect(Max(inner.left, outer.left), Max(inner.top, outer.top),
                  Min(inner.right, outer.right), Min(inner.bottom, outer.bottom));
    if r.bottom - r.top < 1.0 || r.right - r.left < 1.0 then None else Some(r)
  }

  predicate RectsOverlap(a: Rect, b: Rect, minPx: real) {
    && Min(a.bottom, b.bottom) - Max(a.top, b.top) > minPx
    && Min(a.right, b.right) - Max(a.left, b.left) > minPx
  }

  predicate FitsIn(r: Rect, outer: Rect) {
    outer.left <= r.left && r.right <= outer.right && outer.top <= r.top && r.bottom <= outer.bottom
  }

  /**
   * What overlapping means, without minima and maxima: some rectangle wider and higher than the threshold lies
   * within both.
   */
  lemma OverlapMeansSharedArea(a: Rect, b: Rect, minPx: real)
    ensures RectsOverlap(a, b, minPx) <==> exists r: Rect ::
      && r.right - r.left > minPx && r.bottom - r.top > minPx
      && FitsIn(r, a) && FitsIn(r, b)
  {
    var r := Rect(Max(a.left, b.left), Max(a.top, b.top), Min(a.right, b.right), Min(a.bottom, b.bottom));
    if RectsOverlap(a, b, minPx) {
      assert r.right - r.left > minPx && FitsIn(r, a) && FitsIn(r, b);
    }
  }

  /** Clipping only shrinks: whatever overlaps the clipped rectangle overlaps the whole one. */
  lemma ClippedOverlapIsOverlap(inner: Rect, outer: Rect, other: Rect, minPx: real)
    requires ClipRect(inner, outer).Some? && RectsOverlap(ClipRect(inner, outer).value, other, minPx)
    ensures RectsOverlap(inner, other, minPx) && RectsOverlap(outer, other, minPx)
  {
  }

  /**
   * Clipping is intersection: what fits in both rectangles is what fits in the clip; and there is no clip exactly when
   * no rectangle of a pixel by a pixel fits in both.
   */
  lemma ClipExact(inner: Rect, outer: Rect)
    ensures ClipRect(inner, outer).Some? ==> forall r: Rect ::
      FitsIn(r, ClipRect(inner, outer).value) <==> FitsIn(r, inner) && FitsIn(r, outer)
    ensures ClipRect(inner, outer).Some? <==> exists r: Rect ::
      r.right - r.left >= 1.0 && r.bottom - r.top >= 1.0 && FitsIn(r, inner) && FitsIn(r, outer)
  {
    var r := Rect(Max(inner.left, outer.left), Max(inner.top, outer.top),
                  Min(inner.right, outer.right), Min(inner.bottom, outer.bottom));
    assert FitsIn(r, inner) && FitsIn(r, outer);
  }

  // ---- Type over meta ----

  predicate BigEnough(r: Rect) {
    !(r.bottom - r.top < 2.0 || r.right - r.left < 2.0)
  }

  predicate TypeHitsMeta(t: Rect, m: Rect) {
    BigEnough(t) && BigEnough(m) && RectsOverlap(t, m, 1.0)
  }

  /** Both boxes measure two pixels or more each way, and more than one pixel each way lies in both. */
  lemma TypeHitsMetaExact(t: Rect, m: Rect)
    ensures TypeHitsMeta(t, m) <==>
      && t.right - t.left >= 2.0 && t.bottom - t.top >= 2.0 && m.right - m.left >= 2.0 && m.bottom - m.top >= 2.0
      && exists r: Rect :: r.right - r.left > 1.0 && r.bottom - r.top > 1.0 && FitsIn(r, t) && FitsIn(r, m)
  {
    OverlapMeansSharedArea(t, m, 1.0);
    assert forall r: Rect :: r.right - r.left > 1.0 && r.bottom - r.top > 1.0 && FitsIn(r, t) && FitsIn(r, m) ==>
      RectsOverlap(t, m, 1.0);
    var r := Rect(Max(t.left, m.left), Max(t.top, m.top), Min(t.right, m.right), Min(t.bottom, m.bottom));
    assert FitsIn(r, t) && FitsIn(r, m);
  }

  function TypeMetaHits(types: seq<Rect>, metas: seq<Rect>): set<(int, int)> {
    set i, j | 0 <= i < |types| && 0 <= j < |metas| && TypeHitsMeta(types[i], metas[j]) :: (i, j)
  }

  /** The pairs that the nested loops have met before column `j` of row `i`. */
  ghost function HitsBefore(types: seq<Rect>, metas: seq<Rect>, i: nat, j: nat): set<(int, int)> {
    set p | p in TypeMetaHits(types, metas) && (p.0 < i || (p.0 == i && p.1 < j))
  }

  lemma NextPair(types: seq<Rect>, metas: seq<Rect>, i: nat, j: nat)
    requires i < |types| && j < |metas|
    ensures |HitsBefore(types, metas, i, j + 1)| ==
      |HitsBefore(types, metas, i, j)| + if TypeHitsMeta(types[i], metas[j]) then 1 else 0
  {
    var added := if TypeHitsMeta(types[i], metas[j]) then {(i, j)} else {};
    assert HitsBefore(types, metas, i, j + 1) == HitsBefore(types, metas, i, j) + added;
  }

  lemma NextRow(types: seq<Rect>, metas: seq<Rect>, i: nat)
    requires i < |types|
    ensures HitsBefore(types, metas, i + 1, 0) == HitsBefore(types, metas, i, |metas|)
    ensures !BigEnough(types[i]) ==> HitsBefore(types, metas, i + 1, 0) == HitsBefore(types, metas, i, 0)
  {
  }

  /** The nested loops count each overlapping pair once. */
  method MeasureTypeMetaOverlap(types: seq<Rect>, metas: seq<Rect>) returns (hit: nat)
    ensures hit == |TypeMetaHits(types, metas)|
  {
    hit := 0;
    assert HitsBefore(types, metas, 0, 0) == {};
    for i := 0 to |types|
      invariant hit == |HitsBefore(types, metas, i, 0)|
    {
      NextRow(types, metas, i);
      if !BigEnough(types[i]) {
        continue;
      }
      for j := 0 to |metas|
        invariant hit == |HitsBefore(types, metas, i, j)|
      {
        NextPair(types, metas, i, j);
        if !BigEnough(metas[j]) {
          continue;
        }
        if RectsOverlap(types[i], metas[j], 1.0) {
          hit := hit + 1;
        }
      }
    }
    assert HitsBefore(types, metas, |types|, 0) == TypeMetaHits(types, metas);
  }

  // ---- URLs over QR plates ----

  /** A URL element: its box, font size, style, the box it is clipped to, and the plates beside it. */
  datatype Url = Url(box: Rect, fontPx: real, nowrapEllipsis: bool, clipTo: Rect, plates: seq<Rect>)

  datatype UrlReport = UrlReport(urlCount: nat, overlaps: nat, minFontPx: real, truncatedNowrap: nat)

  predicate UrlHitsPlate(u: Url, plate: Rect) {
    ClipRect(u.box, u.clipTo).Some? && RectsOverlap(ClipRect(u.box, u.clipTo).value, plate, 1.0)
  }

  /** More than one pixel each way lies in the URL's box, in what it is clipped to, and in the plate. */
  lemma UrlHitsPlateExact(u: Url, plate: Rect)
    ensures UrlHitsPlate(u, plate) <==> exists r: Rect ::
      r.right - r.left > 1.0 && r.bottom - r.top > 1.0 && FitsIn(r, u.box) && FitsIn(r, u.clipTo) && FitsIn(r, plate)
  {
    ClipExact(u.box, u.clipTo);
    if UrlHitsPlate(u, plate) {
      var c := ClipRect(u.box, u.clipTo).value;
      OverlapMeansSharedArea(c, plate, 1.0);
      var r: Rect :| r.right - r.left > 1.0 && r.bottom - r.top > 1.0 && FitsIn(r, c) && FitsIn(r, plate);
      assert FitsIn(r, u.box) && FitsIn(r, u.clipTo);
    }
    forall r: Rect | r.right - r.left > 1.0 && r.bottom - r.top > 1.0
      && FitsIn(r, u.box) && FitsIn(r, u.clipTo) && FitsIn(r, plate)
      ensures UrlHitsPlate(u, plate)
    {
      assert FitsIn(r, ClipRect(u.box, u.clipTo).value);
    }
  }

  function PlateHits(urls: seq<Url>): set<(int, int)> {
    set i, j | 0 <= i < |urls| && 0 <= j < |urls[i].plates| && UrlHitsPlate(urls[i], urls[i].plates[j]) :: (i, j)
  }

  /** The smallest font of all URLs, and 0 when there are none. */
  ghost predicate IsMinFont(m: real, urls: seq<Url>) {
    && (urls == [] ==> m == 0.0)
    && (urls != [] ==> (exists u :: u in urls && u.fontPx == m) && forall u :: u in urls ==> m <= u.fontPx)
  }

  function NextMin(before: Option<real>, fontPx: real): real {
    if before.None? || fontPx < before.value then fontPx else before.value
  }

  lemma MinFontStep(urls: seq<Url>, i: nat, before: Option<real>)
    requires i < |urls| && (before.None? <==> i == 0) && (before.Some? ==> IsMinFont(before.value, urls[..i]))
    ensures IsMinFont(NextMin(before, urls[i].fontPx), urls[..i + 1])
  {
    var m := NextMin(before, urls[i].fontPx);
    assert urls[..i + 1] == urls[..i] + [urls[i]];
    assert urls[i] in urls[..i + 1];
    if m != urls[i].fontPx {
      var u :| u in urls[..i] && u.fontPx == m;
      assert u in urls[..i + 1];
    }
  }

  /** The pairs of the `i`-th URL with its first `n` plates. */
  ghost function HitsUpTo(u: Url, i: int, n: nat): set<(int, int)> {
    set j | 0 <= j < |u.plates| && j < n && UrlHitsPlate(u, u.plates[j]) :: (i, j)
  }

  ghost function RowHits(u: Url, i: int): set<(int, int)> {
    HitsUpTo(u, i, |u.plates|)
  }

  lemma NextPlate(u: Url, i: int, n: nat)
    requires n < |u.plates|
    ensures |HitsUpTo(u, i, n + 1)| == |HitsUpTo(u, i, n)| + if UrlHitsPlate(u, u.plates[n]) then 1 else 0
  {
    var added := if UrlHitsPlate(u, u.plates[n]) then {(i, n as int)} else {};
    assert HitsUpTo(u, i, n + 1) == HitsUpTo(u, i, n) + added;
  }

  ghost function CutNowrap(urls: seq<Url>): set<int> {
    set i | 0 <= i < |urls| && urls[i].nowrapEllipsis
  }

  lemma NextUrl(urls: seq<Url>, i: nat)
    requires i < |urls|
    ensures |PlateHits(urls[..i + 1])| == |PlateHits(urls[..i])| + |RowHits(urls[i], i)|
    ensures |CutNowrap(urls[..i + 1])| == |CutNowrap(urls[..i])| + if urls[i].nowrapEllipsis then 1 else 0
  {
    assert PlateHits(urls[..i + 1]) == PlateHits(urls[..i]) + RowHits(urls[i], i);
    assert PlateHits(urls[..i]) !! RowHits(urls[i], i);
    assert CutNowrap(urls[..i + 1]) == CutNowrap(urls[..i]) + if urls[i].nowrapEllipsis then {i} else {};
  }

  /** The URL's own pairs, counted by the inner loop. */
  method CountPlateHits(u: Url, ghost i: int) returns (hits: nat)
    ensures hits == |RowHits(u, i)|
  {
    hits := 0;
    var clipped := ClipRect(u.box, u.clipTo);
    if clipped.None? {
      assert RowHits(u, i) == {};
      return;
    }
    assert HitsUpTo(u, i, 0) == {};
    for j := 0 to |u.plates|
      invariant hits == |HitsUpTo(u, i, j)|
    {
      NextPlate(u, i, j);
      if RectsOverlap(clipped.value, u.plates[j], 1.0) {
        hits := hits + 1;
      }
    }
  }

  method MeasureUrlLayout(urls: seq<Url>) returns (r: UrlReport)
    ensures r.urlCount == |urls|
    ensures r.overlaps == |PlateHits(urls)|
    ensures IsMinFont(r.minFontPx, urls)
    ensures r.truncatedNowrap == |CutNowrap(urls)|
  {
    var overlaps, truncated := 0, 0;
    var minFont: Option<real> := None;     // None is Infinity
    for i := 0 to |urls|
      invariant overlaps == |PlateHits(urls[..i])|
      invariant truncated == |CutNowrap(urls[..i])|
      invariant minFont.None? <==> i == 0
      invariant minFont.Some? ==> IsMinFont(minFont.value, urls[..i])
    {
      MinFontStep(urls, i, minFont);
      NextUrl(urls, i);
      if minFont.None? || urls[i].fontPx < minFont.value {
        minFont := Some(urls[i].fontPx);
      }
      if urls[i].nowrapEllipsis {
        truncated := truncated + 1;
      }
      var hits := CountPlateHits(urls[i], i);
      overlaps := overlaps + hits;
    }
    assert urls[..|urls|] == urls;
    return UrlReport(|urls|, overlaps, if minFont.None? then 0.0 else minFont.value, truncated);
  }
}

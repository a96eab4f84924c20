/**
 * The ear-clipping triangulator of DrawingUtils.c (triangulatePolygon and
 * its line-for-line twin triangulatePolygonB2Vec2).
 *
 * The algorithm keeps a working list of indices into the point array. It
 * scans the list for an "ear" (a convex corner whose triangle holds no other
 * vertex of the working list), emits that triangle, drops the ear's index
 * and rescans, until three indices remain, the triangle budget is spent, or
 * a whole scan finds no ear. Three remaining indices become one last
 * triangle, in working-list order.
 *
 * `ClipEars` is the reference definition of the main loop, one ear per
 * recursive step; `TriangulatePolygon` is the loop itself, proved to
 * compute the same triangles.
 */
module EarClipping {
  import opened Outcomes
  import opened Geometry

  /** The working list: strictly increasing, hence distinct, indices below n. */
  predicate IsWorkList(work: seq<int>, n: int) {
    && (forall k :: 0 <= k < |work| ==> 0 <= work[k] < n)
    && (forall k, l :: 0 <= k < l < |work| ==> work[k] < work[l])
  }

  /** The initial working list 0, 1, ..., n-1. */
  function Identity(n: nat): (r: seq<int>)
    ensures IsWorkList(r, n) && |r| == n
    ensures forall k :: 0 <= k < n ==> r[k] == k
  {
    seq(n, k => k)
  }

  /** Index of the cyclic predecessor of position i (`i0` in the source). */
  function PrevIndex(work: seq<int>, i: int): int
    requires 0 <= i < |work|
  {
    if i == 0 then work[|work| - 1] else work[i - 1]
  }

  /** Index of the cyclic successor of position i (`i2` in the source). */
  function NextIndex(work: seq<int>, i: int): int
    requires 0 <= i < |work|
  {
    if i + 1 == |work| then work[0] else work[i + 1]
  }

  lemma ModBelow(a: int, n: int)
    requires 0 <= a < n
    ensures a % n == a
  {
    assert a == n * 0 + a;
  }

  lemma ModWrap(a: int, n: int)
    requires 0 < n <= a < 2 * n
    ensures a % n == a - n
  {
    assert a == n * 1 + (a - n);
  }

  /** The source's modular neighbour arithmetic picks the same two indices. */
  lemma NeighbourArithmetic(work: seq<int>, i: int)
    requires 0 <= i < |work|
    ensures work[(i + |work| - 1) % |work|] == PrevIndex(work, i)
    ensures work[(i + 1) % |work|] == NextIndex(work, i)
  {
    var n := |work|;
    if i == 0 {
      ModBelow(n - 1, n);
    } else {
      ModWrap(i + n - 1, n);
    }
    if i + 1 == n {
      ModWrap(i + 1, n);
    } else {
      ModBelow(i + 1, n);
    }
  }

  /**
   * The triangle (prev, curr, next) tested at position i; for a clockwise
   * polygon prev and next are the successor's and the predecessor's points.
   */
  function Candidate(points: seq<Point>, work: seq<int>, i: int, cw: bool): Triangle
    requires IsWorkList(work, |points|) && 0 <= i < |work|
  {
    var i0, i1, i2 := PrevIndex(work, i), work[i], NextIndex(work, i);
    if cw then Triangle(points[i2], points[i1], points[i0])
    else Triangle(points[i0], points[i1], points[i2])
  }

  /** Index v is one of the three corners of the candidate at position i. */
  predicate IsCorner(work: seq<int>, i: int, v: int)
    requires 0 <= i < |work|
  {
    v == PrevIndex(work, i) || v == work[i] || v == NextIndex(work, i)
  }

  /** The working-list vertex at position j lies in the candidate at position i. */
  predicate Blocks(points: seq<Point>, work: seq<int>, i: int, j: int, cw: bool, inside: Containment)
    requires IsWorkList(work, |points|) && 0 <= i < |work| && 0 <= j < |work|
  {
    var t := Candidate(points, work, i, cw);
    !IsCorner(work, i, work[j]) && inside(points[work[j]], t.a, t.b, t.c)
  }

  /** Position i of the working list is an ear: convex, and no other working vertex inside. */
  predicate IsEar(points: seq<Point>, work: seq<int>, i: int, cw: bool, inside: Containment)
    requires IsWorkList(work, |points|) && 0 <= i < |work|
  {
    var t := Candidate(points, work, i, cw);
    && IsConvex(t.a, t.b, t.c)
    && forall j :: 0 <= j < |work| ==> !Blocks(points, work, i, j, cw, inside)
  }

  /** The first ear at or after position `from`, as the scan meets it. */
  function FirstEar(points: seq<Point>, work: seq<int>, from: nat, cw: bool, inside: Containment): (r: Option<nat>)
    requires IsWorkList(work, |points|) && from <= |work|
    ensures r.Some? ==> from <= r.value < |work| && IsEar(points, work, r.value, cw, inside)
    ensures r.Some? ==> forall k :: from <= k < r.value ==> !IsEar(points, work, k, cw, inside)
    ensures r.None? ==> forall k :: from <= k < |work| ==> !IsEar(points, work, k, cw, inside)
    decreases |work| - from
  {
    if from == |work| then None
    else if IsEar(points, work, from, cw, inside) then Some(from)
    else FirstEar(points, work, from + 1, cw, inside)
  }

  /** The working list with position i deleted (the shifting loop of the source). */
  function RemoveAt(work: seq<int>, i: int): seq<int>
    requires 0 <= i < |work|
  {
    work[..i] + work[i + 1..]
  }

  lemma RemoveAtKeepsWorkList(work: seq<int>, n: int, i: int)
    requires IsWorkList(work, n) && 0 <= i < |work|
    ensures IsWorkList(RemoveAt(work, i), n) && |RemoveAt(work, i)| == |work| - 1
    ensures Within(RemoveAt(work, i), work)
  {
    var r := RemoveAt(work, i);
    forall k, l | 0 <= k < l < |r|
      ensures r[k] < r[l]
    {
      var k' := if k < i then k else k + 1;
      var l' := if l < i then l else l + 1;
      assert r[k] == work[k'] && r[l] == work[l'];
    }
  }

  /** One clipped ear: the working list it was found in and its position there. */
  datatype Clip = Clip(work: seq<int>, pos: nat)

  /** The main loop's trace: the ears clipped, their triangles, the final working list. */
  datatype Clipping = Clipping(clips: seq<Clip>, ears: seq<Triangle>, rest: seq<int>)

  /**
   * Clip c emitted `ear`: its position holds an ear of its working list, it is
   * the first ear of the scan, and `ear` is that position's candidate.
   */
  predicate ValidClip(points: seq<Point>, c: Clip, ear: Triangle, cw: bool, inside: Containment) {
    && IsWorkList(c.work, |points|) && |c.work| > 3 && c.pos < |c.work|
    && IsEar(points, c.work, c.pos, cw, inside)
    && (forall k :: 0 <= k < c.pos ==> !IsEar(points, c.work, k, cw, inside))
    && ear == Candidate(points, c.work, c.pos, cw)
  }

  /** The working list after clip k: the next clip's list, or the final list. */
  function After(r: Clipping, k: nat): seq<int>
    requires k < |r.clips|
  {
    if k + 1 < |r.clips| then r.clips[k + 1].work else r.rest
  }

  /**
   * Reference definition of the main loop (DrawingUtils.c:55-111) from
   * working list `work` with `budget` triangles still allowed.
   */
  function ClipEars(points: seq<Point>, work: seq<int>, budget: int, cw: bool, inside: Containment): (r: Clipping)
    requires IsWorkList(work, |points|) && |work| >= 3
    ensures |r.clips| == |r.ears| == |work| - |r.rest|
    ensures 3 <= |r.rest| && IsWorkList(r.rest, |points|)
    ensures |r.ears| <= if budget < 0 then 0 else budget
    decreases |work|
  {
    if |work| > 3 && budget > 0 then
      match FirstEar(points, work, 0, cw, inside)
      case None => Clipping([], [], work)
      case Some(i) =>
        RemoveAtKeepsWorkList(work, |points|, i);
        var rest := ClipEars(points, RemoveAt(work, i), budget - 1, cw, inside);
        Clipping([Clip(work, i)] + rest.clips, [Candidate(points, work, i, cw)] + rest.ears, rest.rest)
    else
      Clipping([], [], work)
  }

  /** One unfolding of `ClipEars` when an ear is found at position i. */
  lemma ClipEarsStep(points: seq<Point>, work: seq<int>, budget: int, cw: bool, inside: Containment, i: nat)
    requires IsWorkList(work, |points|) && |work| > 3 && budget > 0
    requires FirstEar(points, work, 0, cw, inside) == Some(i)
    ensures IsWorkList(RemoveAt(work, i), |points|) && |RemoveAt(work, i)| == |work| - 1
    ensures ClipEars(points, work, budget, cw, inside)
              == Cons(Clip(work, i), Candidate(points, work, i, cw), ClipEars(points, RemoveAt(work, i), budget - 1, cw, inside))
  {
    RemoveAtKeepsWorkList(work, |points|, i);
  }

  /** The loop ends at once on three indices, a spent budget, or a scan that finds no ear. */
  lemma ClipEarsDone(points: seq<Point>, work: seq<int>, budget: int, cw: bool, inside: Containment)
    requires IsWorkList(work, |points|) && |work| >= 3
    requires |work| == 3 || budget <= 0 || FirstEar(points, work, 0, cw, inside).None?
    ensures ClipEars(points, work, budget, cw, inside) == Clipping([], [], work)
  {
  }

  /** A trace with one more clip in front. */
  function Cons(c: Clip, ear: Triangle, r: Clipping): Clipping {
    Clipping([c] + r.clips, [ear] + r.ears, r.rest)
  }

  /** Every element of `a` occurs in `b`. */
  predicate Within(a: seq<int>, b: seq<int>) {
    forall k :: 0 <= k < |a| ==> a[k] in b
  }

  lemma WithinTransitive(a: seq<int>, b: seq<int>, c: seq<int>)
    requires Within(a, b) && Within(b, c)
    ensures Within(a, c)
  {
    forall k | 0 <= k < |a|
      ensures a[k] in c
    {
      var m :| 0 <= m < |b| && b[m] == a[k];
    }
  }

  /** The final working list of `r` is what is left of `work`. */
  predicate StartsFrom(r: Clipping, work: seq<int>) {
    && Within(r.rest, work)
    && (|r.clips| == 0 ==> r.rest == work)
    && (|r.clips| > 0 ==> r.clips[0].work == work)
  }

  lemma {:induction false} ClipEarsStartsFrom(points: seq<Point>, work: seq<int>, budget: int, cw: bool, inside: Containment)
    requires IsWorkList(work, |points|) && |work| >= 3
    ensures StartsFrom(ClipEars(points, work, budget, cw, inside), work)
    decreases |work|
  {
    if |work| > 3 && budget > 0 {
      match FirstEar(points, work, 0, cw, inside)
      case None =>
      case Some(i) =>
        ClipEarsStep(points, work, budget, cw, inside, i);
        var shorter := RemoveAt(work, i);
        RemoveAtKeepsWorkList(work, |points|, i);
        ClipEarsStartsFrom(points, shorter, budget - 1, cw, inside);
        WithinTransitive(ClipEars(points, shorter, budget - 1, cw, inside).rest, shorter, work);
    }
  }

  /** No position of the working list is an ear: a full scan finds nothing. */
  predicate NoEar(points: seq<Point>, work: seq<int>, cw: bool, inside: Containment)
    requires IsWorkList(work, |points|)
  {
    forall i :: 0 <= i < |work| ==> !IsEar(points, work, i, cw, inside)
  }

  /** The loop stopped with four or more indices and budget to spare only because no ear was left. */
  predicate StopsOnlyWhenStuck(points: seq<Point>, r: Clipping, budget: int, cw: bool, inside: Containment) {
    IsWorkList(r.rest, |points|) && (|r.rest| > 3 && |r.ears| < budget ==> FirstEar(points, r.rest, 0, cw, inside).None?)
  }

  lemma {:induction false} ClipEarsStall(points: seq<Point>, work: seq<int>, budget: int, cw: bool, inside: Containment)
    requires IsWorkList(work, |points|) && |work| >= 3
    ensures StopsOnlyWhenStuck(points, ClipEars(points, work, budget, cw, inside), budget, cw, inside)
    decreases |work|, 1
  {
    var e := FirstEar(points, work, 0, cw, inside);
    if |work| > 3 && budget > 0 && e.Some? {
      ClipEarsStallAfterEar(points, work, budget, cw, inside, e.value);
    } else {
      ClipEarsDone(points, work, budget, cw, inside);
    }
  }

  lemma {:induction false} ClipEarsStallAfterEar(points: seq<Point>, work: seq<int>, budget: int, cw: bool, inside: Containment, i: nat)
    requires IsWorkList(work, |points|) && |work| > 3 && budget > 0
    requires FirstEar(points, work, 0, cw, inside) == Some(i)
    ensures StopsOnlyWhenStuck(points, ClipEars(points, work, budget, cw, inside), budget, cw, inside)
    decreases |work|, 0
  {
    ClipEarsStep(points, work, budget, cw, inside, i);
    var r := ClipEars(points, RemoveAt(work, i), budget - 1, cw, inside);
    ClipEarsStall(points, RemoveAt(work, i), budget - 1, cw, inside);
    ConsStuck(points, Clip(work, i), Candidate(points, work, i, cw), r, budget, cw, inside);
  }

  lemma ConsStuck(points: seq<Point>, c: Clip, ear: Triangle, r: Clipping, budget: int, cw: bool, inside: Containment)
    requires StopsOnlyWhenStuck(points, r, budget - 1, cw, inside)
    ensures StopsOnlyWhenStuck(points, Cons(c, ear, r), budget, cw, inside)
  {
  }

  /** Every clip of `r` is the first ear of its working list and emitted that ear's candidate. */
  predicate ValidTrace(points: seq<Point>, r: Clipping, cw: bool, inside: Containment) {
    && |r.clips| == |r.ears|
    && forall k :: 0 <= k < |r.clips| ==> ValidClip(points, r.clips[k], r.ears[k], cw, inside)
  }

  /** The ear `FirstEar` finds makes a valid clip. */
  lemma FirstEarClip(points: seq<Point>, work: seq<int>, cw: bool, inside: Containment, i: nat)
    requires IsWorkList(work, |points|) && |work| > 3
    requires FirstEar(points, work, 0, cw, inside) == Some(i)
    ensures ValidClip(points, Clip(work, i), Candidate(points, work, i, cw), cw, inside)
  {
  }

  lemma ConsValid(points: seq<Point>, c: Clip, ear: Triangle, r: Clipping, cw: bool, inside: Containment)
    requires ValidClip(points, c, ear, cw, inside) && ValidTrace(points, r, cw, inside)
    ensures ValidTrace(points, Cons(c, ear, r), cw, inside)
  {
    var r' := Cons(c, ear, r);
    forall k | 1 <= k < |r'.clips|
      ensures ValidClip(points, r'.clips[k], r'.ears[k], cw, inside)
    {
      assert r'.clips[k] == r.clips[k - 1] && r'.ears[k] == r.ears[k - 1];
    }
  }

  lemma {:induction false} ClipEarsValid(points: seq<Point>, work: seq<int>, budget: int, cw: bool, inside: Containment)
    requires IsWorkList(work, |points|) && |work| >= 3
    ensures ValidTrace(points, ClipEars(points, work, budget, cw, inside), cw, inside)
    decreases |work|
  {
    if |work| > 3 && budget > 0 {
      match FirstEar(points, work, 0, cw, inside)
      case None =>
      case Some(i) =>
        ClipEarsStep(points, work, budget, cw, inside, i);
        ClipEarsValid(points, RemoveAt(work, i), budget - 1, cw, inside);
        FirstEarClip(points, work, cw, inside, i);
        ConsValid(points, Clip(work, i), Candidate(points, work, i, cw),
                  ClipEars(points, RemoveAt(work, i), budget - 1, cw, inside), cw, inside);
    }
  }

  /** Clip k's working list, with its ear's index removed, is the next working list. */
  predicate Linked(r: Clipping, k: nat)
    requires k < |r.clips|
  {
    r.clips[k].pos < |r.clips[k].work| && After(r, k) == RemoveAt(r.clips[k].work, r.clips[k].pos)
  }

  predicate LinkedTrace(r: Clipping) {
    forall k :: 0 <= k < |r.clips| ==> Linked(r, k)
  }

  lemma ConsLinked(c: Clip, ear: Triangle, r: Clipping)
    requires c.pos < |c.work| && StartsFrom(r, RemoveAt(c.work, c.pos)) && LinkedTrace(r)
    ensures LinkedTrace(Cons(c, ear, r))
  {
    var r' := Cons(c, ear, r);
    assert Linked(r', 0);
    forall k | 1 <= k < |r'.clips|
      ensures Linked(r', k)
    {
      assert Linked(r, k - 1);
      assert r'.clips[k] == r.clips[k - 1];
      assert After(r', k) == After(r, k - 1);
    }
  }

  lemma {:induction false} ClipEarsLinked(points: seq<Point>, work: seq<int>, budget: int, cw: bool, inside: Containment)
    requires IsWorkList(work, |points|) && |work| >= 3
    ensures LinkedTrace(ClipEars(points, work, budget, cw, inside))
    decreases |work|
  {
    if |work| > 3 && budget > 0 {
      match FirstEar(points, work, 0, cw, inside)
      case None =>
      case Some(i) =>
        ClipEarsStep(points, work, budget, cw, inside, i);
        ClipEarsLinked(points, RemoveAt(work, i), budget - 1, cw, inside);
        ClipEarsStartsFrom(points, RemoveAt(work, i), budget - 1, cw, inside);
        ConsLinked(Clip(work, i), Candidate(points, work, i, cw), ClipEars(points, RemoveAt(work, i), budget - 1, cw, inside));
    }
  }

  /** The triangles of a valid trace pass the convexity test. */
  lemma ValidEarsConvex(points: seq<Point>, r: Clipping, cw: bool, inside: Containment)
    requires ValidTrace(points, r, cw, inside)
    ensures forall k :: 0 <= k < |r.ears| ==> IsConvex(r.ears[k].a, r.ears[k].b, r.ears[k].c)
  {
    forall k | 0 <= k < |r.ears|
      ensures IsConvex(r.ears[k].a, r.ears[k].b, r.ears[k].c)
    {
      assert ValidClip(points, r.clips[k], r.ears[k], cw, inside);
    }
  }

  /** The main loop run on the whole polygon. */
  function Clipped(points: seq<Point>, maxTriangles: int, cw: bool, inside: Containment): Clipping
    requires |points| >= 3
  {
    ClipEars(points, Identity(|points|), maxTriangles, cw, inside)
  }

  /** The last triangle, its corners in working-list order whatever the winding. */
  function FinalTriangle(points: seq<Point>, rest: seq<int>): Triangle
    requires IsWorkList(rest, |points|) && |rest| == 3
  {
    Triangle(points[rest[0]], points[rest[1]], points[rest[2]])
  }

  /**
   * triangulatePolygon (DrawingUtils.c:41-125): the triangles written to the
   * output buffer; the source's return value is their number.
   */
  function Triangulate(points: seq<Point>, maxTriangles: int, cw: bool, inside: Containment): (r: seq<Triangle>)
    ensures |points| < 3 ==> r == []
    ensures maxTriangles <= 0 ==> r == []
    ensures |r| <= maxTriangles || r == []
    ensures |points| >= 3 ==> |r| <= |points| - 2
    ensures |points| >= 3 ==> forall k :: 0 <= k < |r| && k < |points| - 3 ==> IsConvex(r[k].a, r[k].b, r[k].c)
  {
    if |points| < 3 then []
    else
      var c := Clipped(points, maxTriangles, cw, inside);
      ClipEarsValid(points, Identity(|points|), maxTriangles, cw, inside);
      ValidEarsConvex(points, c, cw, inside);
      if |c.rest| == 3 && |c.ears| < maxTriangles then c.ears + [FinalTriangle(points, c.rest)]
      else c.ears
  }

  /**
   * Each triangle before position pointCount-3 is an ear clipped from the
   * working list of its time: convex, no vertex of that list other than its
   * corners inside it, and the first such position of the scan. The working
   * lists start at 0..pointCount-1 and each loses the index of its ear.
   */
  lemma TriangulateEmitsEars(points: seq<Point>, maxTriangles: int, cw: bool, inside: Containment)
    requires |points| >= 3
    ensures var c := Clipped(points, maxTriangles, cw, inside);
            var r := Triangulate(points, maxTriangles, cw, inside);
            && |c.ears| <= |r|
            && (|c.clips| > 0 ==> c.clips[0].work == Identity(|points|))
            && forall k :: 0 <= k < |c.ears| ==>
                 && ValidClip(points, c.clips[k], r[k], cw, inside)
                 && Linked(c, k)
  {
    var c := Clipped(points, maxTriangles, cw, inside);
    ClipEarsValid(points, Identity(|points|), maxTriangles, cw, inside);
    ClipEarsLinked(points, Identity(|points|), maxTriangles, cw, inside);
    ClipEarsStartsFrom(points, Identity(|points|), maxTriangles, cw, inside);
    assert ValidTrace(points, c, cw, inside) && LinkedTrace(c);
  }

  /**
   * The final triangle is emitted exactly when three indices remain and the
   * budget is not spent; it is then the last one, with its corners in
   * increasing index order, whatever `cw` is.
   */
  lemma TriangulateFinalTriangle(points: seq<Point>, maxTriangles: int, cw: bool, inside: Containment)
    requires |points| >= 3
    ensures var c := Clipped(points, maxTriangles, cw, inside);
            var r := Triangulate(points, maxTriangles, cw, inside);
            && (|r| == |c.ears| + 1 <==> |c.rest| == 3 && |c.ears| < maxTriangles)
            && (|r| == |c.ears| + 1 ==>
                  && |r| == |points| - 2
                  && c.rest[0] < c.rest[1] < c.rest[2]
                  && r[|r| - 1] == Triangle(points[c.rest[0]], points[c.rest[1]], points[c.rest[2]]))
  {
  }

  /**
   * Fewer than pointCount-2 triangles means the budget was spent or a full
   * scan of a working list of four or more indices found no ear.
   */
  lemma TriangulateShortfall(points: seq<Point>, maxTriangles: int, cw: bool, inside: Containment)
    requires |points| >= 3
    ensures var c := Clipped(points, maxTriangles, cw, inside);
            var r := Triangulate(points, maxTriangles, cw, inside);
            |r| < |points| - 2 ==>
              || maxTriangles <= |r|
              || (|c.rest| > 3 && NoEar(points, c.rest, cw, inside))
  {
    ClipEarsStall(points, Identity(|points|), maxTriangles, cw, inside);
  }

  /**
   * Loop invariant of the main loop: the whole run's trace is the triangles
   * emitted so far followed by a fresh run from the current working list.
   */
  predicate Resumes(points: seq<Point>, whole: Clipping, emitted: seq<Triangle>, work: seq<int>,
                    maxTriangles: int, cw: bool, inside: Containment)
    requires IsWorkList(work, |points|) && |work| >= 3
  {
    var r := ClipEars(points, work, maxTriangles - |emitted|, cw, inside);
    whole.ears == emitted + r.ears && whole.rest == r.rest
  }

  /** Clipping the first ear keeps the loop invariant. */
  lemma ResumesAfterEar(points: seq<Point>, whole: Clipping, emitted: seq<Triangle>, work: seq<int>,
                        maxTriangles: int, cw: bool, inside: Containment, i: nat)
    requires IsWorkList(work, |points|) && |work| > 3 && |emitted| < maxTriangles
    requires FirstEar(points, work, 0, cw, inside) == Some(i)
    requires Resumes(points, whole, emitted, work, maxTriangles, cw, inside)
    ensures IsWorkList(RemoveAt(work, i), |points|) && |RemoveAt(work, i)| == |work| - 1
    ensures Resumes(points, whole, emitted + [Candidate(points, work, i, cw)], RemoveAt(work, i), maxTriangles, cw, inside)
  {
    var budget := maxTriangles - |emitted|;
    ClipEarsStep(points, work, budget, cw, inside, i);
    AppendEar(whole, emitted, Clip(work, i), Candidate(points, work, i, cw),
              ClipEars(points, work, budget, cw, inside), ClipEars(points, RemoveAt(work, i), budget - 1, cw, inside));
  }

  lemma AppendEar(whole: Clipping, emitted: seq<Triangle>, c: Clip, ear: Triangle, r: Clipping, r': Clipping)
    requires r == Cons(c, ear, r') && whole.ears == emitted + r.ears && whole.rest == r.rest
    ensures whole.ears == (emitted + [ear]) + r'.ears && whole.rest == r'.rest
  {
    assert emitted + ([ear] + r'.ears) == (emitted + [ear]) + r'.ears;
  }

  /** How `Triangulate` finishes once the main loop has produced `ears` and left `rest`. */
  lemma TriangulateFinish(points: seq<Point>, maxTriangles: int, cw: bool, inside: Containment, ears: seq<Triangle>, rest: seq<int>)
    requires |points| >= 3 && IsWorkList(rest, |points|) && |rest| >= 3
    requires Clipped(points, maxTriangles, cw, inside).ears == ears
    requires Clipped(points, maxTriangles, cw, inside).rest == rest
    ensures Triangulate(points, maxTriangles, cw, inside)
              == if |rest| == 3 && |ears| < maxTriangles then ears + [FinalTriangle(points, rest)] else ears
  {
  }

  /**
   * The containment scan of DrawingUtils.c:83-93: does any working-list
   * vertex other than the three corners lie in the candidate at position i?
   */
  method ContainsPoint(points: seq<Point>, indices: seq<int>, i: int, cw: bool, inside: Containment)
    returns (containsPoint: bool)
    requires IsWorkList(indices, |points|) && 0 <= i < |indices|
    ensures containsPoint <==> exists j :: 0 <= j < |indices| && Blocks(points, indices, i, j, cw, inside)
  {
    var n := |indices|;
    var i0, i1, i2 := PrevIndex(indices, i), indices[i], NextIndex(indices, i);
    var t := Candidate(points, indices, i, cw);
    containsPoint := false;
    var j := 0;
    while j < n
      invariant 0 <= j <= n
      invariant forall l :: 0 <= l < j ==> !Blocks(points, indices, i, l, cw, inside)
    {
      var idx := indices[j];
      if idx == i0 || idx == i1 || idx == i2 {
        j := j + 1;
        continue;
      }
      if inside(points[idx], t.a, t.b, t.c) {
        assert Blocks(points, indices, i, j, cw, inside);
        containsPoint := true;
        return;
      }
      j := j + 1;
    }
  }

  /**
   * One scan of the working list (DrawingUtils.c:57-105): the first ear's
   * position, or none.
   */
  method FindEar(points: seq<Point>, indices: seq<int>, cw: bool, inside: Containment)
    returns (earFound: bool, i: int)
    requires IsWorkList(indices, |points|) && |indices| >= 3
    ensures earFound ==> 0 <= i < |indices| && FirstEar(points, indices, 0, cw, inside) == Some(i)
    ensures !earFound ==> FirstEar(points, indices, 0, cw, inside) == None
  {
    var n := |indices|;
    i := 0;
    while i < n
      invariant 0 <= i <= n
      invariant forall k :: 0 <= k < i ==> !IsEar(points, indices, k, cw, inside)
    {
      NeighbourArithmetic(indices, i);
      var i0, i1, i2 := indices[(i + n - 1) % n], indices[i], indices[(i + 1) % n];
      var prev, curr, next;
      if cw {
        prev, curr, next := points[i2], points[i1], points[i0];
      } else {
        prev, curr, next := points[i0], points[i1], points[i2];
      }
      assert Triangle(prev, curr, next) == Candidate(points, indices, i, cw);
      if IsConvex(prev, curr, next) {
        var containsPoint := ContainsPoint(points, indices, i, cw, inside);
        if !containsPoint {
          assert IsEar(points, indices, i, cw, inside);
          return true, i;
        }
      }
      i := i + 1;
    }
    return false, 0;
  }

  /**
   * The index-shifting ear clipper of DrawingUtils.c:41-125, with its scan
   * and containment loops split out as `FindEar` and `ContainsPoint`.
   */
  method TriangulatePolygon(points: seq<Point>, maxTriangles: int, cw: bool, inside: Containment)
    returns (triangles: seq<Triangle>)
    ensures triangles == Triangulate(points, maxTriangles, cw, inside)
  {
    var pointCount := |points|;
    if pointCount < 3 {
      return [];
    }
    var indices := Identity(pointCount);
    var n := pointCount;
    triangles := [];

    ghost var whole := Clipped(points, maxTriangles, cw, inside);

    while n > 3 && |triangles| < maxTriangles
      invariant n == |indices| >= 3 && IsWorkList(indices, pointCount)
      invariant Resumes(points, whole, triangles, indices, maxTriangles, cw, inside)
      decreases n
    {
      var earFound, i := FindEar(points, indices, cw, inside);
      if !earFound {
        ClipEarsDone(points, indices, maxTriangles - |triangles|, cw, inside);
        break;
      }
      ResumesAfterEar(points, whole, triangles, indices, maxTriangles, cw, inside, i);
      triangles := triangles + [Candidate(points, indices, i, cw)];
      indices := RemoveAt(indices, i);
      n := n - 1;
    }

    if n == 3 || |triangles| >= maxTriangles {
      ClipEarsDone(points, indices, maxTriangles - |triangles|, cw, inside);
    }
    TriangulateFinish(points, maxTriangles, cw, inside, triangles, indices);
    if n == 3 && |triangles| < maxTriangles {
      triangles := triangles + [Triangle(points[indices[0]], points[indices[1]], points[indices[2]])];
    }
  }
}

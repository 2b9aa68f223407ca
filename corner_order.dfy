/**
 * Corner role assignment (`orderCorners`) and the mapping of a found
 * quadrilateral back to source resolution (`toCornerPoints`).
 *
 * topLeft has the least x + y, bottomRight the greatest x + y, topRight the
 * greatest x - y and bottomLeft the least x - y. Kotlin's `minByOrNull` and
 * `maxByOrNull` replace their candidate only on a strictly better key, so the
 * first extremal point in list order wins a tie.
 */
module CornerOrder {
  import opened Options
  import opened Downscale
  import opened Plane

  datatype CornerPoints = CornerPoints(topLeft: Point, topRight: Point, bottomRight: Point, bottomLeft: Point)

  /** The two keys the roles are read from. */
  datatype Key = Sum | Difference

  function KeyOf(p: Point, k: Key): real {
    match k
    case Sum => p.x + p.y
    case Difference => p.x - p.y
  }

  /** `points[i]` is the first point of least key. */
  predicate IsFirstMin(points: seq<Point>, k: Key, i: int) {
    0 <= i < |points| &&
    (forall j :: 0 <= j < |points| ==> KeyOf(points[i], k) <= KeyOf(points[j], k)) &&
    (forall j :: 0 <= j < i ==> KeyOf(points[j], k) > KeyOf(points[i], k))
  }

  /** `points[i]` is the first point of greatest key. */
  predicate IsFirstMax(points: seq<Point>, k: Key, i: int) {
    0 <= i < |points| &&
    (forall j :: 0 <= j < |points| ==> KeyOf(points[j], k) <= KeyOf(points[i], k)) &&
    (forall j :: 0 <= j < i ==> KeyOf(points[j], k) < KeyOf(points[i], k))
  }

  /** `minByOrNull`'s scan from position `i` on, holding candidate `best`. */
  function MinByFrom(points: seq<Point>, k: Key, best: nat, i: nat): (r: nat)
    requires best < i <= |points|
    requires forall j :: 0 <= j < i ==> KeyOf(points[best], k) <= KeyOf(points[j], k)
    requires forall j :: 0 <= j < best ==> KeyOf(points[j], k) > KeyOf(points[best], k)
    ensures IsFirstMin(points, k, r)
    decreases |points| - i
  {
    if i == |points| then best
    else if KeyOf(points[best], k) > KeyOf(points[i], k) then MinByFrom(points, k, i, i + 1)
    else MinByFrom(points, k, best, i + 1)
  }

  /** `maxByOrNull`'s scan from position `i` on, holding candidate `best`. */
  function MaxByFrom(points: seq<Point>, k: Key, best: nat, i: nat): (r: nat)
    requires best < i <= |points|
    requires forall j :: 0 <= j < i ==> KeyOf(points[j], k) <= KeyOf(points[best], k)
    requires forall j :: 0 <= j < best ==> KeyOf(points[j], k) < KeyOf(points[best], k)
    ensures IsFirstMax(points, k, r)
    decreases |points| - i
  {
    if i == |points| then best
    else if KeyOf(points[best], k) < KeyOf(points[i], k) then MaxByFrom(points, k, i, i + 1)
    else MaxByFrom(points, k, best, i + 1)
  }

  function MinBy(points: seq<Point>, k: Key): (r: nat)
    requires |points| > 0
    ensures IsFirstMin(points, k, r)
  {
    MinByFrom(points, k, 0, 1)
  }

  function MaxBy(points: seq<Point>, k: Key): (r: nat)
    requires |points| > 0
    ensures IsFirstMax(points, k, r)
  {
    MaxByFrom(points, k, 0, 1)
  }

  /**
   * `orderCorners`. The source falls back to `points.first()`/`points.last()`
   * only for an empty list, where both throw; callers pass four points.
   */
  function OrderCorners(points: seq<Point>): (c: CornerPoints)
    requires |points| > 0
    ensures exists i :: IsFirstMin(points, Sum, i) && c.topLeft == points[i]
    ensures exists i :: IsFirstMax(points, Sum, i) && c.bottomRight == points[i]
    ensures exists i :: IsFirstMax(points, Difference, i) && c.topRight == points[i]
    ensures exists i :: IsFirstMin(points, Difference, i) && c.bottomLeft == points[i]
  {
    CornerPoints(points[MinBy(points, Sum)], points[MaxBy(points, Difference)],
                 points[MaxBy(points, Sum)], points[MinBy(points, Difference)])
  }

  /**
   * Reordering the points never changes the key value of any role: topLeft
   * always has the least x + y of the set, and so on.
   */
  lemma OrderCornersKeysInvariant(ps: seq<Point>, qs: seq<Point>)
    requires |ps| > 0 && multiset(ps) == multiset(qs)
    ensures |qs| > 0
    ensures var a, b := OrderCorners(ps), OrderCorners(qs);
      KeyOf(a.topLeft, Sum) == KeyOf(b.topLeft, Sum) &&
      KeyOf(a.bottomRight, Sum) == KeyOf(b.bottomRight, Sum) &&
      KeyOf(a.topRight, Difference) == KeyOf(b.topRight, Difference) &&
      KeyOf(a.bottomLeft, Difference) == KeyOf(b.bottomLeft, Difference)
  {
    assert |qs| == |multiset(qs)| == |ps|;
    LeastKeysAgree(ps, qs, Sum, MinBy(ps, Sum), MinBy(qs, Sum));
    GreatestKeysAgree(ps, qs, Sum, MaxBy(ps, Sum), MaxBy(qs, Sum));
    GreatestKeysAgree(ps, qs, Difference, MaxBy(ps, Difference), MaxBy(qs, Difference));
    LeastKeysAgree(ps, qs, Difference, MinBy(ps, Difference), MinBy(qs, Difference));
  }

  /** A point of one sequence occurs in any sequence with the same multiset. */
  lemma SameElements(ps: seq<Point>, qs: seq<Point>, i: int) returns (j: int)
    requires multiset(ps) == multiset(qs) && 0 <= i < |ps|
    ensures 0 <= j < |qs| && qs[j] == ps[i]
  {
    assert ps[i] in multiset(qs);
    j :| 0 <= j < |qs| && qs[j] == ps[i];
  }

  lemma LeastKeysAgree(ps: seq<Point>, qs: seq<Point>, k: Key, i: int, j: int)
    requires multiset(ps) == multiset(qs) && IsFirstMin(ps, k, i) && IsFirstMin(qs, k, j)
    ensures KeyOf(ps[i], k) == KeyOf(qs[j], k)
  {
    var i' := SameElements(ps, qs, i);
    var j' := SameElements(qs, ps, j);
  }

  lemma GreatestKeysAgree(ps: seq<Point>, qs: seq<Point>, k: Key, i: int, j: int)
    requires multiset(ps) == multiset(qs) && IsFirstMax(ps, k, i) && IsFirstMax(qs, k, j)
    ensures KeyOf(ps[i], k) == KeyOf(qs[j], k)
  {
    var i' := SameElements(ps, qs, i);
    var j' := SameElements(qs, ps, j);
  }

  /** The least key is attained by a single point (which may occur more than once). */
  predicate SingleLeast(ps: seq<Point>, k: Key)
    requires |ps| > 0
  {
    var m := ps[MinBy(ps, k)];
    forall j :: 0 <= j < |ps| && KeyOf(ps[j], k) == KeyOf(m, k) ==> ps[j] == m
  }

  /** The greatest key is attained by a single point. */
  predicate SingleGreatest(ps: seq<Point>, k: Key)
    requires |ps| > 0
  {
    var m := ps[MaxBy(ps, k)];
    forall j :: 0 <= j < |ps| && KeyOf(ps[j], k) == KeyOf(m, k) ==> ps[j] == m
  }

  /** No role is contested: each of the four extreme keys belongs to one point. */
  predicate UncontestedRoles(ps: seq<Point>)
    requires |ps| > 0
  {
    SingleLeast(ps, Sum) && SingleGreatest(ps, Sum) && SingleGreatest(ps, Difference) && SingleLeast(ps, Difference)
  }

  /**
   * When no role is contested, the roles do not depend on the order the
   * points come in (the rotation invariance the detector relies on).
   */
  lemma OrderCornersPermutationInvariant(ps: seq<Point>, qs: seq<Point>)
    requires |ps| > 0 && multiset(ps) == multiset(qs)
    requires UncontestedRoles(ps)
    ensures |qs| > 0 && OrderCorners(ps) == OrderCorners(qs)
  {
    OrderCornersKeysInvariant(ps, qs);
    var tl := SameElements(qs, ps, MinBy(qs, Sum));
    var tr := SameElements(qs, ps, MaxBy(qs, Difference));
    var br := SameElements(qs, ps, MaxBy(qs, Sum));
    var bl := SameElements(qs, ps, MinBy(qs, Difference));
    assert ps[tl] == ps[MinBy(ps, Sum)];
    assert ps[tr] == ps[MaxBy(ps, Difference)];
    assert ps[br] == ps[MaxBy(ps, Sum)];
    assert ps[bl] == ps[MinBy(ps, Difference)];
  }

  /**
   * `toCornerPoints`: scale the found polygon's vertices back to source
   * resolution and assign roles; `None` (the source's `null`) unless there are
   * exactly four vertices.
   */
  function ToCornerPoints(quad: seq<Point>, frame: Frame): (r: Option<CornerPoints>)
    ensures r.Some? <==> |quad| == 4
    ensures r.Some? ==>
      var scaled := ScaledVertices(quad, frame);
      (exists i :: IsFirstMin(scaled, Sum, i) && r.value.topLeft == scaled[i]) &&
      (exists i :: IsFirstMax(scaled, Difference, i) && r.value.topRight == scaled[i]) &&
      (exists i :: IsFirstMax(scaled, Sum, i) && r.value.bottomRight == scaled[i]) &&
      (exists i :: IsFirstMin(scaled, Difference, i) && r.value.bottomLeft == scaled[i])
  {
    if |quad| != 4 then None else Some(OrderCorners(ScaledVertices(quad, frame)))
  }

  /** The polygon's vertices mapped back to source resolution, in their own order. */
  function ScaledVertices(quad: seq<Point>, frame: Frame): (s: seq<Point>)
    ensures |s| == |quad| && forall i :: 0 <= i < |quad| ==> s[i] == ScaleBack(quad[i], frame)
  {
    seq(|quad|, i requires 0 <= i < |quad| => ScaleBack(quad[i], frame))
  }
}

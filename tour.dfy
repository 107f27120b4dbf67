/**
  A tour: an ordered sequence of named cities visited as a closed circuit.
  This module holds the value-level part of the state object: the name and
  coordinate projections, the name-to-coordinate dictionary built from the
  path, the closed-circuit cost, and what it means for a path to be a
  neighbour of another one.
 */
module Tour {
  import opened Wrappers
  import opened Permutations

  /** A pair of coordinates on the rectangular grid. */
  datatype Point = Point(x: real, y: real)

  /** One element of a path: the pair `(name, (x, y))`. */
  datatype City = City(name: string, coords: Point)

  /**
    The distance between two points. The source uses the Euclidean
    distance; here it is any function of the two points, so that every
    property about costs below holds whatever the metric is.
   */
  type Distance = (Point, Point) -> real

  /** The one failure of the views: a path with no city cannot be unzipped into names and coordinates. */
  datatype TspError = EmptyPath

  // ---------------------------------------------------------------------------
  // Projections
  // ---------------------------------------------------------------------------

  /** The names along the path, in path order. */
  function NameList(path: seq<City>): (r: seq<string>)
    ensures |r| == |path|
    ensures forall i :: 0 <= i < |path| ==> r[i] == path[i].name
  {
    seq(|path|, i requires 0 <= i < |path| => path[i].name)
  }

  /** The coordinates along the path, in path order. */
  function PointList(path: seq<City>): (r: seq<Point>)
    ensures |r| == |path|
    ensures forall i :: 0 <= i < |path| ==> r[i] == path[i].coords
  {
    seq(|path|, i requires 0 <= i < |path| => path[i].coords)
  }

  /** The `names` view: the first components of the unzipped path; unzipping an empty path fails. */
  function Names(path: seq<City>): Result<seq<string>, TspError> {
    if path == [] then Failure(EmptyPath) else Success(NameList(path))
  }

  /** The `coords` view: the second components of the unzipped path; unzipping an empty path fails. */
  function Coords(path: seq<City>): Result<seq<Point>, TspError> {
    if path == [] then Failure(EmptyPath) else Success(PointList(path))
  }

  /** Pairs names with coordinates position by position, stopping at the shorter one. */
  function Zip(names: seq<string>, coords: seq<Point>): (r: seq<City>)
    ensures |r| == if |names| <= |coords| then |names| else |coords|
  {
    if names == [] || coords == [] then []
    else [City(names[0], coords[0])] + Zip(names[1..], coords[1..])
  }

  /** Zipping the two projections of a path back together gives the path itself. */
  lemma {:induction false} ZipProjections(path: seq<City>)
    ensures Zip(NameList(path), PointList(path)) == path
  {
    if path != [] {
      assert NameList(path)[1..] == NameList(path[1..]);
      assert PointList(path)[1..] == PointList(path[1..]);
      ZipProjections(path[1..]);
      assert path == [path[0]] + path[1..];
    }
  }

  /** Projecting a zip of two equally long sequences gives them back. */
  lemma {:induction false} ProjectZip(names: seq<string>, coords: seq<Point>)
    requires |names| == |coords|
    ensures NameList(Zip(names, coords)) == names
    ensures PointList(Zip(names, coords)) == coords
  {
    if names != [] {
      ProjectZip(names[1..], coords[1..]);
      var z := Zip(names, coords);
      assert z == [City(names[0], coords[0])] + Zip(names[1..], coords[1..]);
      assert NameList(z) == [names[0]] + NameList(Zip(names[1..], coords[1..]));
      assert PointList(z) == [coords[0]] + PointList(Zip(names[1..], coords[1..]));
    }
  }

  /**
    The two views fail exactly on the empty path; otherwise they are as long
    as the path and zip back into it.
   */
  lemma NamesCoordsParallel(path: seq<City>)
    ensures Names(path).Failure? <==> path == []
    ensures Coords(path).Failure? <==> path == []
    ensures path != [] ==>
      && |Names(path).value| == |Coords(path).value| == |path|
      && Zip(Names(path).value, Coords(path).value) == path
  {
    ZipProjections(path);
  }

  /** All names along the path are different. */
  predicate UniqueNames(path: seq<City>) {
    Distinct(NameList(path))
  }

  // ---------------------------------------------------------------------------
  // dict(path): name -> coordinates, a later entry overriding an earlier one
  // ---------------------------------------------------------------------------

  /** The dictionary built from the `(name, coords)` pairs in path order. */
  function PathDict(path: seq<City>): (d: map<string, Point>)
    ensures forall i :: 0 <= i < |path| ==> path[i].name in d
    ensures forall n :: n in d ==> n in NameList(path)
    decreases |path|
  {
    if path == [] then map[]
    else
      var init := path[..|path| - 1];
      assert forall i :: 0 <= i < |init| ==> NameList(init)[i] == NameList(path)[i];
      PathDict(init)[path[|path| - 1].name := path[|path| - 1].coords]
  }

  /** The dictionary maps a name to the coordinates of its last occurrence in the path. */
  lemma {:induction false} PathDictLast(path: seq<City>, i: nat)
    requires i < |path|
    requires forall j :: i < j < |path| ==> path[j].name != path[i].name
    ensures PathDict(path)[path[i].name] == path[i].coords
    decreases |path|
  {
    if i < |path| - 1 {
      PathDictLast(path[..|path| - 1], i);
    }
  }

  /** With unique names, every city's name maps to its own coordinates. */
  lemma PathDictUnique(path: seq<City>)
    requires UniqueNames(path)
    ensures forall i :: 0 <= i < |path| ==> PathDict(path)[path[i].name] == path[i].coords
  {
    forall i | 0 <= i < |path|
      ensures PathDict(path)[path[i].name] == path[i].coords
    {
      assert forall j :: i < j < |path| ==> NameList(path)[j] != NameList(path)[i];
      PathDictLast(path, i);
    }
  }

  /** Builds `(name, d[name])` for every name, in order. */
  function Resolve(d: map<string, Point>, names: seq<string>): (r: seq<City>)
    requires forall n :: n in names ==> n in d
    ensures |r| == |names|
    ensures forall i :: 0 <= i < |names| ==> r[i] == City(names[i], d[names[i]])
  {
    seq(|names|, i requires 0 <= i < |names| => City(names[i], d[names[i]]))
  }

  /** With unique names, looking every name of the path up in its dictionary rebuilds the path. */
  lemma ResolveNames(path: seq<City>)
    requires UniqueNames(path)
    ensures Resolve(PathDict(path), NameList(path)) == path
  {
    PathDictUnique(path);
  }

  // ---------------------------------------------------------------------------
  // Closed-circuit cost
  // ---------------------------------------------------------------------------

  /** The sum of a list, added up from the left as `sum` does. */
  function Sum(xs: seq<real>): real {
    if xs == [] then 0.0 else Sum(xs[..|xs| - 1]) + xs[|xs| - 1]
  }

  lemma {:induction false} SumConcat(a: seq<real>, b: seq<real>)
    ensures Sum(a + b) == Sum(a) + Sum(b)
    decreases |b|
  {
    if b == [] {
      assert a + b == a;
    } else {
      var ab := a + b;
      assert ab[..|ab| - 1] == a + b[..|b| - 1];
      assert ab[|ab| - 1] == b[|b| - 1];
      SumConcat(a, b[..|b| - 1]);
    }
  }

  /** The position after i on a circuit of n positions: i + 1, or 0 after the last one. */
  function Next(i: nat, n: nat): nat {
    if i + 1 < n then i + 1 else 0
  }

  /**
    The n edges of the circuit: edge i runs from point i to point (i + 1) mod n,
    so the last edge closes the circuit back to the first point.
   */
  function CycleEdges(dist: Distance, pts: seq<Point>): (r: seq<real>)
    ensures |r| == |pts|
    ensures forall i :: 0 <= i < |pts| ==> r[i] == dist(pts[i], pts[Next(i, |pts|)])
  {
    seq(|pts|, i requires 0 <= i < |pts| => dist(pts[i], pts[Next(i, |pts|)]))
  }

  /** The length of the closed circuit through `pts`, the closing edge from last to first included. */
  function CycleCost(dist: Distance, pts: seq<Point>): real {
    Sum(CycleEdges(dist, pts))
  }

  /** A single city makes one edge, from the city to itself. */
  lemma SingleCityCost(dist: Distance, p: Point)
    ensures CycleCost(dist, [p]) == dist(p, p)
  {
    var e := CycleEdges(dist, [p]);
    assert e == [dist(p, p)];
    assert e[..0] == [];
    assert Sum(e) == Sum(e[..0]) + e[0];
  }

  /** The cost of a one-city path is the distance from that city to itself. */
  lemma SingleCityTourCost(dist: Distance, path: seq<City>)
    requires |path| == 1
    ensures TourCost(dist, path) == dist(path[0].coords, path[0].coords)
  {
    assert UniqueNames(path);
    ResolveNames(path);
    assert PointList(path) == [path[0].coords];
    SingleCityCost(dist, path[0].coords);
  }

  /** Starting the sequence at position k instead of 0. */
  function Rotate<T>(s: seq<T>, k: nat): (r: seq<T>)
    requires k <= |s|
    ensures |r| == |s|
    ensures forall i :: 0 <= i < |s| - k ==> r[i] == s[i + k]
    ensures forall i :: |s| - k <= i < |s| ==> r[i] == s[i + k - |s|]
  {
    s[k..] + s[..k]
  }

  /** The position in `s` of the element that `Rotate(s, k)` holds at position i. */
  function Shift(i: nat, k: nat, n: nat): nat
    requires i < n && k <= n
  {
    if i + k < n then i + k else i + k - n
  }

  lemma CycleEdgesRotate(dist: Distance, pts: seq<Point>, k: nat)
    requires k <= |pts|
    ensures CycleEdges(dist, Rotate(pts, k)) == Rotate(CycleEdges(dist, pts), k)
  {
    var n := |pts|;
    var r := Rotate(pts, k);
    var e := CycleEdges(dist, pts);
    forall i | 0 <= i < n
      ensures CycleEdges(dist, r)[i] == Rotate(e, k)[i]
    {
      var j := Shift(i, k, n);
      assert r[i] == pts[j];
      assert Rotate(e, k)[i] == e[j];
      assert r[Next(i, n)] == pts[Next(j, n)];
    }
  }

  /** Rotating a list does not change its sum. */
  lemma SumRotate(e: seq<real>, k: nat)
    requires k <= |e|
    ensures Sum(Rotate(e, k)) == Sum(e)
  {
    var front, back := e[..k], e[k..];
    calc {
      Sum(Rotate(e, k));
      == { assert Rotate(e, k) == back + front; }
      Sum(back + front);
      == { SumConcat(back, front); }
      Sum(back) + Sum(front);
      == { SumConcat(front, back); }
      Sum(front + back);
      == { assert e == front + back; }
      Sum(e);
    }
  }

  /** Rotating a closed circuit does not change its length. */
  lemma CycleCostRotate(dist: Distance, pts: seq<Point>, k: nat)
    requires k <= |pts|
    ensures CycleCost(dist, Rotate(pts, k)) == CycleCost(dist, pts)
  {
    CycleEdgesRotate(dist, pts, k);
    SumRotate(CycleEdges(dist, pts), k);
  }

  /**
    The cost of a path as the source computes it: the circuit through the
    coordinates found by looking each name up in the path's dictionary.
   */
  function TourCost(dist: Distance, path: seq<City>): real {
    CycleCost(dist, PointList(Resolve(PathDict(path), NameList(path))))
  }

  /** With unique names the lookups return the path's own coordinates. */
  lemma TourCostUnique(dist: Distance, path: seq<City>)
    requires UniqueNames(path)
    ensures TourCost(dist, path) == CycleCost(dist, PointList(path))
  {
    ResolveNames(path);
  }

  lemma RotateDistinct<T>(s: seq<T>, k: nat)
    requires Distinct(s) && k <= |s|
    ensures Distinct(Rotate(s, k))
  {
    var n, r := |s|, Rotate(s, k);
    forall i, j | 0 <= i < j < n
      ensures r[i] != r[j]
    {
      var i', j' := Shift(i, k, n), Shift(j, k, n);
      assert r[i] == s[i'] && r[j] == s[j'];
      assert i' != j';
    }
  }

  /** The cost of a tour with unique names does not depend on the starting city. */
  lemma TourCostRotate(dist: Distance, path: seq<City>, k: nat)
    requires UniqueNames(path) && k <= |path|
    ensures TourCost(dist, Rotate(path, k)) == TourCost(dist, path)
  {
    var r := Rotate(path, k);
    assert UniqueNames(r) by {
      assert NameList(r) == Rotate(NameList(path), k);
      RotateDistinct(NameList(path), k);
    }
    calc {
      TourCost(dist, r);
      == { TourCostUnique(dist, r); }
      CycleCost(dist, PointList(r));
      == { assert PointList(r) == Rotate(PointList(path), k); }
      CycleCost(dist, Rotate(PointList(path), k));
      == { CycleCostRotate(dist, PointList(path), k); }
      CycleCost(dist, PointList(path));
      == { TourCostUnique(dist, path); }
      TourCost(dist, path);
    }
  }

  // ---------------------------------------------------------------------------
  // Neighbours: the last city stays in place, the others are rearranged
  // ---------------------------------------------------------------------------

  /** The names that are rearranged: all but the last one, which is held as the anchor. */
  function Movable(path: seq<City>): (r: seq<string>)
    ensures path != [] ==> NameList(path) == r + [path[|path| - 1].name]
  {
    if path == [] then [] else NameList(path)[..|path| - 1]
  }

  /** `q` visits the same cities as `path` and ends at the same last city. */
  predicate IsNeighbor(path: seq<City>, q: seq<City>) {
    && path != []
    && |q| == |path|
    && q[|q| - 1] == path[|path| - 1]
    && IsPermutation(q, path)
  }

  /** Rearranging the names rearranges the cities looked up from them in the same way. */
  lemma {:induction false} ResolvePermutation(d: map<string, Point>, a: seq<string>, b: seq<string>)
    requires forall n :: n in a ==> n in d
    requires forall n :: n in b ==> n in d
    requires IsPermutation(a, b)
    ensures IsPermutation(Resolve(d, a), Resolve(d, b))
    decreases |a|
  {
    if a == [] {
      assert |b| == |multiset(b)| == 0;
    } else {
      var k := RemovedIndex(a, b);
      var a', b' := a[1..], RemoveAt(b, k);
      assert forall n :: n in a' ==> n in a;
      assert forall n :: n in b' ==> n in b;
      ResolvePermutation(d, a', b');
      ResolveRemoved(d, a, b, k);
    }
  }

  /** Looking up `a[0]` and then `a[1..]` is looking up `b[k]` and then `b` without position k. */
  lemma ResolveRemoved(d: map<string, Point>, a: seq<string>, b: seq<string>, k: nat)
    requires forall n :: n in a ==> n in d
    requires forall n :: n in b ==> n in d
    requires a != [] && k < |b| && b[k] == a[0]
    requires forall n :: n in a[1..] ==> n in d
    requires forall n :: n in RemoveAt(b, k) ==> n in d
    requires IsPermutation(Resolve(d, a[1..]), Resolve(d, RemoveAt(b, k)))
    ensures IsPermutation(Resolve(d, a), Resolve(d, b))
  {
    var ra, rb := Resolve(d, a), Resolve(d, b);
    assert ra == [ra[0]] + Resolve(d, a[1..]);
    assert Resolve(d, RemoveAt(b, k)) == RemoveAt(rb, k);
    RemoveAtMultiset(rb, k);
  }

  /**
    For a rearrangement `a` of `b`, a position of `b` holding `a[0]`;
    removing it leaves a rearrangement of `a[1..]`.
   */
  lemma RemovedIndex<T>(a: seq<T>, b: seq<T>) returns (k: nat)
    requires IsPermutation(a, b) && a != []
    ensures k < |b| && b[k] == a[0]
    ensures IsPermutation(a[1..], RemoveAt(b, k))
  {
    assert a[0] in multiset(a);
    k :| 0 <= k < |b| && b[k] == a[0];
    RemoveAtMultiset(b, k);
    assert a == [a[0]] + a[1..];
    assert multiset(a) == multiset{a[0]} + multiset(a[1..]);
  }

  /** Rearranging the cities rearranges their names in the same way. */
  lemma {:induction false} NameListPermutation(a: seq<City>, b: seq<City>)
    requires IsPermutation(a, b)
    ensures IsPermutation(NameList(a), NameList(b))
    decreases |a|
  {
    if a == [] {
      assert |b| == |multiset(b)| == 0;
    } else {
      var k := RemovedIndex(a, b);
      var b' := RemoveAt(b, k);
      NameListPermutation(a[1..], b');
      var na, nb := NameList(a), NameList(b);
      calc {
        multiset(na);
        == { assert na == [na[0]] + NameList(a[1..]); }
        multiset{na[0]} + multiset(NameList(a[1..]));
        multiset{na[0]} + multiset(NameList(b'));
        == { assert NameList(b') == RemoveAt(nb, k); }
        multiset{nb[k]} + multiset(RemoveAt(nb, k));
        == { RemoveAtMultiset(nb, k); }
        multiset(nb);
      }
    }
  }

  /** A rearrangement of the movable names followed by the anchor's name rearranges all the names. */
  lemma AnchoredPermutation(path: seq<City>, p: seq<string>)
    requires path != [] && IsPermutation(p, Movable(path))
    ensures IsPermutation(p + [path[|path| - 1].name], NameList(path))
  {
    var anchor := path[|path| - 1].name;
    assert NameList(path) == Movable(path) + [anchor];
    assert multiset(p + [anchor]) == multiset(p) + multiset{anchor};
    assert multiset(NameList(path)) == multiset(Movable(path)) + multiset{anchor};
  }

  /** Each name of a rearrangement of the path's names is a key of the path's dictionary. */
  lemma PermutedNamesAreKeys(path: seq<City>, names: seq<string>)
    requires IsPermutation(names, NameList(path))
    ensures forall n :: n in names ==> n in PathDict(path)
  {
    var d := PathDict(path);
    forall n | n in names
      ensures n in d
    {
      assert n in multiset(NameList(path));
      var i :| 0 <= i < |path| && NameList(path)[i] == n;
      assert path[i].name == n;
    }
  }

  /**
    A rearrangement `p` of the movable names, followed by the anchor's name
    and looked up in the path's dictionary, is a neighbour of the path.
   */
  lemma NeighborOfPermutation(path: seq<City>, p: seq<string>)
    requires path != [] && UniqueNames(path)
    requires IsPermutation(p, Movable(path))
    ensures forall n :: n in p + [path[|path| - 1].name] ==> n in PathDict(path)
    ensures IsNeighbor(path, Resolve(PathDict(path), p + [path[|path| - 1].name]))
  {
    var d, names := PathDict(path), NameList(path);
    var full := p + [path[|path| - 1].name];
    AnchoredPermutation(path, p);
    PermutedNamesAreKeys(path, full);
    var r := Resolve(d, full);
    assert IsPermutation(r, path) by {
      ResolvePermutation(d, full, names);
      ResolveNames(path);
    }
    assert r[|r| - 1] == path[|path| - 1] by {
      PathDictUnique(path);
    }
  }

  /** The names of a neighbour, its last one set aside, are a rearrangement of the movable names. */
  lemma NeighborNames(path: seq<City>, q: seq<City>)
    requires IsNeighbor(path, q)
    ensures NameList(q) == NameList(q)[..|q| - 1] + [path[|path| - 1].name]
    ensures IsPermutation(NameList(q)[..|q| - 1], Movable(path))
  {
    var anchor := path[|path| - 1].name;
    var nq := NameList(q);
    var p := nq[..|q| - 1];
    assert nq == p + [anchor];
    NameListPermutation(q, path);
    assert multiset(nq) == multiset(p) + multiset{anchor};
    assert multiset(NameList(path)) == multiset(Movable(path)) + multiset{anchor};
    assert multiset(p) == multiset(nq) - multiset{anchor};
    assert multiset(Movable(path)) == multiset(NameList(path)) - multiset{anchor};
  }

  /**
    Every neighbour of a path with unique names is what looking its own
    names up in the path's dictionary gives.
   */
  lemma NeighborIsResolved(path: seq<City>, q: seq<City>)
    requires UniqueNames(path) && IsNeighbor(path, q)
    ensures forall n :: n in NameList(q) ==> n in PathDict(path)
    ensures q == Resolve(PathDict(path), NameList(q))
  {
    var d := PathDict(path);
    PathDictUnique(path);
    forall i | 0 <= i < |q|
      ensures q[i].name in d && d[q[i].name] == q[i].coords
    {
      assert q[i] in multiset(path);
      var j :| 0 <= j < |path| && path[j] == q[i];
    }
  }

  /**
    The neighbour that the rearrangement `p` of the movable names stands for:
    `p` followed by the anchor's name, each name looked up in the path's
    dictionary.
   */
  function NeighborPath(path: seq<City>, p: seq<string>): (r: seq<City>)
    requires path != [] && UniqueNames(path) && IsPermutation(p, Movable(path))
    ensures IsNeighbor(path, r)
    ensures NameList(r) == p + [path[|path| - 1].name]
  {
    NeighborOfPermutation(path, p);
    Resolve(PathDict(path), p + [path[|path| - 1].name])
  }

  /** Different rearrangements stand for different neighbours. */
  lemma NeighborPathInjective(path: seq<City>, p1: seq<string>, p2: seq<string>)
    requires path != [] && UniqueNames(path)
    requires IsPermutation(p1, Movable(path)) && IsPermutation(p2, Movable(path))
    requires NeighborPath(path, p1) == NeighborPath(path, p2)
    ensures p1 == p2
  {
    var n := NameList(NeighborPath(path, p1));
    assert n[..|n| - 1] == p1;
    assert n[..|n| - 1] == p2;
  }

  /** Every neighbour is the one that its own names, the last set aside, stand for. */
  lemma NeighborPathOnto(path: seq<City>, q: seq<City>)
    requires UniqueNames(path) && IsNeighbor(path, q)
    ensures IsPermutation(NameList(q)[..|q| - 1], Movable(path))
    ensures NeighborPath(path, NameList(q)[..|q| - 1]) == q
  {
    NeighborNames(path, q);
    NeighborIsResolved(path, q);
  }

  /** The neighbours that the rearrangements in `perms` stand for, in the same order. */
  function NeighborPaths(path: seq<City>, perms: seq<seq<string>>): (r: seq<seq<City>>)
    requires path != [] && UniqueNames(path)
    requires forall k :: 0 <= k < |perms| ==> IsPermutation(perms[k], Movable(path))
    ensures |r| == |perms|
    ensures forall k :: 0 <= k < |r| ==> IsNeighbor(path, r[k])
  {
    seq(|perms|, k requires 0 <= k < |perms| => NeighborPath(path, perms[k]))
  }

  /** Duplicate-free rearrangements stand for duplicate-free neighbours. */
  lemma NeighborPathsDistinct(path: seq<City>, perms: seq<seq<string>>)
    requires path != [] && UniqueNames(path)
    requires forall k :: 0 <= k < |perms| ==> IsPermutation(perms[k], Movable(path))
    requires Distinct(perms)
    ensures Distinct(NeighborPaths(path, perms))
  {
    var r := NeighborPaths(path, perms);
    forall a, b | 0 <= a < b < |r|
      ensures r[a] != r[b]
    {
      if r[a] == r[b] {
        NeighborPathInjective(path, perms[a], perms[b]);
      }
    }
  }

  /** When every rearrangement is in `perms`, every neighbour is among the paths they stand for. */
  lemma NeighborPathsComplete(path: seq<City>, perms: seq<seq<string>>)
    requires path != [] && UniqueNames(path)
    requires forall k :: 0 <= k < |perms| ==> IsPermutation(perms[k], Movable(path))
    requires AllPermutationsIn(Movable(path), perms)
    ensures forall q :: IsNeighbor(path, q) ==> q in NeighborPaths(path, perms)
  {
    var r := NeighborPaths(path, perms);
    forall q | IsNeighbor(path, q)
      ensures q in r
    {
      NeighborPathOnto(path, q);
      var k :| 0 <= k < |perms| && perms[k] == NameList(q)[..|q| - 1];
      assert r[k] == q;
    }
  }
}

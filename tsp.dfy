/**
  The local-search state of the Traveling Salesman Problem: a closed
  circuit of named cities, its cost computed on first request and cached,
  and its neighbourhood, the circuits that keep the last city in place and
  visit the others in another order.

  The random source is not modelled as a distribution: a shuffle is any
  rearrangement, a choice any element, and the successive results of
  `random.sample` are the parameter `draws`.
 */
module TravelingSalesman {
  import opened Wrappers
  import opened Permutations
  import opened Tour

  /** `random.shuffle`: puts the cities in some order; every order is possible. */
  method Shuffle(cities: seq<City>) returns (r: seq<City>)
    ensures IsPermutation(r, cities)
  {
    assert IsPermutation(cities, cities);
    r :| IsPermutation(r, cities);
  }

  /** `append` on a `deque(maxlen=m)`: once the deque holds m entries, the oldest one is dropped. */
  function BoundedAppend<T>(q: seq<T>, x: T, maxlen: nat): (r: seq<T>)
    requires |q| <= maxlen
    ensures |r| <= maxlen
    ensures |q| < maxlen ==> r == q + [x]
  {
    if maxlen == 0 then []
    else if |q| < maxlen then q + [x]
    else q[1..] + [x]
  }

  /** Once every ordering has been drawn, at least |movable|! distinct draws have been made. */
  lemma AllDrawnAllKept<T(!new)>(movable: seq<T>, draws: seq<seq<T>>, d: nat)
    requires Distinct(movable)
    requires AllPermutationsIn(movable, draws)
    requires d == |draws|
    ensures |FirstDistinct(draws[..d])| >= Factorial(|movable|)
  {
    assert draws[..d] == draws;
    CoverAll(movable, FirstDistinct(draws));
  }

  /** The distinct draws among the first d are orderings of `movable` taken from `draws`. */
  lemma DistinctDrawsArePermutations<T>(movable: seq<T>, draws: seq<seq<T>>, d: nat)
    requires forall k :: 0 <= k < |draws| ==> IsPermutation(draws[k], movable)
    requires d <= |draws|
    ensures forall j :: 0 <= j < |FirstDistinct(draws[..d])| ==>
      IsPermutation(FirstDistinct(draws[..d])[j], movable) && FirstDistinct(draws[..d])[j] in draws
  {
    var r := FirstDistinct(draws[..d]);
    forall j | 0 <= j < |r|
      ensures IsPermutation(r[j], movable) && r[j] in draws
    {
      var i :| 0 <= i < d && draws[..d][i] == r[j];
      assert draws[i] == r[j];
    }
  }

  /**
    The sampling loop of `successors`. `draws` holds the successive random
    orderings of `movable`; each one not kept yet is appended to a deque of
    capacity |movable|!, and the loop stops when the deque is full. The
    deque never drops an entry: it holds the distinct draws made so far, in
    the order each first turned up, and at the end these are every ordering
    of `movable`, each once.

    The loop ends only if every ordering is drawn at some point, which a
    random source does with probability 1; the last precondition states
    that of `draws`.
   */
  method CollectPermutations<T(==,!new)>(movable: seq<T>, draws: seq<seq<T>>) returns (neighbors: seq<seq<T>>)
    requires Distinct(movable)
    requires forall k :: 0 <= k < |draws| ==> IsPermutation(draws[k], movable)
    requires AllPermutationsIn(movable, draws)
    ensures exists d :: 0 <= d <= |draws| && neighbors == FirstDistinct(draws[..d])
    ensures |neighbors| == Factorial(|movable|)
    ensures Distinct(neighbors)
    ensures forall k :: 0 <= k < |neighbors| ==> IsPermutation(neighbors[k], movable) && neighbors[k] in draws
    ensures AllPermutationsIn(movable, neighbors)
  {
    var nStates := Factorial(|movable|);
    neighbors := [];
    var d := 0;
    while true
      invariant d <= |draws|
      invariant neighbors == FirstDistinct(draws[..d])
      invariant |neighbors| < nStates
      decreases |draws| - d
    {
      if d == |draws| {
        // Every ordering has been drawn and kept, so at least |movable|! are kept.
        AllDrawnAllKept(movable, draws, d);
        assert false;
      }
      var k := draws[d];
      FirstDistinctStep(draws, d);
      d := d + 1;
      if k !in neighbors {
        neighbors := BoundedAppend(neighbors, k, nStates);
      }
      if |neighbors| == nStates {
        break;
      }
    }
    DistinctDrawsArePermutations(movable, draws, d);
    CollectedAll(movable, neighbors);
  }

  /**
    The loop of `__get_value`: closes `names` with its first name and lists
    the distance between the looked-up coordinates of each name and the next
    one. These are the edges of the circuit through the looked-up points.
   */
  method ClosedLegs(dist: Distance, d: map<string, Point>, names: seq<string>) returns (pathLengths: seq<real>)
    requires names != []
    requires forall n :: n in names ==> n in d
    ensures pathLengths == CycleEdges(dist, PointList(Resolve(d, names)))
  {
    var currentPath := names + [names[0]];
    ghost var pts := PointList(Resolve(d, names));
    ghost var edges := CycleEdges(dist, pts);
    pathLengths := [];
    var i := 0;
    while i < |currentPath| - 1
      invariant 0 <= i <= |names|
      invariant pathLengths == edges[..i]
    {
      assert currentPath[i] == names[i] && pts[i] == d[names[i]];
      assert currentPath[i + 1] == names[Next(i, |names|)];
      var distance := dist(d[currentPath[i]], d[currentPath[i + 1]]);
      assert edges[..i + 1] == edges[..i] + [distance];
      pathLengths := pathLengths + [distance];
      i := i + 1;
    }
  }

  /** `for i in neighbors: i.append(endPoint)`: each list gets `x` at its end. */
  method AppendToEach<T>(lists: seq<seq<T>>, x: T) returns (r: seq<seq<T>>)
    ensures |r| == |lists|
    ensures forall j :: 0 <= j < |r| ==> r[j] == lists[j] + [x]
  {
    r := lists;
    var i := 0;
    while i < |r|
      invariant 0 <= i <= |r| == |lists|
      invariant forall j :: 0 <= j < i ==> r[j] == lists[j] + [x]
      invariant forall j :: i <= j < |r| ==> r[j] == lists[j]
    {
      r := r[i := r[i] + [x]];
      i := i + 1;
    }
  }

  /** The paths of `states`, in order. */
  ghost function StatePaths(states: seq<TravelingSalesmanProblem>): (r: seq<seq<City>>)
    reads states
    ensures |r| == |states|
    ensures forall j :: 0 <= j < |states| ==> r[j] == states[j].path
  {
    seq(|states|, j requires 0 <= j < |states| => states[j].path)
  }

  class TravelingSalesmanProblem {
    /** The circuit, in visiting order; set once, at construction. */
    const path: seq<City>
    /** The distance between two cities' coordinates. */
    const dist: Distance
    /** The cached circuit length: `None` until `Utility` first computes it. */
    var utilityCache: Option<real>

    /** A cached value is the cost of the path. */
    ghost predicate Valid()
      reads this
    {
      utilityCache.Some? ==> path != [] && utilityCache.value == TourCost(dist, path)
    }

    /**
      `states` is the whole neighbourhood of this state: |path| - 1 factorial
      states with unset caches, no two with the same path, each path a
      neighbour of this one, and every neighbour among them.
     */
    ghost predicate IsNeighborhood(states: seq<TravelingSalesmanProblem>)
      reads states
    {
      && path != []
      && |states| == Factorial(|path| - 1)
      && Distinct(StatePaths(states))
      && (forall s :: s in states ==> IsNeighbor(path, s.path) && s.dist == dist && s.utilityCache == None)
      && (forall q :: IsNeighbor(path, q) ==> q in StatePaths(states))
    }

    /** Stores the cities, in a random order when `shuffle` is set; the cost is not computed yet. */
    constructor (cities: seq<City>, shuffle: bool, dist: Distance)
      ensures IsPermutation(path, cities)
      ensures !shuffle ==> path == cities
      ensures this.dist == dist && utilityCache == None
      ensures Valid()
    {
      var order := cities;
      if shuffle {
        order := Shuffle(cities);
      }
      path := order;
      this.dist := dist;
      utilityCache := None;
    }

    /** A new state over the same cities, reordered when `shuffle` is set, with its cost not computed. */
    method Copy(shuffle: bool) returns (r: TravelingSalesmanProblem)
      ensures fresh(r)
      ensures IsPermutation(r.path, path)
      ensures !shuffle ==> r.path == path
      ensures r.dist == dist && r.utilityCache == None && r.Valid()
    {
      var cities := path;
      if shuffle {
        cities := Shuffle(cities);
      }
      r := new TravelingSalesmanProblem(cities, false, dist);
    }

    /**
      `__get_value`: closes the list of names with its first name, then adds
      up the distance between the looked-up coordinates of each name and the
      next one.
     */
    method GetValue() returns (r: Result<real, TspError>)
      ensures r.Failure? <==> path == []
      ensures r.Success? ==> r.value == TourCost(dist, path)
      ensures r.Success? && UniqueNames(path) ==> r.value == CycleCost(dist, PointList(path))
      ensures |path| == 1 ==> r == Success(dist(path[0].coords, path[0].coords))
    {
      var names :- Names(path);
      var pathDict := PathDict(path);
      var pathLengths := ClosedLegs(dist, pathDict, names);
      r := Success(Sum(pathLengths));
      assert UniqueNames(path) ==> r.value == CycleCost(dist, PointList(path)) by {
        if UniqueNames(path) {
          TourCostUnique(dist, path);
        }
      }
      if |path| == 1 {
        SingleCityTourCost(dist, path);
      }
    }

    /**
      `utility`: the cost of the path, computed only while nothing is cached
      and cached from then on; later calls return the cached value and
      change nothing.
     */
    method Utility() returns (r: Result<real, TspError>)
      requires Valid()
      modifies this
      ensures Valid()
      ensures r.Failure? <==> path == []
      ensures r.Success? ==> r.value == TourCost(dist, path) && utilityCache == Some(r.value)
      ensures old(utilityCache).Some? ==> r == Success(old(utilityCache).value)
      ensures old(utilityCache).Some? || r.Failure? ==> utilityCache == old(utilityCache)
    {
      if utilityCache.None? {
        var value :- GetValue();
        utilityCache := Some(value);
      }
      r := Success(utilityCache.value);
    }

    /**
      `successors`: every ordering of the names but the last, each followed
      by the last name and turned back into cities through the path's
      dictionary, as a new state.
     */
    method Successors(draws: seq<seq<string>>) returns (r: Result<seq<TravelingSalesmanProblem>, TspError>)
      requires UniqueNames(path)
      requires path != [] ==> forall k :: 0 <= k < |draws| ==> IsPermutation(draws[k], Movable(path))
      requires path != [] ==> AllPermutationsIn(Movable(path), draws)
      ensures r.Failure? <==> path == []
      ensures r.Success? ==> IsNeighborhood(r.value) && forall s :: s in r.value ==> fresh(s)
      ensures r.Success? ==>
        exists d :: 0 <= d <= |draws| && StatePaths(r.value) == NeighborPaths(path, FirstDistinct(draws[..d]))
    {
      var initialState :- Names(path);
      var n := |initialState|;
      var endPoint := initialState[n - 1];
      var neighbors := CollectPermutations(initialState[..n - 1], draws);
      ghost var sampled := neighbors;
      neighbors := AppendToEach(neighbors, endPoint);
      var pathDict := PathDict(path);
      forall j | 0 <= j < |neighbors|
        ensures forall m :: m in neighbors[j] ==> m in pathDict
      {
        NeighborOfPermutation(path, sampled[j]);
      }
      var paths := seq(|neighbors|, j requires 0 <= j < |neighbors| => Resolve(pathDict, neighbors[j]));
      assert paths == NeighborPaths(path, sampled);
      NeighborPathsDistinct(path, sampled);
      NeighborPathsComplete(path, sampled);
      var successors := NewStates(paths, dist);
      r := Success(successors);
    }

    /** One new state per path, each keeping its path's order, with the given distance and no cached cost. */
    static method NewStates(paths: seq<seq<City>>, dist: Distance) returns (states: seq<TravelingSalesmanProblem>)
      ensures |states| == |paths|
      ensures forall j :: 0 <= j < |states| ==> fresh(states[j])
      ensures StatePaths(states) == paths
      ensures forall j :: 0 <= j < |states| ==> states[j].dist == dist && states[j].utilityCache == None
    {
      states := [];
      var i := 0;
      while i < |paths|
        invariant 0 <= i <= |paths|
        invariant |states| == i
        invariant forall j :: 0 <= j < i ==> fresh(states[j])
        invariant forall j :: 0 <= j < i ==> states[j].path == paths[j]
        invariant forall j :: 0 <= j < i ==> states[j].dist == dist && states[j].utilityCache == None
      {
        var s := new TravelingSalesmanProblem(paths[i], false, dist);
        states := states + [s];
        i := i + 1;
      }
      assert StatePaths(states) == paths;
    }

    /** `get_successor`: one state of the neighbourhood that `Successors` builds, picked at random. */
    method GetSuccessor(draws: seq<seq<string>>)
      returns (r: Result<TravelingSalesmanProblem, TspError>, ghost neighborhood: seq<TravelingSalesmanProblem>)
      requires UniqueNames(path)
      requires path != [] ==> forall k :: 0 <= k < |draws| ==> IsPermutation(draws[k], Movable(path))
      requires path != [] ==> AllPermutationsIn(Movable(path), draws)
      ensures r.Failure? <==> path == []
      ensures r.Success? ==> fresh(r.value)
      ensures r.Success? ==> r.value in neighborhood
      ensures r.Success? ==> IsNeighborhood(neighborhood)
    {
      var all := Successors(draws);
      if all.Failure? {
        r, neighborhood := Failure(all.error), [];
        return;
      }
      neighborhood := all.value;
      var k :| 0 <= k < |all.value|;
      assert all.value[k] in all.value;
      r := Success(all.value[k]);
    }
  }
}

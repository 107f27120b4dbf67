# Traveling Salesman local-search state, in Dafny

`TravelingSalesmanProblem.py` defines the state object of a local search
(hill climbing, simulated annealing) over closed circuits of cities. A state
holds a `path`: a tuple of `(name, (x, y))` cities visited in order and closed
back to the first one. On that state:

- `names` and `coords` are the two projections of the path.
- `utility` is the circuit's length. It is computed on the first read by
  `__get_value` and cached in a private field.
- `successors` builds the neighbourhood. The last city is held in place and
  the other n-1 names are rearranged in every possible way. Random orderings
  are drawn and duplicates rejected until (n-1)! distinct ones have been
  collected in a bounded deque.
- `get_successor` picks one neighbour at random.

The model has four modules:

- `Wrappers` (`wrappers.dfy`): `Option` and `Result`. A `Result` carries the
  one failure of the source, unzipping an empty path.
- `Permutations` (`permutations.dfy`): the permutation relation, the
  factorial, an explicit enumeration of every permutation, and the counting
  facts the sampler relies on. For example, |s|! distinct permutations of a
  duplicate-free `s` are all of them.
- `Tour` (`tour.dfy`): the value-level part of a state. It covers the
  projections and their round trip, the `dict(path)` lookup, the
  closed-circuit cost and its invariance under rotation, and what it means to
  be a neighbour.
- `TravelingSalesman` (`tsp.dfy`): the class `TravelingSalesmanProblem`,
  with an immutable `path`, the distance function, and the mutable cost
  cache. Its methods are the source's methods, with their loops. Each method
  is proved against the functions of `Tour`.

Modelling choices:

- The distance is an arbitrary function `(Point, Point) -> real`, given to
  the constructor. Every cost property therefore holds for any metric.
- Floats are `real`.
- A shuffle is any rearrangement (`:|`), and a random choice is any element.
- The successive results of `random.sample` are the parameter `draws` of
  `Successors`. The model assumes that every ordering eventually turns up in
  `draws`; a random source does this with probability 1. Under that
  assumption the rejection loop ends, and the model proves that it ends with
  exactly the (n-1)! orderings.

## Model

| member | source | states |
|---|---|---|
| Tour.NamesCoordsParallel | TravelingSalesmanProblem.py:77-94 | `names` and `coords` fail exactly on the empty path. Otherwise both are as long as the path, and zipping them reproduces the path. |
| Tour.ZipProjections | TravelingSalesmanProblem.py:83-94 | Zipping the name projection with the coordinate projection gives back the path, element for element. |
| Tour.ProjectZip | TravelingSalesmanProblem.py:83-94 | Projecting the zip of two equally long lists of names and coordinates gives back each list. This is the other direction of the round trip. |
| Tour.PathDict | TravelingSalesmanProblem.py:134 | The dictionary built from the path has every name of the path as a key, and no other key. |
| Tour.PathDictLast | TravelingSalesmanProblem.py:134 | A name maps to the coordinates of its last occurrence in the path: a later pair overrides an earlier one, as in `dict`. |
| Tour.PathDictUnique | TravelingSalesmanProblem.py:171 | With unique names, every city's name maps to that city's own coordinates. |
| Tour.ResolveNames | TravelingSalesmanProblem.py:171-175 | With unique names, looking each name of the path up in the path's dictionary rebuilds the path. |
| Tour.CycleEdges | TravelingSalesmanProblem.py:168-176 | There are exactly n edges. Edge i runs from point i to point i+1, and the last edge runs from the last point back to the first. |
| Tour.SumConcat | TravelingSalesmanProblem.py:178 | The left-to-right sum of a concatenation is the sum of the two parts. |
| Tour.SingleCityCost | TravelingSalesmanProblem.py:168-169 | A one-point circuit has one edge, from the point to itself, and its cost is `dist(p, p)`. |
| Tour.SingleCityTourCost | TravelingSalesmanProblem.py:168-178 | The cost of a one-city path is the distance from its coordinates to themselves. |
| Tour.CycleEdgesRotate | TravelingSalesmanProblem.py:168-176 | Starting the circuit at position k rotates its list of edges by k. |
| Tour.SumRotate | TravelingSalesmanProblem.py:178 | Rotating a list of lengths does not change its sum. |
| Tour.CycleCostRotate | TravelingSalesmanProblem.py:168-178 | The cost of a closed circuit does not depend on the point it starts from. |
| Tour.TourCostUnique | TravelingSalesmanProblem.py:168-178 | With unique names, the looked-up cost is the circuit cost over the path's own coordinates. |
| Tour.RotateDistinct | TravelingSalesmanProblem.py:168 | Rotating a list of unique names keeps them unique. |
| Tour.TourCostRotate | TravelingSalesmanProblem.py:168-178 | With unique names, any rotation of the path has the same cost as the path. |
| Tour.Movable | TravelingSalesmanProblem.py:117-125 | The rearranged names, followed by the anchor's name, are the path's names. |
| Tour.ResolvePermutation | TravelingSalesmanProblem.py:136 | Looking up a rearrangement of a list of names gives a rearrangement of the looked-up cities. |
| Tour.RemovedIndex | TravelingSalesmanProblem.py:136 | For a rearrangement `a` of `b`, some position of `b` holds `a[0]`. Removing it leaves a rearrangement of the rest of `a`. |
| Tour.NameListPermutation | TravelingSalesmanProblem.py:117 | Rearranging the cities rearranges their names in the same way. |
| Tour.AnchoredPermutation | TravelingSalesmanProblem.py:121-132 | A rearrangement of the movable names, with the anchor appended, rearranges all the names. |
| Tour.PermutedNamesAreKeys | TravelingSalesmanProblem.py:134-136 | Every name in a rearrangement of the path's names is a key of the dictionary, so the lookups in `successors` cannot fail. |
| Tour.NeighborOfPermutation | TravelingSalesmanProblem.py:131-136 | With unique names, a rearrangement of the movable names, with the anchor appended and each name looked up, is a neighbour: a rearrangement of the path that ends at the same city. |
| Tour.NeighborNames | TravelingSalesmanProblem.py:121-132 | The names of a neighbour are a rearrangement of the movable names, followed by the anchor's name. |
| Tour.NeighborIsResolved | TravelingSalesmanProblem.py:134-136 | Every city of a neighbour is the pair that the path's dictionary gives for its name. |
| Tour.NeighborPath | TravelingSalesmanProblem.py:131-136 | The successor path built from a rearrangement is a neighbour, and its names are that rearrangement followed by the anchor's name. |
| Tour.NeighborPathInjective | TravelingSalesmanProblem.py:131-136 | Different rearrangements give different successor paths. |
| Tour.NeighborPathOnto | TravelingSalesmanProblem.py:131-136 | Every neighbour is the successor path built from its own names, with the last one set aside. |
| Tour.NeighborPaths | TravelingSalesmanProblem.py:136 | Each path built from a list of rearrangements is a neighbour, and there is one path per rearrangement. |
| Tour.NeighborPathsDistinct | TravelingSalesmanProblem.py:131-136 | Duplicate-free rearrangements give duplicate-free successor paths. |
| Tour.NeighborPathsComplete | TravelingSalesmanProblem.py:131-136 | When every rearrangement is present, every neighbour is among the successor paths. |
| Permutations.Factorial | TravelingSalesmanProblem.py:119 | The deque's capacity, (n-1)!, is at least 1 and at least n-1. |
| Permutations.RemoveAt | TravelingSalesmanProblem.py:125 | Removing position i keeps every other element, in order. |
| Permutations.RemoveAtMultiset | TravelingSalesmanProblem.py:125 | Removing position i removes exactly one copy of that element. |
| Permutations.PermListLength | TravelingSalesmanProblem.py:119 | The enumeration of the orderings of `s` has exactly \|s\|! entries. |
| Permutations.PermListSound | TravelingSalesmanProblem.py:125 | Every entry of the enumeration is a rearrangement of `s`. |
| Permutations.PermListComplete | TravelingSalesmanProblem.py:125 | Every rearrangement of `s` is an entry of the enumeration. |
| Permutations.PermListDistinct | TravelingSalesmanProblem.py:119-126 | When `s` has no duplicates, the enumeration lists no ordering twice. |
| Permutations.DistinctCover | TravelingSalesmanProblem.py:126-128 | A duplicate-free list whose elements all occur in `b` is no longer than `b`. |
| Permutations.CoverAll | TravelingSalesmanProblem.py:119-128 | A list holding every ordering of a duplicate-free `s` has at least \|s\|! entries. |
| Permutations.CollectedAll | TravelingSalesmanProblem.py:119-129 | \|s\|! distinct orderings of a duplicate-free `s` are all of them. |
| Permutations.DistinctAppend | TravelingSalesmanProblem.py:126-127 | Appending a list that is not yet present keeps the collection duplicate-free. |
| Permutations.FirstDistinct | TravelingSalesmanProblem.py:124-127 | What the rejection loop keeps from a list of draws: no entry twice, only drawn entries, and every drawn entry. |
| Permutations.FirstDistinctStep | TravelingSalesmanProblem.py:125-127 | One more draw is skipped when it was kept before, and appended at the end when it is new. |
| TravelingSalesman.Shuffle | TravelingSalesmanProblem.py:64-66 | `random.shuffle` yields a rearrangement of its input. |
| TravelingSalesman.BoundedAppend | TravelingSalesmanProblem.py:123-127 | A deque with `maxlen` never holds more than `maxlen` entries. Below capacity, `append` adds at the end and drops nothing. |
| TravelingSalesman.AllDrawnAllKept | TravelingSalesmanProblem.py:124-129 | Once every ordering has been drawn, at least \|movable\|! distinct draws have been made. So the loop cannot run out of draws before the deque is full. |
| TravelingSalesman.DistinctDrawsArePermutations | TravelingSalesmanProblem.py:125-127 | Every distinct draw kept from the first d draws is an ordering of the movable names, taken from the draws. |
| TravelingSalesman.CollectPermutations | TravelingSalesmanProblem.py:117-129 | The deque ends up holding the distinct draws of some prefix of `draws`, each in the order it first turned up, with no entry ever evicted. There are exactly \|movable\|! of them, each one drawn, and every ordering is among them. |
| TravelingSalesman.ClosedLegs | TravelingSalesmanProblem.py:168-176 | The loop of `__get_value` lists exactly the edges of the circuit through the looked-up points, the closing edge included. |
| TravelingSalesman.AppendToEach | TravelingSalesmanProblem.py:131-132 | Each collected ordering gets the anchor's name appended, and nothing else changes. |
| TravelingSalesman.TravelingSalesmanProblem.constructor | TravelingSalesmanProblem.py:63-68 | The stored path is a rearrangement of the cities, and without shuffle it is the cities in their given order. The cache starts unset. |
| TravelingSalesman.TravelingSalesmanProblem.Copy | TravelingSalesmanProblem.py:72-75 | Builds a new state over a rearrangement of the same cities, in the same order without shuffle, with an unset cache. |
| TravelingSalesman.TravelingSalesmanProblem.GetValue | TravelingSalesmanProblem.py:155-178 | Fails exactly on an empty path. Otherwise it returns the looked-up circuit cost. With unique names that is the cost over the path's own coordinates. A single city costs `dist(p, p)`. |
| TravelingSalesman.TravelingSalesmanProblem.Utility | TravelingSalesmanProblem.py:96-103 | Returns the path's cost and caches it. Once the cache is set, it returns the cached value and changes nothing. A cached value always equals the cost. |
| TravelingSalesman.TravelingSalesmanProblem.Successors | TravelingSalesmanProblem.py:105-138 | Fails exactly on an empty path. Otherwise it returns (n-1)! new states with unset caches and pairwise different paths. Each path is a neighbour, and every neighbour is among them. The states come in the order of generation: their paths are the successor paths of the distinct draws of some prefix of `draws`, in first-draw order. |
| TravelingSalesman.TravelingSalesmanProblem.NewStates | TravelingSalesmanProblem.py:136 | One new state per path, holding that path in its order, with an unset cache. |
| TravelingSalesman.TravelingSalesmanProblem.GetSuccessor | TravelingSalesmanProblem.py:140-153 | Fails exactly on an empty path. Otherwise it returns a new state that belongs to the neighbourhood `Successors` builds. |

## Left out

- `dist` (lines 17-28) is not modelled as the Euclidean distance. Dafny has no square root, so the distance is an arbitrary function on points, and no property here depends on which metric it is. Floats are modelled as exact reals, so rounding is not modelled.
- The random generator is not modelled as a distribution. `Shuffle` may return any rearrangement, and `GetSuccessor` may pick any element. Uniformity is not stated.
- TravelingSalesman.TravelingSalesmanProblem.Successors: the sequence of `random.sample` results is the parameter `draws`. It is required to hold every ordering of the movable names at some point. This stands for "the rejection loop ends", which a random source achieves with probability 1; without that assumption, termination is not modelled.
- TravelingSalesman.TravelingSalesmanProblem.Successors: unique city names are required, which excludes two different cases. (1) A repeated name among the first n-1: fewer than (n-1)! distinct orderings exist, and the source's loop never ends. (2) An anchor name that repeats a movable name, for example `[("A", p1), ("B", p2), ("A", p3)]`: the loop does end, but the lookups through `dict(self.path)` give every "A" the coordinates `p3`. The successors are then not rearrangements of the path, since the city `("A", p1)` is lost. The model does not describe the successors in that case.
- TravelingSalesman.TravelingSalesmanProblem.GetSuccessor: requires unique names and the same `draws` condition, and so leaves out the same two cases: a path whose loop never ends, and a path with a repeated anchor name whose successors lose a city.
- TravelingSalesman.BoundedAppend: the `deque` is a bounded sequence. Its other operations and internals are not modelled.
- The cost of enumerating (n-1)! orderings is not modelled.
- The module-level `dist` is a parameter of the constructor, stored in each state. `Copy` and `Successors` pass the same one on, as the source's shared function does.
- The empty path: `names`, `coords`, `__get_value`, `utility` and `successors` raise when unpacking `zip(*())`. Here each returns `Failure(EmptyPath)`. For `Utility` the failure is not cached, and the source does not cache it either.
- The cost of a one-city path is `dist(p, p)`, as the code computes it: the closing edge from the city back to itself. It is not stated to be 0, which holds only for a metric. Likewise, no non-negative cost is stated.

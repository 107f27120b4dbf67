/**
  Permutations of a finite sequence: the permutation relation, the factorial
  that counts permutations, an explicit enumeration of all of them, and the
  counting facts that the neighbourhood sampler relies on.
 */
module Permutations {

  /** `a` is a rearrangement of `b`. */
  predicate IsPermutation<T(==)>(a: seq<T>, b: seq<T>) {
    multiset(a) == multiset(b)
  }

  /** No element occurs twice. */
  predicate Distinct<T(==)>(s: seq<T>) {
    forall i, j :: 0 <= i < j < |s| ==> s[i] != s[j]
  }

  /** Every rearrangement of `s` occurs in `c`. */
  ghost predicate AllPermutationsIn<T(!new)>(s: seq<T>, c: seq<seq<T>>) {
    forall p :: IsPermutation(p, s) ==> p in c
  }

  /**
    The entries of `xs` with every repeat dropped: each value once, at the
    place where it first occurs.
   */
  function FirstDistinct<T(==)>(xs: seq<T>): (r: seq<T>)
    ensures Distinct(r)
    ensures forall k :: 0 <= k < |r| ==> r[k] in xs
    ensures forall x :: x in xs ==> x in r
    decreases |xs|
  {
    if xs == [] then []
    else
      var rest := FirstDistinct(xs[..|xs| - 1]);
      var x := xs[|xs| - 1];
      assert xs == xs[..|xs| - 1] + [x];
      if x in rest then rest
      else
        DistinctAppend(rest, x);
        rest + [x]
  }

  /**
    Going from the first d entries to the first d + 1: entry d is dropped
    when it occurred before, and appended at the end when it is new.
   */
  lemma FirstDistinctStep<T>(xs: seq<T>, d: nat)
    requires d < |xs|
    ensures FirstDistinct(xs[..d + 1]) ==
      if xs[d] in FirstDistinct(xs[..d]) then FirstDistinct(xs[..d]) else FirstDistinct(xs[..d]) + [xs[d]]
  {
    assert xs[..d + 1][..d] == xs[..d];
  }

  /** The factorial `math.factorial` computes. */
  function Factorial(n: nat): (r: nat)
    ensures r >= 1
    ensures r >= n
  {
    if n == 0 then 1 else n * Factorial(n - 1)
  }

  /** `s` with its element at position `i` taken out. */
  function RemoveAt<T(==)>(s: seq<T>, i: nat): (r: seq<T>)
    requires i < |s|
    ensures |r| == |s| - 1
    ensures forall k :: 0 <= k < i ==> r[k] == s[k]
    ensures forall k :: i <= k < |r| ==> r[k] == s[k + 1]
  {
    s[..i] + s[i + 1..]
  }

  lemma RemoveAtMultiset<T>(s: seq<T>, i: nat)
    requires i < |s|
    ensures multiset(RemoveAt(s, i)) == multiset(s) - multiset{s[i]}
    ensures multiset(s) == multiset(RemoveAt(s, i)) + multiset{s[i]}
  {
    assert s == s[..i] + [s[i]] + s[i + 1..];
  }

  /** Puts `x` in front of every sequence of `ps`. */
  function Prepend<T(==)>(x: T, ps: seq<seq<T>>): (r: seq<seq<T>>)
    ensures |r| == |ps|
    ensures forall k :: 0 <= k < |r| ==> r[k] == [x] + ps[k]
  {
    seq(|ps|, k requires 0 <= k < |ps| => [x] + ps[k])
  }

  /**
    Every permutation of `s`, listed by first element: the permutations that
    start with `s[0]`, then those that start with `s[1]`, and so on.
   */
  function PermList<T(==)>(s: seq<T>): seq<seq<T>>
    decreases |s|, 1, 0
  {
    if s == [] then [[]] else PermsFrom(s, 0)
  }

  /** The permutations of `s` whose first element is taken from position `i` or later. */
  function PermsFrom<T(==)>(s: seq<T>, i: nat): seq<seq<T>>
    requires i <= |s|
    decreases |s|, 0, |s| - i
  {
    if i == |s| then []
    else Prepend(s[i], PermList(RemoveAt(s, i))) + PermsFrom(s, i + 1)
  }

  lemma MulSucc(m: nat, f: nat)
    ensures f + m * f == (m + 1) * f
  {
  }

  lemma {:induction false} PermsFromLength<T>(s: seq<T>, i: nat)
    requires 0 < |s| && i <= |s|
    ensures |PermsFrom(s, i)| == (|s| - i) * Factorial(|s| - 1)
    decreases |s|, 0, |s| - i
  {
    if i < |s| {
      var f, m := Factorial(|s| - 1), |s| - i;
      PermListLength(RemoveAt(s, i));
      PermsFromLength(s, i + 1);
      assert |PermsFrom(s, i)| == f + (m - 1) * f;
      MulSucc(m - 1, f);
    }
  }

  /** There are exactly |s|! entries in the enumeration. */
  lemma {:induction false} PermListLength<T>(s: seq<T>)
    ensures |PermList(s)| == Factorial(|s|)
    decreases |s|, 1, 0
  {
    if s != [] {
      PermsFromLength(s, 0);
    }
  }

  /** Putting `s[i]` in front of a permutation of the rest gives a permutation of `s`. */
  lemma PrependSound<T>(s: seq<T>, i: nat, q: seq<T>)
    requires i < |s| && IsPermutation(q, RemoveAt(s, i))
    ensures IsPermutation([s[i]] + q, s)
  {
    RemoveAtMultiset(s, i);
    assert multiset([s[i]] + q) == multiset{s[i]} + multiset(q);
  }

  lemma {:induction false} PermsFromSound<T>(s: seq<T>, i: nat)
    requires i <= |s|
    ensures forall p :: p in PermsFrom(s, i) ==> IsPermutation(p, s) && 0 < |p| && p[0] in s[i..]
    decreases |s|, 0, |s| - i
  {
    if i < |s| {
      var rest := RemoveAt(s, i);
      var block := Prepend(s[i], PermList(rest));
      var tail := PermsFrom(s, i + 1);
      assert PermsFrom(s, i) == block + tail;
      PermListSound(rest);
      PermsFromSound(s, i + 1);
      forall p | p in block
        ensures IsPermutation(p, s) && 0 < |p| && p[0] in s[i..]
      {
        var k :| 0 <= k < |block| && block[k] == p;
        var q := PermList(rest)[k];
        assert q in PermList(rest);
        PrependSound(s, i, q);
        assert s[i..][0] == p[0];
      }
      forall p | p in tail
        ensures p[0] in s[i..]
      {
        var later := s[i + 1..];
        var j :| 0 <= j < |later| && later[j] == p[0];
        assert s[i..][j + 1] == p[0];
      }
    }
  }

  /** Every entry of the enumeration is a permutation of `s`. */
  lemma {:induction false} PermListSound<T>(s: seq<T>)
    ensures forall p :: p in PermList(s) ==> IsPermutation(p, s)
    decreases |s|, 1, 0
  {
    if s != [] {
      PermsFromSound(s, 0);
    }
  }

  lemma {:induction false} PermsFromComplete<T>(s: seq<T>, i: nat, p: seq<T>)
    requires i <= |s| && IsPermutation(p, s) && 0 < |p| && p[0] in s[i..]
    ensures p in PermsFrom(s, i)
    decreases |s|, 0, |s| - i
  {
    if s[i] == p[0] {
      var rest := RemoveAt(s, i);
      RemoveAtMultiset(s, i);
      assert p == [p[0]] + p[1..];
      assert multiset(p) == multiset{p[0]} + multiset(p[1..]);
      PermListComplete(rest, p[1..]);
      var k :| 0 <= k < |PermList(rest)| && PermList(rest)[k] == p[1..];
      var block := Prepend(s[i], PermList(rest));
      assert block[k] == p;
    } else {
      assert p[0] in s[i + 1..] by {
        var j :| 0 <= j < |s[i..]| && s[i..][j] == p[0];
        assert j != 0;
        assert s[i + 1..][j - 1] == p[0];
      }
      PermsFromComplete(s, i + 1, p);
    }
  }

  /** Every permutation of `s` occurs in the enumeration. */
  lemma {:induction false} PermListComplete<T>(s: seq<T>, p: seq<T>)
    requires IsPermutation(p, s)
    ensures p in PermList(s)
    decreases |s|, 1, 0
  {
    if s == [] {
      assert |p| == |multiset(p)| == 0;
    } else {
      assert |p| == |multiset(s)| == |s|;
      assert p[0] in multiset(p);
      PermsFromComplete(s, 0, p);
    }
  }

  lemma DistinctConcat<T>(a: seq<T>, b: seq<T>)
    requires Distinct(a) && Distinct(b)
    requires forall x :: x in a ==> x !in b
    ensures Distinct(a + b)
  {
    forall i, j | 0 <= i < j < |a + b|
      ensures (a + b)[i] != (a + b)[j]
    {
      if i < |a| && |a| <= j {
        assert (a + b)[i] in a && (a + b)[j] in b;
      }
    }
  }

  /** Appending an element not yet present keeps a sequence duplicate-free and keeps what it held. */
  lemma DistinctAppend<T>(s: seq<T>, x: T)
    requires Distinct(s) && x !in s
    ensures Distinct(s + [x])
    ensures forall y :: y in s ==> y in s + [x]
  {
    forall i, j | 0 <= i < j < |s + [x]|
      ensures (s + [x])[i] != (s + [x])[j]
    {
      if j == |s| {
        assert (s + [x])[i] == s[i];
      }
    }
  }

  lemma {:induction false} PermsFromDistinct<T>(s: seq<T>, i: nat)
    requires i <= |s| && Distinct(s)
    ensures Distinct(PermsFrom(s, i))
    decreases |s|, 0, |s| - i
  {
    if i < |s| {
      var rest := RemoveAt(s, i);
      var block := Prepend(s[i], PermList(rest));
      PermListDistinct(rest);
      forall a, b | 0 <= a < b < |block|
        ensures block[a] != block[b]
      {
        assert block[a][1..] == PermList(rest)[a];
        assert block[b][1..] == PermList(rest)[b];
      }
      PermsFromDistinct(s, i + 1);
      PermsFromSound(s, i + 1);
      assert s[i] !in s[i + 1..] by {
        var later := s[i + 1..];
        forall j | 0 <= j < |later|
          ensures later[j] != s[i]
        {
          assert later[j] == s[i + 1 + j];
        }
      }
      forall x | x in block
        ensures x !in PermsFrom(s, i + 1)
      {
        var k :| 0 <= k < |block| && block[k] == x;
        assert x[0] == s[i];
      }
      DistinctConcat(block, PermsFrom(s, i + 1));
    }
  }

  /** With distinct elements, no permutation is listed twice. */
  lemma {:induction false} PermListDistinct<T>(s: seq<T>)
    requires Distinct(s)
    ensures Distinct(PermList(s))
    decreases |s|, 1, 0
  {
    if s != [] {
      PermsFromDistinct(s, 0);
    }
  }

  /** A duplicate-free sequence whose elements all occur in `b` is no longer than `b`. */
  lemma {:induction false} DistinctCover<T>(a: seq<T>, b: seq<T>)
    requires Distinct(a)
    requires forall x :: x in a ==> x in b
    ensures |a| <= |b|
  {
    if a != [] {
      var x := a[|a| - 1];
      assert x in a;
      var k :| 0 <= k < |b| && b[k] == x;
      var a' := a[..|a| - 1];
      var b' := RemoveAt(b, k);
      forall y | y in a'
        ensures y in b'
      {
        var m :| 0 <= m < |a'| && a'[m] == y;
        assert y != x;
        assert y in a;
        var n :| 0 <= n < |b| && b[n] == y;
        if n < k {
          assert b'[n] == y;
        } else {
          assert b'[n - 1] == y;
        }
      }
      DistinctCover(a', b');
    }
  }

  /** A sequence that contains every permutation of distinct `s` has at least |s|! entries. */
  lemma CoverAll<T(!new)>(s: seq<T>, c: seq<seq<T>>)
    requires Distinct(s)
    requires AllPermutationsIn(s, c)
    ensures |c| >= Factorial(|s|)
  {
    var all := PermList(s);
    PermListSound(s);
    PermListDistinct(s);
    PermListLength(s);
    forall x | x in all
      ensures x in c
    {
      assert IsPermutation(x, s);
    }
    DistinctCover(all, c);
  }

  /**
    |s|! distinct permutations of distinct `s` are all of them: every
    permutation of `s` is among them.
   */
  lemma CollectedAll<T(!new)>(s: seq<T>, c: seq<seq<T>>)
    requires Distinct(s) && Distinct(c)
    requires forall k :: 0 <= k < |c| ==> IsPermutation(c[k], s)
    requires |c| == Factorial(|s|)
    ensures AllPermutationsIn(s, c)
  {
    forall p | IsPermutation(p, s)
      ensures p in c
    {
      if p !in c {
        var all := PermList(s);
        PermListComplete(s, p);
        PermListSound(s);
        PermListLength(s);
        var k :| 0 <= k < |all| && all[k] == p;
        var others := RemoveAt(all, k);
        forall x | x in c
          ensures x in others
        {
          var m :| 0 <= m < |c| && c[m] == x;
          PermListComplete(s, x);
          var n :| 0 <= n < |all| && all[n] == x;
          if n < k {
            assert others[n] == x;
          } else {
            assert n != k;
            assert others[n - 1] == x;
          }
        }
        DistinctCover(c, others);
      }
    }
  }
}

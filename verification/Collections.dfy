/** Finite sets and sequences: what several modules need of them. */
module Collections {
  function Min(a: nat, b: nat): nat { if a < b then a else b }

  lemma {:induction false} SubsetCard<T>(a: set<T>, b: set<T>)
    requires a <= b
    ensures |a| <= |b|
  {
    if a != {} {
      var x :| x in a;
      SubsetCard(a - {x}, b - {x});
    }
  }

  // ------------------------------------------------------- sequences of pieces

  function Flatten<T>(pieces: seq<seq<T>>): seq<T> {
    if pieces == [] then [] else pieces[0] + Flatten(pieces[1..])
  }

  lemma {:induction false} FlattenAppend<T>(pieces: seq<seq<T>>, piece: seq<T>)
    ensures Flatten(pieces + [piece]) == Flatten(pieces) + piece
  {
    if pieces == [] {
      assert [piece][1..] == [];
    } else {
      assert (pieces + [piece])[1..] == pieces[1..] + [piece];
      FlattenAppend(pieces[1..], piece);
    }
  }

  /** separator.join(pieces) */
  function Join<T>(pieces: seq<seq<T>>, separator: seq<T>): seq<T> {
    if pieces == [] then []
    else if |pieces| == 1 then pieces[0]
    else pieces[0] + separator + Join(pieces[1..], separator)
  }

  lemma JoinStep<T>(first: seq<T>, rest: seq<seq<T>>, separator: seq<T>)
    requires rest != []
    ensures Join([first] + rest, separator) == first + separator + Join(rest, separator)
  {
    assert ([first] + rest)[1..] == rest;
  }

  // ---------------------------------------------------------- distinct elements

  predicate Distinct<T(==)>(s: seq<T>) {
    forall i, j :: 0 <= i < j < |s| ==> s[i] != s[j]
  }

  function Elements<T(==)>(s: seq<T>): set<T> { set x | x in s }

  lemma {:induction false} DistinctCard<T>(s: seq<T>)
    requires Distinct(s)
    ensures |Elements(s)| == |s|
  {
    if s != [] {
      var n := |s| - 1;
      DistinctCard(s[..n]);
      assert s == s[..n] + [s[n]];
      assert Elements(s) == Elements(s[..n]) + {s[n]};
    }
  }

  lemma {:induction false} DistinctCounts<T>(s: seq<T>, x: T)
    requires Distinct(s)
    ensures multiset(s)[x] == if x in s then 1 else 0
  {
    if s != [] {
      var n := |s| - 1;
      DistinctCounts(s[..n], x);
      assert s == s[..n] + [s[n]];
    }
  }

  /** 0, 1, ..., n - 1 */
  function Upto(n: nat): (s: seq<nat>)
    ensures |s| == n && forall i :: 0 <= i < n ==> s[i] == i
    ensures Distinct(s) && forall i: nat :: i in s <==> i < n
  {
    if n == 0 then [] else Upto(n - 1) + [n - 1]
  }

  /** Distinct numbers below n are at most n, and n of them are all. */
  lemma {:induction false} DistinctBound(s: seq<nat>, n: nat)
    requires Distinct(s) && forall x :: x in s ==> x < n
    ensures |s| <= n
    ensures (forall x: nat :: x < n ==> x in s) <==> |s| == n
  {
    var all, here := Elements(Upto(n)), Elements(s);
    DistinctCard(Upto(n));
    DistinctCard(s);
    assert here <= all;
    SubsetCard(here, all);
    if |s| == n {
      forall x: nat | x < n ensures x in s {
        if x !in here {
          SubsetCard(here + {x}, all);
        }
      }
    }
    assert (forall x: nat :: x < n ==> x in s) ==> here == all;
  }

  // --------------------------------------------------------------- permutations

  function Image<T, R>(s: seq<T>, f: T -> R): (r: seq<R>)
    ensures |r| == |s| && forall i :: 0 <= i < |s| ==> r[i] == f(s[i])
  {
    seq(|s|, i requires 0 <= i < |s| => f(s[i]))
  }

  function Without<T>(s: seq<T>, j: nat): seq<T>
    requires j < |s|
  {
    s[..j] + s[j + 1..]
  }

  lemma WithoutCounts<T>(s: seq<T>, j: nat)
    requires j < |s|
    ensures multiset(s) == multiset(Without(s, j)) + multiset{s[j]}
  {
    assert s == s[..j] + [s[j]] + s[j + 1..];
  }

  lemma ImageWithout<T, R>(s: seq<T>, j: nat, f: T -> R)
    requires j < |s|
    ensures Image(Without(s, j), f) == Without(Image(s, f), j)
  {
  }

  /** Reordering the arguments reorders the images. */
  lemma {:induction false} ImagePermutes<T, R>(s: seq<T>, t: seq<T>, f: T -> R)
    requires multiset(s) == multiset(t)
    ensures multiset(Image(s, f)) == multiset(Image(t, f))
    decreases |s|
  {
    if s == [] {
      assert |multiset(t)| == |t|;
    } else {
      hide Without;
      assert s[0] in multiset(t);
      var j :| 0 <= j < |t| && t[j] == s[0];
      WithoutCounts(s, 0);
      WithoutCounts(t, j);
      assert multiset(Without(s, 0)) == multiset(s) - multiset{s[0]};
      assert multiset(Without(t, j)) == multiset(t) - multiset{s[0]};
      WithoutShorter(s, 0);
      ImagePermutes(Without(s, 0), Without(t, j), f);
      ImageWithout(s, 0, f);
      ImageWithout(t, j, f);
      WithoutCounts(Image(s, f), 0);
      WithoutCounts(Image(t, f), j);
    }
  }

  lemma WithoutShorter<T>(s: seq<T>, j: nat)
    requires j < |s|
    ensures |Without(s, j)| == |s| - 1
  {
  }

  /** All numbers below n, each once, are a permutation of 0, ..., n - 1. */
  lemma {:induction false} DistinctPermutes(s: seq<nat>, n: nat)
    requires Distinct(s) && |s| == n && forall x :: x in s ==> x < n
    ensures multiset(s) == multiset(Upto(n))
  {
    DistinctBound(s, n);
    forall x: nat ensures multiset(s)[x] == multiset(Upto(n))[x] {
      DistinctCounts(s, x);
      DistinctCounts(Upto(n), x);
    }
  }
}

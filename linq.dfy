/**
 * The LINQ operators the index model relies on: Select, SequenceEqual and the
 * stable sort performed by OrderBy and ThenBy.
 *
 * OrderBy is modelled as insertion sort under a "less than or equal" relation
 * `le`; an element is inserted in front of every element it is `le` to, so an
 * element never overtakes an earlier element with an equivalent key (the sort
 * is stable, as LINQ's is).
 */
module Linq {

  /** Enumerable.Select. */
  function Select<A, B>(s: seq<A>, f: A -> B): seq<B> {
    seq(|s|, i requires 0 <= i < |s| => f(s[i]))
  }

  /** Enumerable.SequenceEqual under the element equality `eq`. */
  function SequenceEqual<T>(a: seq<T>, b: seq<T>, eq: (T, T) -> bool): (r: bool)
    ensures r <==> |a| == |b| && forall i :: 0 <= i < |a| ==> eq(a[i], b[i])
  {
    if |a| == 0 || |b| == 0 then |a| == 0 && |b| == 0
    else if !eq(a[0], b[0]) then false
    else SequenceEqual(a[1..], b[1..], eq)
  }

  ghost predicate Sorted<T>(s: seq<T>, le: (T, T) -> bool) {
    forall i, j :: 0 <= i < j < |s| ==> le(s[i], s[j])
  }

  /** `le` is total and transitive: the relations OrderBy's key comparers induce. */
  ghost predicate TotalPreorder<T(!new)>(le: (T, T) -> bool) {
    && (forall x, y :: le(x, y) || le(y, x))
    && (forall x, y, z :: le(x, y) && le(y, z) ==> le(x, z))
  }

  function Insert<T>(x: T, s: seq<T>, le: (T, T) -> bool): (r: seq<T>)
    ensures multiset(r) == multiset(s) + multiset{x}
  {
    if |s| == 0 || le(x, s[0]) then [x] + s
    else
      assert s == [s[0]] + s[1..];
      [s[0]] + Insert(x, s[1..], le)
  }

  /** Enumerable.OrderBy (stable): a permutation of `s`. */
  function OrderBy<T>(s: seq<T>, le: (T, T) -> bool): (r: seq<T>)
    ensures multiset(r) == multiset(s)
    ensures |r| == |s|
  {
    if |s| == 0 then []
    else
      assert s == [s[0]] + s[1..];
      Insert(s[0], OrderBy(s[1..], le), le)
  }

  lemma {:induction false} InsertSorted<T(!new)>(x: T, s: seq<T>, le: (T, T) -> bool)
    requires TotalPreorder(le)
    requires Sorted(s, le)
    ensures Sorted(Insert(x, s, le), le)
  {
    if |s| == 0 || le(x, s[0]) {
    } else {
      var rest := Insert(x, s[1..], le);
      InsertSorted(x, s[1..], le);
      forall y | y in rest ensures le(s[0], y) {
        assert y in multiset(rest);
        if y != x {
          assert y in multiset(s[1..]);
          var j :| 0 <= j < |s[1..]| && s[1..][j] == y;
          assert s[1 + j] == y;
        }
      }
      var r := [s[0]] + rest;
      forall i, j | 0 <= i < j < |r| ensures le(r[i], r[j]) {
        if i == 0 {
          assert r[j] == rest[j - 1];
          assert rest[j - 1] in rest;
        } else {
          assert r[i] == rest[i - 1] && r[j] == rest[j - 1];
        }
      }
    }
  }

  /** The output of OrderBy is ordered by `le`. */
  lemma {:induction false} OrderBySorted<T(!new)>(s: seq<T>, le: (T, T) -> bool)
    requires TotalPreorder(le)
    ensures Sorted(OrderBy(s, le), le)
  {
    if |s| > 0 {
      OrderBySorted(s[1..], le);
      InsertSorted(s[0], OrderBy(s[1..], le), le);
    }
  }

  /** Stability in its simplest form: an input that is already ordered comes out unchanged. */
  lemma {:induction false} OrderBySortedUnchanged<T>(s: seq<T>, le: (T, T) -> bool)
    requires Sorted(s, le)
    ensures OrderBy(s, le) == s
  {
    if |s| > 0 {
      assert Sorted(s[1..], le) by {
        forall i, j | 0 <= i < j < |s[1..]| ensures le(s[1..][i], s[1..][j]) {
          assert s[1..][i] == s[i + 1] && s[1..][j] == s[j + 1];
        }
      }
      OrderBySortedUnchanged(s[1..], le);
      if |s| > 1 {
        assert le(s[0], s[1]);
      }
      assert s == [s[0]] + s[1..];
    }
  }

  lemma {:induction false} InsertSelect<A, B>(x: A, s: seq<A>, f: A -> B,
                                              leA: (A, A) -> bool, leB: (B, B) -> bool, universe: seq<A>)
    requires x in universe
    requires forall y :: y in s ==> y in universe
    requires forall y, z :: y in universe && z in universe ==> leB(f(y), f(z)) == leA(y, z)
    ensures Insert(f(x), Select(s, f), leB) == Select(Insert(x, s, leA), f)
  {
    if |s| > 0 && !leA(x, s[0]) {
      assert s[0] in s;
      assert Select(s, f)[1..] == Select(s[1..], f);
      InsertSelect(x, s[1..], f, leA, leB, universe);
    }
  }

  /**
   * Sorting commutes with a projection that preserves the order on the elements
   * being sorted: projecting and then sorting gives the projection of the sort.
   */
  lemma {:induction false} OrderBySelect<A, B>(s: seq<A>, f: A -> B, leA: (A, A) -> bool, leB: (B, B) -> bool)
    requires forall y, z :: y in s && z in s ==> leB(f(y), f(z)) == leA(y, z)
    ensures OrderBy(Select(s, f), leB) == Select(OrderBy(s, leA), f)
  {
    if |s| > 0 {
      assert Select(s, f)[0] == f(s[0]);
      assert Select(s, f)[1..] == Select(s[1..], f);
      OrderBySelect(s[1..], f, leA, leB);
      var t := OrderBy(s[1..], leA);
      forall y | y in t ensures y in s {
        assert y in multiset(t);
        assert y in multiset(s[1..]);
      }
      InsertSelect(s[0], t, f, leA, leB, s);
    }
  }

  /** Removing the element at position j keeps the rest, in order. */
  lemma RemoveAt<T>(b: seq<T>, j: nat, le: (T, T) -> bool)
    requires j < |b|
    ensures multiset(b[..j] + b[j + 1..]) == multiset(b) - multiset{b[j]}
    ensures Sorted(b, le) ==> Sorted(b[..j] + b[j + 1..], le)
  {
    var b' := b[..j] + b[j + 1..];
    assert b == b[..j] + [b[j]] + b[j + 1..];
    assert multiset(b) == multiset(b[..j]) + multiset{b[j]} + multiset(b[j + 1..]);
    if Sorted(b, le) {
      forall i, k | 0 <= i < k < |b'| ensures le(b'[i], b'[k]) {
        var i' := if i < j then i else i + 1;
        var k' := if k < j then k else k + 1;
        assert b'[i] == b[i'] && b'[k] == b[k'];
      }
    }
  }

  lemma SortedTail<T>(a: seq<T>, le: (T, T) -> bool)
    requires |a| > 0 && Sorted(a, le)
    ensures Sorted(a[1..], le)
    ensures multiset(a[1..]) == multiset(a) - multiset{a[0]}
  {
    assert a == [a[0]] + a[1..];
    forall i, k | 0 <= i < k < |a[1..]| ensures le(a[1..][i], a[1..][k]) {
      assert a[1..][i] == a[i + 1] && a[1..][k] == a[k + 1];
    }
  }

  /**
   * Two sequences ordered by `le` that hold the same elements have the same
   * projection under any `p` that cannot tell `le`-equivalent elements apart.
   */
  lemma {:induction false} SortedProjectionUnique<T, U>(a: seq<T>, b: seq<T>, le: (T, T) -> bool, p: T -> U)
    requires Sorted(a, le) && Sorted(b, le)
    requires multiset(a) == multiset(b)
    requires forall x, y :: x in a && y in a && le(x, y) && le(y, x) ==> p(x) == p(y)
    ensures Select(a, p) == Select(b, p)
    decreases |a|
  {
    if |a| == 0 {
      assert |b| == |multiset(b)| == 0;
    } else {
      var x := a[0];
      assert x in multiset(b);
      var j :| 0 <= j < |b| && b[j] == x;
      var b' := b[..j] + b[j + 1..];
      RemoveAt(b, j, le);
      SortedTail(a, le);
      SortedProjectionUnique(a[1..], b', le, p);
      forall i | 0 <= i <= j ensures p(b[i]) == p(x) {
        if b[i] != x {
          assert b[i] in multiset(a);
          var m :| 0 <= m < |a| && a[m] == b[i];
          assert le(a[0], a[m]);
          assert le(b[i], b[j]);
        }
      }
      ShiftedProjection(a, b, j, p);
    }
  }

  lemma ShiftedProjection<T, U>(a: seq<T>, b: seq<T>, j: nat, p: T -> U)
    requires |a| == |b| > 0 && j < |b|
    requires Select(a[1..], p) == Select(b[..j] + b[j + 1..], p)
    requires forall i :: 0 <= i <= j ==> p(b[i]) == p(a[0])
    ensures Select(a, p) == Select(b, p)
  {
    var b' := b[..j] + b[j + 1..];
    forall i | 0 <= i < |b| ensures Select(b, p)[i] == Select(a, p)[i] {
      if i == 0 {
      } else if i <= j {
        assert Select(a, p)[i] == Select(a[1..], p)[i - 1] == Select(b', p)[i - 1];
        assert b'[i - 1] == b[i - 1];
      } else {
        assert Select(a, p)[i] == Select(a[1..], p)[i - 1] == Select(b', p)[i - 1];
        assert b'[i - 1] == b[i];
      }
    }
  }

  /**
   * Order-insensitivity: ordering two permutations of one another and then
   * projecting gives the same sequence, provided the projection does not tell
   * apart elements that the order ranks equal.
   */
  lemma OrderByPermutation<T(!new), U>(s: seq<T>, t: seq<T>, le: (T, T) -> bool, p: T -> U)
    requires TotalPreorder(le)
    requires multiset(s) == multiset(t)
    requires forall x, y :: x in s && y in s && le(x, y) && le(y, x) ==> p(x) == p(y)
    ensures Select(OrderBy(s, le), p) == Select(OrderBy(t, le), p)
  {
    OrderBySorted(s, le);
    OrderBySorted(t, le);
    var a := OrderBy(s, le);
    forall x, y | x in a && y in a && le(x, y) && le(y, x) ensures p(x) == p(y) {
      assert x in multiset(a) && y in multiset(a);
      assert x in multiset(s) && y in multiset(s);
    }
    SortedProjectionUnique(a, OrderBy(t, le), le, p);
  }

  /** Pairs up the elements of two sequences of equal length. */
  function Zip<T>(s: seq<T>, t: seq<T>): seq<(T, T)>
    requires |s| == |t|
  {
    seq(|s|, m requires 0 <= m < |s| => (s[m], t[m]))
  }

  lemma ZipRanking<T>(s: seq<T>, t: seq<T>, le: (T, T) -> bool)
    requires |s| == |t|
    requires forall m, n :: 0 <= m < |s| && 0 <= n < |s| ==> le(s[m], s[n]) == le(t[m], t[n])
    ensures forall u, v :: u in Zip(s, t) && v in Zip(s, t) ==>
      le(u.0, v.0) == le(u.1, v.1)
  {
    var z := Zip(s, t);
    forall u, v | u in z && v in z ensures le(u.0, v.0) == le(u.1, v.1) {
      var m :| 0 <= m < |z| && z[m] == u;
      var n :| 0 <= n < |z| && z[n] == v;
    }
  }

  /**
   * Sorting two sequences that are ranked alike position by position moves
   * their elements alike: s[i] and t[i] land at the same output position.
   */
  lemma OrderByAligned<T>(s: seq<T>, t: seq<T>, le: (T, T) -> bool, i: nat)
    requires |s| == |t| && i < |s|
    requires forall m, n :: 0 <= m < |s| && 0 <= n < |s| ==> le(s[m], s[n]) == le(t[m], t[n])
    ensures exists k :: 0 <= k < |s| && OrderBy(s, le)[k] == s[i] && OrderBy(t, le)[k] == t[i]
  {
    var z := Zip(s, t);
    var leZ := (u: (T, T), v: (T, T)) => le(u.0, v.0);
    var first := (u: (T, T)) => u.0;
    var second := (u: (T, T)) => u.1;
    ZipRanking(s, t, le);
    OrderBySelect(z, first, leZ, le);
    OrderBySelect(z, second, leZ, le);
    assert Select(z, first) == s;
    assert Select(z, second) == t;
    var w := OrderBy(z, leZ);
    assert z[i] in multiset(w);
    var k :| 0 <= k < |w| && w[k] == z[i];
    assert OrderBy(s, le)[k] == Select(w, first)[k] == s[i];
    assert OrderBy(t, le)[k] == Select(w, second)[k] == t[i];
  }

  /**
   * Order-sensitivity: if `s` and `t` are ranked alike position by position and
   * their elements at position i project differently, their ordered projections differ.
   */
  lemma OrderByDifferAt<T, U>(s: seq<T>, t: seq<T>, le: (T, T) -> bool, p: T -> U, i: nat)
    requires |s| == |t| && i < |s|
    requires forall m, n :: 0 <= m < |s| && 0 <= n < |s| ==> le(s[m], s[n]) == le(t[m], t[n])
    requires p(s[i]) != p(t[i])
    ensures Select(OrderBy(s, le), p) != Select(OrderBy(t, le), p)
  {
    OrderByAligned(s, t, le, i);
    var k :| 0 <= k < |s| && OrderBy(s, le)[k] == s[i] && OrderBy(t, le)[k] == t[i];
    assert Select(OrderBy(s, le), p)[k] != Select(OrderBy(t, le), p)[k];
  }
}

/**
 * The two library operations the source applies to its lists:
 * `Array.prototype.filter` and the stable `Array.prototype.sort` driven by a
 * comparator.  A comparator `cmp` is represented by `le(a, b) == (cmp(a, b) <= 0)`:
 * "a may stay in front of b".
 */
module Seqs {

  /** One more than the largest key in the list (0 for none): a key from
      there on is fresh. */
  function KeyBound<T>(s: seq<T>, key: T -> nat): (r: nat)
    ensures forall i :: 0 <= i < |s| ==> key(s[i]) < r
  {
    if s == [] then 0
    else
      var rest := KeyBound(s[1..], key);
      assert forall i :: 1 <= i < |s| ==> s[i] == s[1..][i - 1];
      if key(s[0]) + 1 > rest then key(s[0]) + 1 else rest
  }

  /** `s.filter(p)`. */
  function Filter<T>(s: seq<T>, p: T -> bool): (r: seq<T>)
    ensures |r| <= |s|
    ensures forall i :: 0 <= i < |r| ==> p(r[i])
    ensures multiset(r) <= multiset(s)
  {
    if s == [] then []
    else
      assert s == [s[0]] + s[1..];
      (if p(s[0]) then [s[0]] else []) + Filter(s[1..], p)
  }

  /** Filtering keeps the relative order: it distributes over concatenation.
      Together with the singleton case this determines `Filter` completely. */
  lemma {:induction false} FilterConcat<T>(a: seq<T>, b: seq<T>, p: T -> bool)
    ensures Filter(a + b, p) == Filter(a, p) + Filter(b, p)
  {
    if a == [] {
      assert a + b == b;
    } else {
      assert (a + b)[0] == a[0] && (a + b)[1..] == a[1..] + b;
      FilterConcat(a[1..], b, p);
    }
  }

  /** Every element that satisfies `p` is kept, as often as it occurs. */
  lemma {:induction false} FilterKeepsMatches<T>(s: seq<T>, p: T -> bool, x: T)
    requires p(x)
    ensures multiset(Filter(s, p))[x] == multiset(s)[x]
  {
    if s != [] {
      assert s == [s[0]] + s[1..];
      FilterKeepsMatches(s[1..], p, x);
    }
  }

  /** Two predicates that no element satisfies together select at most |s| elements in all. */
  lemma {:induction false} FilterDisjointCount<T>(s: seq<T>, p: T -> bool, q: T -> bool)
    requires forall i :: 0 <= i < |s| ==> !(p(s[i]) && q(s[i]))
    ensures |Filter(s, p)| + |Filter(s, q)| <= |s|
  {
    if s != [] {
      FilterDisjointCount(s[1..], p, q);
    }
  }

  /** An element that passes sits in the result right after the passing
      elements in front of it: the result is the passing elements, in order. */
  lemma FilterPosition<T>(s: seq<T>, p: T -> bool, i: int)
    requires 0 <= i < |s| && p(s[i])
    ensures |Filter(s[..i], p)| < |Filter(s, p)|
    ensures Filter(s, p)[|Filter(s[..i], p)|] == s[i]
  {
    assert s == s[..i] + ([s[i]] + s[i + 1..]);
    FilterConcat(s[..i], [s[i]] + s[i + 1..], p);
    FilterConcat([s[i]], s[i + 1..], p);
    assert Filter([s[i]], p) == [s[i]] by {
      assert [s[i]][1..] == [];
    }
  }

  /** The count of passing elements in a prefix grows with the prefix. */
  lemma FilterPrefixGrows<T>(s: seq<T>, p: T -> bool, i: int, j: int)
    requires 0 <= i <= j <= |s|
    ensures |Filter(s[..i], p)| <= |Filter(s[..j], p)|
    ensures i < j && p(s[i]) ==> |Filter(s[..i], p)| < |Filter(s[..j], p)|
  {
    assert s[..j] == s[..i] + s[i..j];
    FilterConcat(s[..i], s[i..j], p);
    if i < j {
      assert s[i..j] == [s[i]] + s[i + 1..j];
      FilterConcat([s[i]], s[i + 1..j], p);
      assert [s[i]][1..] == [];
    }
  }

  /** A filter keeps everything exactly when every element passes. */
  lemma {:induction false} FilterAllIff<T>(s: seq<T>, p: T -> bool)
    ensures |Filter(s, p)| == |s| <==> forall i :: 0 <= i < |s| ==> p(s[i])
  {
    if s != [] {
      FilterAllIff(s[1..], p);
      assert forall i :: 1 <= i < |s| ==> s[i] == s[1..][i - 1];
    }
  }

  /** When every element passes, the filter is the identity. */
  lemma {:induction false} FilterKeepsAll<T>(s: seq<T>, p: T -> bool)
    requires forall i :: 0 <= i < |s| ==> p(s[i])
    ensures Filter(s, p) == s
  {
    if s != [] {
      assert forall i :: 1 <= i < |s| ==> s[i] == s[1..][i - 1];
      FilterKeepsAll(s[1..], p);
      assert s == [s[0]] + s[1..];
    }
  }

  /** When no element passes, nothing is kept. */
  lemma {:induction false} FilterDropsAll<T>(s: seq<T>, p: T -> bool)
    requires forall i :: 0 <= i < |s| ==> !p(s[i])
    ensures Filter(s, p) == []
  {
    if s != [] {
      assert forall i :: 1 <= i < |s| ==> s[i] == s[1..][i - 1];
      FilterDropsAll(s[1..], p);
    }
  }

  /** A weaker test keeps at least as many elements. */
  lemma {:induction false} FilterWeaker<T>(s: seq<T>, p: T -> bool, q: T -> bool)
    requires forall i :: 0 <= i < |s| ==> p(s[i]) ==> q(s[i])
    ensures |Filter(s, p)| <= |Filter(s, q)|
  {
    if s != [] {
      assert forall i :: 1 <= i < |s| ==> s[i] == s[1..][i - 1];
      FilterWeaker(s[1..], p, q);
    }
  }

  /** `le` is total and transitive on the elements of `s`. */
  ghost predicate PreorderOn<T>(le: (T, T) -> bool, s: seq<T>) {
    && (forall x, y :: x in s && y in s ==> le(x, y) || le(y, x))
    && (forall x, y, z :: x in s && y in s && z in s && le(x, y) && le(y, z) ==> le(x, z))
  }

  ghost predicate SortedBy<T>(s: seq<T>, le: (T, T) -> bool) {
    forall i, j :: 0 <= i < j < |s| ==> le(s[i], s[j])
  }

  /** Places `x` in front of the first element it may precede. */
  function Insert<T>(x: T, s: seq<T>, le: (T, T) -> bool): (r: seq<T>)
    ensures multiset(r) == multiset(s) + multiset{x}
    ensures |r| == |s| + 1
  {
    if s == [] then [x]
    else if le(x, s[0]) then [x] + s
    else
      assert s == [s[0]] + s[1..];
      [s[0]] + Insert(x, s[1..], le)
  }

  /** A stable sort: elements the comparator calls equal keep their input order,
      because an earlier element is inserted in front of every later one it may precede. */
  function StableSort<T>(s: seq<T>, le: (T, T) -> bool): (r: seq<T>)
    ensures multiset(r) == multiset(s)
    ensures |r| == |s|
  {
    if s == [] then []
    else
      assert s == [s[0]] + s[1..];
      Insert(s[0], StableSort(s[1..], le), le)
  }

  /** Putting a lower bound of a sorted sequence in front keeps it sorted. */
  lemma ConsSorted<T>(x: T, s: seq<T>, le: (T, T) -> bool)
    requires SortedBy(s, le)
    requires forall j :: 0 <= j < |s| ==> le(x, s[j])
    ensures SortedBy([x] + s, le)
  {
    var r := [x] + s;
    forall i, j | 0 <= i < j < |r| ensures le(r[i], r[j]) {
      assert r[j] == s[j - 1];
      if i > 0 { assert r[i] == s[i - 1]; }
    }
  }

  /** Everything in the result of an insertion comes from the input or is the new element. */
  lemma InsertMembers<T>(x: T, s: seq<T>, le: (T, T) -> bool)
    ensures forall y :: y in Insert(x, s, le) ==> y == x || y in s
  {
    forall y | y in Insert(x, s, le) ensures y == x || y in s {
      assert y in multiset(Insert(x, s, le));
    }
  }

  lemma {:induction false} InsertSorted<T>(x: T, s: seq<T>, le: (T, T) -> bool)
    requires SortedBy(s, le)
    requires PreorderOn(le, [x] + s)
    ensures SortedBy(Insert(x, s, le), le)
  {
    if s == [] {
    } else if le(x, s[0]) {
      forall j | 0 <= j < |s| ensures le(x, s[j]) {
        if j > 0 {
          assert x in [x] + s && s[0] in [x] + s && s[j] in [x] + s;
          assert le(s[0], s[j]);
        }
      }
      ConsSorted(x, s, le);
    } else {
      var t := s[1..];
      assert forall y :: y in [x] + t ==> y in [x] + s;
      assert SortedBy(t, le);
      InsertSorted(x, t, le);
      var rest := Insert(x, t, le);
      assert x in [x] + s && s[0] in [x] + s;
      assert le(s[0], x);
      InsertMembers(x, t, le);
      forall j | 0 <= j < |rest| ensures le(s[0], rest[j]) {
        var y := rest[j];
        assert y in rest;
        if y != x {
          var m :| 0 <= m < |t| && t[m] == y;
          assert s[m + 1] == y;
        }
      }
      ConsSorted(s[0], rest, le);
    }
  }

  /** The sorted copy is ordered by `le` whenever `le` is a total preorder on the input. */
  lemma {:induction false} StableSortSorted<T>(s: seq<T>, le: (T, T) -> bool)
    requires PreorderOn(le, s)
    ensures SortedBy(StableSort(s, le), le)
  {
    if s != [] {
      var t := s[1..];
      assert forall y :: y in t ==> y in s;
      StableSortSorted(t, le);
      var sorted := StableSort(t, le);
      forall y | y in [s[0]] + sorted ensures y in s {
        if y != s[0] {
          assert y in multiset(sorted);
        }
      }
      InsertSorted(s[0], sorted, le);
    }
  }

  /** The head of the sorted copy is the FIRST minimum of the input: every element
      may follow it, and no element before it may precede it. */
  lemma {:induction false} StableSortHead<T>(s: seq<T>, le: (T, T) -> bool) returns (k: nat)
    requires |s| > 0
    requires PreorderOn(le, s)
    ensures k < |s| && StableSort(s, le)[0] == s[k]
    ensures forall j :: 0 <= j < |s| ==> le(s[k], s[j])
    ensures forall j :: 0 <= j < k ==> !le(s[j], s[k])
  {
    if |s| == 1 {
      k := 0;
    } else {
      var t := s[1..];
      TailPreorder(s, le);
      var k' := StableSortHead(t, le);
      var h := t[k'];
      assert s[0] in s && h in s;
      if le(s[0], h) {
        k := 0;
        forall j | 0 <= j < |s| ensures le(s[0], s[j]) {
          assert s[j] in s;
          if j > 0 {
            assert s[j] == t[j - 1];
          }
        }
        HeadStaysFirst(s, le);
      } else {
        k := 1 + k';
        TailHeadWins(s, le, k');
      }
    }
  }

  lemma TailPreorder<T>(s: seq<T>, le: (T, T) -> bool)
    requires |s| > 0 && PreorderOn(le, s)
    ensures PreorderOn(le, s[1..])
  {
    assert forall y :: y in s[1..] ==> y in s;
  }

  /** The first element may precede every element, so it stays in front. */
  lemma HeadStaysFirst<T>(s: seq<T>, le: (T, T) -> bool)
    requires |s| > 1
    requires forall j :: 0 <= j < |s| ==> le(s[0], s[j])
    ensures StableSort(s, le)[0] == s[0]
  {
    var sorted := StableSort(s[1..], le);
    assert sorted[0] in multiset(s[1..]);
    var m :| 0 <= m < |s| - 1 && s[1..][m] == sorted[0];
    assert le(s[0], s[m + 1]);
    assert Insert(s[0], sorted, le) == [s[0]] + sorted;
  }

  /** The tail's minimum may not follow the first element, so it moves in front. */
  lemma TailHeadWins<T>(s: seq<T>, le: (T, T) -> bool, k': nat)
    requires |s| > 1
    requires k' < |s| - 1 && StableSort(s[1..], le)[0] == s[1..][k']
    requires forall j :: 0 <= j < |s| - 1 ==> le(s[1..][k'], s[1..][j])
    requires forall j :: 0 <= j < k' ==> !le(s[1..][j], s[1..][k'])
    requires !le(s[0], s[1..][k']) && le(s[1..][k'], s[0])
    ensures StableSort(s, le)[0] == s[1 + k']
    ensures forall j :: 0 <= j < |s| ==> le(s[1 + k'], s[j])
    ensures forall j :: 0 <= j < 1 + k' ==> !le(s[j], s[1 + k'])
  {
    var t := s[1..];
    var sorted := StableSort(t, le);
    assert StableSort(s, le) == Insert(s[0], sorted, le);
    assert Insert(s[0], sorted, le) == [sorted[0]] + Insert(s[0], sorted[1..], le);
    forall j | 0 <= j < |s| ensures le(t[k'], s[j]) {
      if j > 0 { assert s[j] == t[j - 1]; }
    }
    forall j | 0 <= j < 1 + k' ensures !le(s[j], t[k']) {
      if j > 0 { assert s[j] == t[j - 1]; }
    }
  }
}

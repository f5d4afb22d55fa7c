/** sort.Slice as its callers may rely on it: some rearrangement, in order when the comparison
    is a strict weak order on what is being sorted, and in no particular order otherwise. */
module Sorting {

  /** Asymmetric, and no pair is ordered around an element that is ordered with neither end. */
  ghost predicate WeakOrderOn<T>(s: seq<T>, less: (T, T) -> bool) {
    && (forall a, b :: a in s && b in s && less(a, b) ==> !less(b, a))
    && (forall a, b, c :: a in s && b in s && c in s && less(a, c) ==> less(a, b) || less(b, c))
  }

  ghost predicate Sorted<T>(s: seq<T>, less: (T, T) -> bool) {
    forall i, j :: 0 <= i < j < |s| ==> !less(s[j], s[i])
  }

  ghost predicate SortOutcome<T>(s: seq<T>, t: seq<T>, less: (T, T) -> bool) {
    multiset(s) == multiset(t) && (WeakOrderOn(s, less) ==> Sorted(t, less))
  }

  function Insert<T>(x: T, t: seq<T>, less: (T, T) -> bool): (r: seq<T>)
    ensures |r| == |t| + 1
  {
    if t == [] || less(x, t[0]) then [x] + t else [t[0]] + Insert(x, t[1..], less)
  }

  /** The order sort.Slice leaves, when it is determined at all. */
  function SortBy<T>(s: seq<T>, less: (T, T) -> bool): (t: seq<T>)
    ensures |t| == |s|
  {
    if s == [] then [] else Insert(s[0], SortBy(s[1..], less), less)
  }

  lemma {:induction false} InsertPermutes<T>(x: T, t: seq<T>, less: (T, T) -> bool)
    ensures multiset(Insert(x, t, less)) == multiset{x} + multiset(t)
  {
    if t != [] {
      assert t == [t[0]] + t[1..];
      if !less(x, t[0]) {
        InsertPermutes(x, t[1..], less);
      }
    }
  }

  lemma {:induction false} InsertSorts<T>(x: T, t: seq<T>, less: (T, T) -> bool)
    requires WeakOrderOn([x] + t, less) && Sorted(t, less)
    ensures Sorted(Insert(x, t, less), less)
  {
    if t != [] {
      assert t[0] in [x] + t && x in [x] + t;
      assert forall y :: y in t ==> y in [x] + t;
      var r := Insert(x, t, less);
      if less(x, t[0]) {
        forall i, j | 0 <= i < j < |r| ensures !less(r[j], r[i]) {
          if i == 0 {
            assert r[j] == t[j - 1] && r[j] in t;
            assert j > 1 ==> !less(t[j - 1], t[0]);
          }
        }
      } else {
        assert forall y :: y in [x] + t[1..] ==> y in [x] + t;
        InsertSorts(x, t[1..], less);
        InsertPermutes(x, t[1..], less);
        var rest := Insert(x, t[1..], less);
        forall j | 0 <= j < |rest| ensures !less(rest[j], t[0]) {
          assert rest[j] in multiset(rest);
          if rest[j] != x {
            var k :| 0 <= k < |t[1..]| && t[1..][k] == rest[j];
          }
        }
      }
    }
  }

  lemma {:induction false} SortByOutcome<T>(s: seq<T>, less: (T, T) -> bool)
    ensures SortOutcome(s, SortBy(s, less), less)
  {
    if s != [] {
      var rest := SortBy(s[1..], less);
      SortByOutcome(s[1..], less);
      InsertPermutes(s[0], rest, less);
      assert s == [s[0]] + s[1..];
      if WeakOrderOn(s, less) {
        assert forall y :: y in s[1..] ==> y in s;
        TailMembers(s, rest);
        InsertSorts(s[0], rest, less);
      }
    }
  }

  lemma TailMembers<T>(s: seq<T>, rest: seq<T>)
    requires s != [] && multiset(s[1..]) == multiset(rest)
    ensures forall y :: y in [s[0]] + rest ==> y in s
  {
    SameMembers(s[1..], rest);
    forall y | y in [s[0]] + rest ensures y in s {
      if y != s[0] {
        assert y in rest;
        var k :| 0 <= k < |s[1..]| && s[1..][k] == y;
      }
    }
  }

  lemma SameMembers<T>(s: seq<T>, t: seq<T>)
    requires multiset(s) == multiset(t)
    ensures forall x :: x in s <==> x in t
    ensures |s| == |t|
  {
    forall x ensures x in s <==> x in t {
      assert x in s <==> x in multiset(s);
      assert x in t <==> x in multiset(t);
    }
    assert |multiset(s)| == |s| && |multiset(t)| == |t|;
  }

  lemma OnceEach<T>(s: seq<T>, k: nat)
    requires k < |s| && forall i, j :: 0 <= i < j < |s| ==> s[i] != s[j]
    ensures multiset(s)[s[k]] == 1
  {
    assert s == s[..k] + [s[k]] + s[k + 1..];
    assert s[k] !in s[..k] && s[k] !in s[k + 1..];
    assert multiset(s[..k])[s[k]] == 0 && multiset(s[k + 1..])[s[k]] == 0;
  }

  lemma TwiceOver<T>(t: seq<T>, i: nat, j: nat)
    requires i < j < |t| && t[i] == t[j]
    ensures multiset(t)[t[i]] >= 2
  {
    assert t == t[..i] + [t[i]] + t[i + 1..j] + [t[j]] + t[j + 1..];
  }

  /** Rearranging a sequence without repetitions does not create any. */
  lemma NoRepeats<T>(s: seq<T>, t: seq<T>, i: nat, j: nat)
    requires multiset(s) == multiset(t) && i < j < |t|
    requires forall k, l :: 0 <= k < l < |s| ==> s[k] != s[l]
    ensures t[i] != t[j]
  {
    if t[i] == t[j] {
      TwiceOver(t, i, j);
      SameMembers(s, t);
      assert t[i] in s;
      var k :| 0 <= k < |s| && s[k] == t[i];
      OnceEach(s, k);
    }
  }

  /** Sorting again is still an outcome of sorting the original. */
  lemma SortOutcomeTransitive<T>(s: seq<T>, t: seq<T>, u: seq<T>, less: (T, T) -> bool)
    requires SortOutcome(s, t, less) && SortOutcome(t, u, less)
    ensures SortOutcome(s, u, less)
  {
    SameMembers(s, t);
  }

  method SortSlice<T>(s: seq<T>, less: (T, T) -> bool) returns (t: seq<T>)
    ensures SortOutcome(s, t, less)
  {
    SortByOutcome(s, less);
    t := SortBy(s, less);
  }

  /** All elements but the one at k. */
  function Others<T>(s: seq<T>, k: nat): (r: seq<T>)
    requires k < |s|
    ensures |r| == |s| - 1 && forall i :: 0 <= i < |r| ==> r[i] == s[if i < k then i else i + 1]
  {
    s[..k] + s[k + 1..]
  }

  lemma TakeOut<T>(s: seq<T>, k: nat)
    requires k < |s|
    ensures multiset(s) == multiset{s[k]} + multiset(Others(s, k))
    ensures multiset(Others(s, k)) == multiset(s) - multiset{s[k]}
  {
    assert s == s[..k] + [s[k]] + s[k + 1..];
  }

  /** Taking the same element out of both keeps a permutation. */
  lemma SameRest<T>(s: seq<T>, t: seq<T>, k: nat, l: nat)
    requires multiset(s) == multiset(t) && k < |s| && l < |t| && s[k] == t[l]
    ensures multiset(Others(s, k)) == multiset(Others(t, l))
  {
    TakeOut(s, k);
    TakeOut(t, l);
  }

  lemma PutBack<T>(s: seq<T>, k: nat, rest: seq<T>)
    requires k < |s| && multiset(rest) == multiset(Others(s, k))
    ensures multiset([s[k]] + rest) == multiset(s)
  {
    TakeOut(s, k);
  }
}

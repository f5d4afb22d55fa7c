/** What it means to pick some elements of a sequence: those and no others, in their order. */
module Selections {

  /** The places before n that are kept. */
  function Chosen(keep: seq<bool>, n: nat): set<nat>
    requires n <= |keep|
  {
    set i: nat | i < n && keep[i]
  }

  /** The kept elements, each at the place that the number of kept ones before it says. */
  ghost predicate Selects<T>(out: seq<T>, from: seq<T>, keep: seq<bool>) {
    && |keep| == |from| && |out| == |Chosen(keep, |keep|)|
    && forall i :: 0 <= i < |from| && keep[i] ==> |Chosen(keep, i)| < |out| && out[|Chosen(keep, i)|] == from[i]
  }

  lemma KeptNext(keep: seq<bool>, n: nat)
    requires n < |keep|
    ensures |Chosen(keep, n + 1)| == |Chosen(keep, n)| + if keep[n] then 1 else 0
  {
    assert Chosen(keep, n + 1) == Chosen(keep, n) + if keep[n] then {n} else {};
  }

  lemma SelectsNothing<T>()
    ensures Selects<T>([], [], [])
  {
    assert Chosen([], 0) == {};
  }

  lemma SelectsSnoc<T>(out: seq<T>, from: seq<T>, keep: seq<bool>, x: T, kept: bool)
    requires Selects(out, from, keep)
    ensures Selects(out + if kept then [x] else [], from + [x], keep + [kept])
  {
    var more := keep + [kept];
    forall i | 0 <= i <= |from| ensures Chosen(more, i) == Chosen(keep, i) {
    }
    KeptNext(more, |from|);
    var r := out + if kept then [x] else [];
    forall i | 0 <= i < |from + [x]| && more[i]
      ensures |Chosen(more, i)| < |r| && r[|Chosen(more, i)|] == (from + [x])[i]
    {
      if i < |from| {
        assert more[i] == keep[i] && (from + [x])[i] == from[i];
      }
    }
  }

  lemma {:induction false} SelectsAppend<T>(a: seq<T>, s: seq<T>, k: seq<bool>, b: seq<T>, t: seq<T>, l: seq<bool>)
    requires Selects(a, s, k) && Selects(b, t, l)
    ensures Selects(a + b, s + t, k + l)
    decreases |t|
  {
    if t == [] {
      assert Chosen(l, 0) == {};
      assert a + b == a && s + t == s && k + l == k;
    } else {
      var n := |t| - 1;
      var b' := if l[n] then b[..|b| - 1] else b;
      Shorter(b, t, l);
      SelectsAppend(a, s, k, b', t[..n], l[..n]);
      var last := if l[n] then [t[n]] else [];
      assert a + b == a + b' + last && s + t == s + t[..n] + [t[n]] && k + l == k + l[..n] + [l[n]];
      hide Selects;
      SelectsSnoc(a + b', s + t[..n], k + l[..n], t[n], l[n]);
    }
  }

  lemma Shorter<T>(b: seq<T>, t: seq<T>, l: seq<bool>)
    requires Selects(b, t, l) && t != []
    ensures var n := |t| - 1;
            if l[n] then b != [] && b[|b| - 1] == t[n] && Selects(b[..|b| - 1], t[..n], l[..n])
            else Selects(b, t[..n], l[..n])
  {
    var n := |t| - 1;
    KeptNext(l, n);
    forall i | 0 <= i <= n ensures Chosen(l[..n], i) == Chosen(l, i) {
    }
    forall i | 0 <= i < n && l[i] ensures |Chosen(l, i)| < |Chosen(l, n)| {
      KeptGrows(l, i, n);
    }
  }

  lemma KeptGrows(l: seq<bool>, i: nat, n: nat)
    requires i < n <= |l| && l[i]
    ensures |Chosen(l, i)| < |Chosen(l, n)|
  {
    KeptNext(l, i);
    assert Chosen(l, i + 1) <= Chosen(l, n);
    assert |Chosen(l, n) - Chosen(l, i + 1)| == |Chosen(l, n)| - |Chosen(l, i + 1)|;
  }

  /** The place that was the j-th to be kept. */
  lemma {:induction false} ChosenAs(keep: seq<bool>, j: nat) returns (i: nat)
    requires j < |Chosen(keep, |keep|)|
    ensures i < |keep| && keep[i] && |Chosen(keep, i)| == j
    decreases |keep|
  {
    if keep == [] {
      assert Chosen(keep, 0) == {};
    }
    var n := |keep| - 1;
    KeptNext(keep, n);
    if keep[n] && |Chosen(keep, n)| == j {
      i := n;
    } else {
      forall k | 0 <= k <= n ensures Chosen(keep[..n], k) == Chosen(keep, k) {
      }
      i := ChosenAs(keep[..n], j);
    }
  }

  /** A selection is determined by what is kept. */
  lemma SelectsOne<T>(a: seq<T>, b: seq<T>, from: seq<T>, keep: seq<bool>)
    requires Selects(a, from, keep) && Selects(b, from, keep)
    ensures a == b
  {
    forall j | 0 <= j < |a| ensures a[j] == b[j] {
      var i := ChosenAs(keep, j);
      assert a[j] == from[i] == b[j];
    }
  }

  lemma SelectsOneOf<T>(x: T, kept: bool)
    ensures Selects(if kept then [x] else [], [x], [kept])
  {
    SelectsNothing<T>();
    SelectsSnoc<T>([], [], [], x, kept);
    assert [] + (if kept then [x] else []) == if kept then [x] else [];
    assert [] + [x] == [x] && [] + [kept] == [kept];
  }

  lemma SelectsAll<T>(out: seq<T>, from: seq<T>, keep: seq<bool>)
    requires Selects(out, from, keep) && forall i :: 0 <= i < |keep| ==> keep[i]
    ensures out == from
  {
    AllChosen(keep, |keep|);
    forall i | 0 <= i < |from| ensures i < |out| && out[i] == from[i] {
      AllChosen(keep, i);
    }
  }

  lemma {:induction false} AllChosen(keep: seq<bool>, n: nat)
    requires n <= |keep| && forall i :: 0 <= i < |keep| ==> keep[i]
    ensures |Chosen(keep, n)| == n
  {
    if n == 0 {
      assert Chosen(keep, 0) == {};
    } else {
      AllChosen(keep, n - 1);
      KeptNext(keep, n - 1);
    }
  }

  lemma SelectsCons<T>(x: T, kept: bool, b: seq<T>, t: seq<T>, l: seq<bool>)
    requires Selects(b, t, l)
    ensures Selects((if kept then [x] else []) + b, [x] + t, [kept] + l)
  {
    hide Selects;
    SelectsOneOf(x, kept);
    SelectsAppend(if kept then [x] else [], [x], [kept], b, t, l);
  }
}

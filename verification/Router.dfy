/** Weighted routing: cumulative weights in wrapping 64-bit arithmetic, and how often each route is drawn. */
module Router {
  import opened Words
  import opened Wrappers
  import opened Selections

  datatype Item = Item(weight: Int64, exporters: seq<string>)

  datatype Error = NoTableItems | InvalidWeight(weight: Int64) | NoExporters | ZeroTableWeight

  /** Signed addition that wraps around. */
  function Wrap(n: int): Int64 {
    (n + HALF) % WORD - HALF
  }

  function Weight(table: seq<Item>): int {
    if table == [] then 0 else Weight(table[..|table| - 1]) + table[|table| - 1].weight
  }

  lemma WrapSmall(n: int)
    requires -HALF <= n < HALF
    ensures Wrap(n) == n
  {
  }

  lemma WrapIsCongruent(n: int) returns (k: int)
    ensures Wrap(n) == n - k * WORD
  {
    k := (n + HALF) / WORD;
  }

  lemma WrapUnique(n: int, m: int, k: int)
    requires n == m + k * WORD && -HALF <= n < HALF && -HALF <= m < HALF
    ensures n == m
  {
  }

  /** Wrapping at every addition is wrapping once at the end. */
  lemma WrapAdds(a: int, b: int)
    ensures Wrap(Wrap(a) + b) == Wrap(a + b)
  {
    var j := WrapIsCongruent(a);
    var k := WrapIsCongruent(Wrap(a) + b);
    var l := WrapIsCongruent(a + b);
    assert Wrap(Wrap(a) + b) == Wrap(a + b) + (l - j - k) * WORD;
    WrapUnique(Wrap(Wrap(a) + b), Wrap(a + b), l - j - k);
  }

  predicate Sane(item: Item) {
    item.weight >= 0 && item.exporters != []
  }

  /** Tables that Validate accepts. */
  predicate Accepted(table: seq<Item>) {
    table != [] && (forall i :: 0 <= i < |table| ==> Sane(table[i])) && Wrap(Weight(table)) != 0
  }

  /** The first item that Validate objects to. */
  predicate FailsAt(table: seq<Item>, i: nat) {
    i < |table| && !Sane(table[i]) && forall k :: 0 <= k < i ==> Sane(table[k])
  }

  /** Reports the first item at fault, a bad weight before missing exporters, or a total of zero. */
  method Validate(table: seq<Item>) returns (r: Result<(), Error>)
    ensures r.Ok? <==> Accepted(table)
    ensures r == Err(NoTableItems) <==> table == []
    ensures r == Err(ZeroTableWeight) <==>
              table != [] && (forall i :: 0 <= i < |table| ==> Sane(table[i])) && Wrap(Weight(table)) == 0
    ensures r.Err? && r.error.InvalidWeight? ==>
              exists i: nat :: FailsAt(table, i) && table[i].weight < 0 && r.error.weight == table[i].weight
    ensures r == Err(NoExporters) ==> exists i: nat :: FailsAt(table, i) && table[i].weight >= 0
  {
    if table == [] {
      return Err(NoTableItems);
    }
    var total := 0;
    for i := 0 to |table|
      invariant forall k :: 0 <= k < i ==> Sane(table[k])
      invariant total == Wrap(Weight(table[..i]))
    {
      assert !Sane(table[i]) ==> FailsAt(table, i);
      if table[i].weight < 0 {
        return Err(InvalidWeight(table[i].weight));
      }
      if table[i].exporters == [] {
        return Err(NoExporters);
      }
      WrapAdds(Weight(table[..i]), table[i].weight);
      assert table[..i + 1][..i] == table[..i];
      total := Wrap(total + table[i].weight);
    }
    assert table[..|table|] == table;
    if total == 0 {
      return Err(ZeroTableWeight);
    }
    r := Ok(());
  }

  // ---------------------------------------------------------------- Registration

  datatype Route = Route(exporters: seq<string>, cumWeight: Int64)

  /** What looking an exporter up may give; a name that is not there is skipped. */
  datatype Lookup = Usable | Unusable

  predicate AllLoad(names: seq<string>, available: map<string, Lookup>) {
    forall n :: n in names && n in available ==> available[n].Usable?
  }

  predicate TableLoads(table: seq<Item>, available: map<string, Lookup>) {
    forall i :: 0 <= i < |table| ==> AllLoad(table[i].exporters, available)
  }

  function Present(names: seq<string>, available: map<string, Lookup>): seq<string> {
    if names == [] then []
    else
      var last := names[|names| - 1];
      Present(names[..|names| - 1], available) + (if last in available then [last] else [])
  }

  /** Which names are there. */
  function AreThere(names: seq<string>, available: map<string, Lookup>): seq<bool> {
    seq(|names|, j requires 0 <= j < |names| => names[j] in available)
  }

  /** The names that are there, in order, each as often as it is named. */
  lemma {:induction false} PresentSelects(names: seq<string>, available: map<string, Lookup>)
    ensures Selects(Present(names, available), names, AreThere(names, available))
    decreases |names|
  {
    hide Selects;
    if names == [] {
      SelectsNothing<string>();
      assert AreThere(names, available) == [];
    } else {
      var init, last := names[..|names| - 1], names[|names| - 1];
      PresentSelects(init, available);
      SelectsSnoc(Present(init, available), init, AreThere(init, available), last, last in available);
      assert names == init + [last] && AreThere(names, available) == AreThere(init, available) + [last in available];
    }
  }

  function RouteFor(table: seq<Item>, available: map<string, Lookup>, i: nat): Route
    requires i < |table|
  {
    Route(Present(table[i].exporters, available), Wrap(Weight(table[..i + 1])))
  }

  /** The exporters that are there, or None at the first that cannot be used. */
  method ExtractExporters(names: seq<string>, available: map<string, Lookup>) returns (r: Option<seq<string>>)
    ensures r == if AllLoad(names, available) then Some(Present(names, available)) else None
    ensures r.Some? ==> Selects(r.value, names, AreThere(names, available))
  {
    PresentSelects(names, available);
    hide Selects;
    var exporters := [];
    for j := 0 to |names|
      invariant exporters == Present(names[..j], available)
      invariant forall n :: n in names[..j] && n in available ==> available[n].Usable?
    {
      assert names[..j + 1] == names[..j] + [names[j]];
      assert names[..j + 1][..j] == names[..j];
      assert names[j] in names;
      if names[j] in available {
        if available[names[j]].Unusable? {
          return None;
        }
        exporters := exporters + [names[j]];
      }
    }
    assert names[..|names|] == names;
    r := Some(exporters);
  }

  class Router {
    const table: seq<Item>
    var routes: seq<Route>

    constructor (table: seq<Item>)
      ensures this.table == table && routes == seq(|table|, _ => Route([], 0))
    {
      this.table := table;
      routes := seq(|table|, _ => Route([], 0));
    }

    /** Fills in the routes, or stops at the first exporter that is there but cannot be used. */
    method RegisterExporters(available: map<string, Lookup>) returns (ok: bool)
      requires routes == seq(|table|, _ => Route([], 0))
      modifies this
      ensures ok <==> TableLoads(table, available)
      ensures ok ==> |routes| == |table| && forall i :: 0 <= i < |table| ==> routes[i] == RouteFor(table, available, i)
      ensures ok ==> forall i :: 0 <= i < |table| ==>
                Selects(routes[i].exporters, table[i].exporters, AreThere(table[i].exporters, available))
    {
      hide AllLoad, Present, Wrap, Selects;
      var total := 0;
      assert Wrap(Weight(table[..0])) == 0 by {
        WrapSmall(0);
      }
      for i := 0 to |table|
        invariant |routes| == |table| && total == Wrap(Weight(table[..i]))
        invariant forall k :: 0 <= k < i ==>
            && routes[k] == RouteFor(table, available, k) && AllLoad(table[k].exporters, available)
            && Selects(routes[k].exporters, table[k].exporters, AreThere(table[k].exporters, available))
        invariant forall k :: i <= k < |table| ==> routes[k] == Route([], 0)
      {
        WrapAdds(Weight(table[..i]), table[i].weight);
        assert table[..i + 1][..i] == table[..i];
        total := Wrap(total + table[i].weight);
        var exporters := ExtractExporters(table[i].exporters, available);
        if exporters.None? {
          return false;
        }
        routes := routes[i := Route(exporters.value, total)];
      }
      ok := true;
    }

    /** The index of the route drawn; None where the original panics, because there is nothing to
        draw from. The draw lies in the range that the random source promises. */
    method PickRoute(draw: Int64) returns (picked: Option<nat>)
      requires routes != [] && routes[|routes| - 1].cumWeight > 0 ==> 0 <= draw < routes[|routes| - 1].cumWeight
      ensures picked.None? <==> routes == [] || routes[|routes| - 1].cumWeight <= 0
      ensures picked.Some? ==> picked.value == Pick(Totals(routes), draw)
    {
      var n := |routes|;
      if n == 0 || routes[n - 1].cumWeight <= 0 {
        return None;
      }
      for i := 0 to n - 1
        invariant forall k :: 0 <= k < i ==> routes[k].cumWeight <= draw
      {
        if routes[i].cumWeight > draw {
          PickIsFirst(Totals(routes), draw, i);
          return Some(i);
        }
      }
      PickIsFirst(Totals(routes), draw, n - 1);
      picked := Some(n - 1);
    }
  }

  // ---------------------------------------------------------------- Drawing

  function Totals(routes: seq<Route>): seq<Int64> {
    seq(|routes|, i requires 0 <= i < |routes| => routes[i].cumWeight)
  }

  /** The first total above x, else the last route. */
  function Pick(totals: seq<Int64>, x: int): (i: nat)
    requires totals != []
    ensures i < |totals|
  {
    if |totals| == 1 || totals[0] > x then 0 else 1 + Pick(totals[1..], x)
  }

  lemma {:induction false} PickIsFirst(totals: seq<Int64>, x: int, i: nat)
    requires i < |totals| && (i == |totals| - 1 || totals[i] > x)
    requires forall k :: 0 <= k < i ==> totals[k] <= x
    ensures Pick(totals, x) == i
  {
    if i > 0 {
      PickIsFirst(totals[1..], x, i - 1);
    }
  }

  /** How many of the draws 0, ..., n - 1 pick route i. */
  function Draws(totals: seq<Int64>, n: nat, i: nat): nat
    requires totals != []
  {
    if n == 0 then 0 else Draws(totals, n - 1, i) + (if Pick(totals, n - 1) == i then 1 else 0)
  }

  function CumulativeWeights(table: seq<Item>): (totals: seq<Int64>)
    ensures |totals| == |table|
  {
    seq(|table|, i requires 0 <= i < |table| => Wrap(Weight(table[..i + 1])))
  }

  /** The weight of the routes before number i. */
  function Before(table: seq<Item>, i: nat): int
    requires i <= |table|
  {
    Weight(table[..i])
  }

  predicate NonNegative(table: seq<Item>) {
    forall k :: 0 <= k < |table| ==> table[k].weight >= 0
  }

  lemma BeforeNext(table: seq<Item>, i: nat)
    requires i < |table|
    ensures Before(table, i + 1) == Before(table, i) + table[i].weight
  {
    assert table[..i + 1][..i] == table[..i];
  }

  lemma BeforeAll(table: seq<Item>)
    ensures Before(table, 0) == 0 && Before(table, |table|) == Weight(table)
  {
    assert table[..|table|] == table;
  }

  lemma {:induction false} BeforeGrows(table: seq<Item>, i: nat, j: nat)
    requires i <= j <= |table| && NonNegative(table)
    ensures 0 <= Before(table, i) <= Before(table, j)
    decreases j
  {
    if j == 0 {
      BeforeAll(table);
    } else {
      BeforeNext(table, j - 1);
      BeforeGrows(table, if i < j then i else i - 1, j - 1);
    }
  }

  /** With an honest total, route i owns the draws from the total before it up to its own. */
  lemma PickIff(table: seq<Item>, x: nat, i: nat)
    requires i < |table| && NonNegative(table) && x < Weight(table) < HALF
    ensures Pick(CumulativeWeights(table), x) == i <==> Before(table, i) <= x < Before(table, i + 1)
  {
    var totals := CumulativeWeights(table);
    BeforeAll(table);
    forall k | 0 <= k < |table| ensures totals[k] == Before(table, k + 1) {
      BeforeGrows(table, k + 1, |table|);
      WrapSmall(Before(table, k + 1));
    }
    var p := Pick(totals, x);
    PickBounds(totals, x);
    hide Pick, Before, Wrap, Weight;
    if p < i {
      BeforeGrows(table, p + 1, i);
    } else if i < p {
      BeforeGrows(table, i + 1, p);
    }
  }

  lemma {:induction false} PickBounds(totals: seq<Int64>, x: int)
    requires totals != []
    ensures var p := Pick(totals, x); (p > 0 ==> totals[p - 1] <= x) && (p < |totals| - 1 ==> totals[p] > x)
  {
    if |totals| > 1 && totals[0] <= x {
      PickBounds(totals[1..], x);
    }
  }

  function Min(a: int, b: int): int {
    if a < b then a else b
  }

  function Max(a: int, b: int): int {
    if a < b then b else a
  }

  lemma {:induction false} DrawsIn(table: seq<Item>, n: nat, i: nat)
    requires i < |table| && NonNegative(table) && n <= Weight(table) < HALF
    ensures Draws(CumulativeWeights(table), n, i) == Max(0, Min(n, Before(table, i + 1)) - Before(table, i))
    decreases n
  {
    BeforeGrows(table, i, i + 1);
    if n > 0 {
      DrawsIn(table, n - 1, i);
      PickIff(table, n - 1, i);
    }
    hide Before, Weight, Pick, CumulativeWeights;
  }

  /** Each draw picks some route. */
  function DrawsUpTo(totals: seq<Int64>, n: nat, m: nat): nat
    requires totals != []
  {
    if m == 0 then 0 else DrawsUpTo(totals, n, m - 1) + Draws(totals, n, m - 1)
  }

  lemma {:induction false} DrawsAddUp(totals: seq<Int64>, n: nat)
    requires totals != []
    ensures DrawsUpTo(totals, n, |totals|) == n
  {
    if n == 0 {
      NoDraws(totals, |totals|);
    } else {
      DrawsAddUp(totals, n - 1);
      OneMoreDraw(totals, n, |totals|);
    }
  }

  lemma {:induction false} NoDraws(totals: seq<Int64>, m: nat)
    requires totals != []
    ensures DrawsUpTo(totals, 0, m) == 0
  {
    if m > 0 {
      NoDraws(totals, m - 1);
    }
  }

  lemma {:induction false} OneMoreDraw(totals: seq<Int64>, n: nat, m: nat)
    requires totals != [] && n > 0
    ensures DrawsUpTo(totals, n, m) == DrawsUpTo(totals, n - 1, m) + (if Pick(totals, n - 1) < m then 1 else 0)
  {
    if m > 0 {
      OneMoreDraw(totals, n, m - 1);
    }
  }

  lemma {:induction false} DrawsMatchWeights(table: seq<Item>, totals: seq<Int64>, n: nat, m: nat)
    requires totals != [] && m <= |table|
    requires forall i :: 0 <= i < |table| ==> Draws(totals, n, i) == table[i].weight
    ensures DrawsUpTo(totals, n, m) == Weight(table[..m])
  {
    if m > 0 {
      DrawsMatchWeights(table, totals, n, m - 1);
      assert table[..m][..m - 1] == table[..m - 1];
    }
  }

  /** Every draw is possible and every route is drawn as often as its weight says. */
  ghost predicate Fair(table: seq<Item>)
    requires table != []
  {
    var total := Wrap(Weight(table));
    total > 0 && forall i :: 0 <= i < |table| ==> Draws(CumulativeWeights(table), total, i) == table[i].weight
  }

  lemma SmallIsFair(table: seq<Item>)
    requires Accepted(table) && Weight(table) < HALF
    ensures Fair(table)
  {
    var totals, total := CumulativeWeights(table), Wrap(Weight(table));
    assert forall k :: 0 <= k < |table| ==> Sane(table[k]);
    assert NonNegative(table);
    BeforeAll(table);
    BeforeGrows(table, 0, |table|);
    WrapSmall(Weight(table));
    hide Wrap, Draws, CumulativeWeights, Weight, Before, Accepted, NonNegative;
    forall i | 0 <= i < |table| ensures Draws(totals, total, i) == table[i].weight {
      RouteShare(table, i);
    }
  }

  lemma RouteShare(table: seq<Item>, i: nat)
    requires NonNegative(table) && i < |table| && 0 <= Weight(table) < HALF
    ensures Draws(CumulativeWeights(table), Weight(table), i) == table[i].weight
  {
    DrawsIn(table, Weight(table), i);
    BeforeAll(table);
    BeforeGrows(table, i, i + 1);
    BeforeGrows(table, i + 1, |table|);
    BeforeNext(table, i);
    hide Draws, CumulativeWeights, Weight, Before;
  }

  lemma FairIsSmall(table: seq<Item>)
    requires table != [] && Fair(table)
    ensures Weight(table) < HALF
  {
    var totals, total := CumulativeWeights(table), Wrap(Weight(table));
    hide Wrap, Draws, DrawsUpTo, Weight;
    DrawsAddUp(totals, total);
    DrawsMatchWeights(table, totals, total, |table|);
    assert table[..|table|] == table;
  }

  /** An accepted table routes by weight exactly when its weights really add up within the integer range. */
  lemma FairIff(table: seq<Item>)
    requires Accepted(table)
    ensures Fair(table) <==> Weight(table) < HALF
  {
    if Weight(table) < HALF {
      SmallIsFair(table);
    }
    if Fair(table) {
      FairIsSmall(table);
    }
  }

  /** A route of weight zero is never drawn, wherever it stands in the table. */
  lemma ZeroWeightNeverPicked(table: seq<Item>, x: nat)
    requires Accepted(table) && x < Weight(table) < HALF
    ensures table[Pick(CumulativeWeights(table), x)].weight > 0
  {
    var i := Pick(CumulativeWeights(table), x);
    assert forall k :: 0 <= k < |table| ==> Sane(table[k]);
    PickIff(table, x, i);
    BeforeNext(table, i);
  }

  /** The totals the router registers are the cumulative weights these results are about. */
  lemma RegisteredTotals(table: seq<Item>, available: map<string, Lookup>, routes: seq<Route>)
    requires |routes| == |table| && forall i :: 0 <= i < |table| ==> routes[i] == RouteFor(table, available, i)
    ensures Totals(routes) == CumulativeWeights(table)
  {
  }
}

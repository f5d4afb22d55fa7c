/** Dictionary columns: the index starts narrow, is widened when it is full, and is given up at last. */
module Dictionaries {

  /** The most values that an 8, 16, 32 and 64-bit index may have. */
  const INDEX_LIMITS: seq<nat> := [0xFF, 0xFFFF, 0xFFFF_FFFF, 0xFFFF_FFFF_FFFF_FFFF]

  function FindIndex(card: nat): (i: nat)
    ensures i < |INDEX_LIMITS|
  {
    if card <= 0xFF then 0 else if card <= 0xFFFF then 1 else if card <= 0xFFFF_FFFF then 2 else 3
  }

  /** The index at position `at` of these limits is in use; no limits mean that there is no dictionary. */
  datatype Dict = Dict(limits: seq<nat>, at: nat) {
    predicate Valid() {
      if limits == [] then at == 0 else at < |limits|
    }

    /** A column with this many different values needs no other index. */
    predicate Holds(card: nat)
      requires Valid()
    {
      limits == [] || card <= limits[at]
    }
  }

  const GIVEN_UP := Dict([], 0)

  /** The first index from position `at` on that this many values fit. */
  function FirstFitting(limits: seq<nat>, at: nat, card: nat): Dict
    requires at <= |limits|
    decreases |limits| - at
  {
    if at == |limits| then GIVEN_UP
    else if card > limits[at] then FirstFitting(limits, at + 1, card)
    else Dict(limits, at)
  }

  function Raise(d: Dict, card: nat): Dict
    requires d.Valid()
  {
    if d.limits == [] then d else FirstFitting(d.limits, d.at, card)
  }

  lemma {:induction false} FirstFittingMeaning(limits: seq<nat>, at: nat, card: nat)
    requires at <= |limits|
    ensures var e := FirstFitting(limits, at, card);
      && e.Valid() && e.Holds(card)
      && (e == GIVEN_UP <==> forall i :: at <= i < |limits| ==> limits[i] < card)
      && (e != GIVEN_UP ==> e.limits == limits && at <= e.at && forall i :: at <= i < e.at ==> limits[i] < card)
    decreases |limits| - at
  {
    if at < |limits| && card > limits[at] {
      FirstFittingMeaning(limits, at + 1, card);
    }
  }

  /** Raising moves to the first index, from the one in use on, that the values fit, and gives the
      dictionary up exactly when none does. */
  lemma RaiseMeaning(d: Dict, card: nat)
    requires d.Valid()
    ensures var e := Raise(d, card);
      && e.Valid() && e.Holds(card)
      && (e == d <==> d.Holds(card))
      && (d != GIVEN_UP ==> (e == GIVEN_UP <==> forall i :: d.at <= i < |d.limits| ==> d.limits[i] < card))
      && (e != GIVEN_UP ==> e.limits == d.limits && d.at <= e.at && forall i :: d.at <= i < e.at ==> d.limits[i] < card)
  {
    if d.limits != [] {
      FirstFittingMeaning(d.limits, d.at, card);
    }
  }

  /** Once raised for some number of values, a dictionary is not full for as many or fewer. */
  lemma RaisedHolds(d: Dict, card: nat, fewer: nat)
    requires d.Valid() && fewer <= card
    ensures Raise(d, card).Valid() && Raise(Raise(d, card), fewer) == Raise(d, card)
  {
    RaiseMeaning(d, card);
    RaiseMeaning(Raise(d, card), fewer);
  }

  /** The dictionary of a field marked with this smallest cardinality, under a configured largest one. */
  function NewDict(minCard: nat, maxCard: nat): (d: Dict)
    ensures d.Valid()
  {
    var smallest := if maxCard < minCard then maxCard else minCard;
    if maxCard == 0 then GIVEN_UP else Dict(INDEX_LIMITS[FindIndex(smallest)..FindIndex(maxCard) + 1], 0)
  }

  /** The limit of the narrowest index that holds this many values, or of the widest. */
  function LimitFor(card: nat): nat {
    if card <= 255 then 255
    else if card <= 65535 then 65535
    else if card <= 4294967295 then 4294967295
    else 18446744073709551615
  }

  /** A new dictionary starts at the narrowest index for its mark or, if that is less, for the configured
      limit; it may widen up to the index for the configured limit; and a limit of zero means none. */
  lemma NewDictMeaning(minCard: nat, maxCard: nat)
    ensures var d := NewDict(minCard, maxCard);
      && d.at == 0
      && (d.limits == [] <==> maxCard == 0)
      && (maxCard > 0 ==>
            && d.limits[0] == LimitFor(if maxCard < minCard then maxCard else minCard)
            && d.limits[|d.limits| - 1] == LimitFor(maxCard)
            && (forall i :: 0 < i < |d.limits| ==> d.limits[i] == LimitFor(d.limits[i - 1] + 1)))
  {
  }

  class DictionaryField {
    var limits: seq<nat>
    var currentIndex: nat

    function State(): Dict
      reads this
    {
      Dict(limits, currentIndex)
    }

    constructor (minCard: nat, maxCard: nat)
      ensures State() == NewDict(minCard, maxCard)
    {
      var d := NewDict(minCard, maxCard);
      limits, currentIndex := d.limits, d.at;
    }

    /** True if the schema has to be updated. */
    method SetCardinality(card: nat) returns (changed: bool)
      requires State().Valid()
      modifies this
      ensures State() == Raise(old(State()), card) && State().Valid()
      ensures changed <==> State() != old(State())
    {
      RaiseMeaning(State(), card);
      if limits == [] {
        return false;
      }
      var before := currentIndex;
      while currentIndex < |limits| && card > limits[currentIndex]
        invariant limits == old(limits) && before == old(currentIndex) <= currentIndex <= |limits|
        invariant FirstFitting(limits, currentIndex, card) == FirstFitting(limits, before, card)
      {
        currentIndex := currentIndex + 1;
      }
      if currentIndex >= |limits| {
        limits, currentIndex := [], 0;
        return true;
      }
      changed := currentIndex != before;
    }
  }
}

/**
 * Factor pruning: which factors removeInactiveFactors may shut down, given the
 * variance explained (R²) of every factor in every group and view.
 */
module Pruning {
  import opened Wrappers

  /** R² indexed by group, view and factor: r2[g][m][k]. */
  type R2 = seq<seq<seq<real>>>

  /** Every (group, view) row of r2 has one entry per factor, K in all. */
  predicate HasFactors(r2: R2, k: nat)
  {
    forall g, m :: 0 <= g < |r2| && 0 <= m < |r2[g]| ==> |r2[g][m]| == k
  }

  /** An R² source is shaped when, asked with K factors, every row it gives has K entries. */
  ghost predicate R2Shaped(r2At: (nat, nat) -> R2)
  {
    forall i: nat, kk: nat :: HasFactors(r2At(i, kk), kk)
  }

  /** No view of any group explains more than minR2 of the variance through factor f. */
  predicate FactorInactive(r2: R2, minR2: real, f: nat)
  {
    forall g, m :: 0 <= g < |r2| && 0 <= m < |r2[g]| && f < |r2[g][m]| ==> r2[g][m][f] <= minR2
  }

  /** No view of one group explains more than minR2 of the variance through factor f. */
  predicate InactiveInViews(views: seq<seq<real>>, minR2: real, f: nat)
  {
    forall m :: 0 <= m < |views| && f < |views[m]| ==> views[m][f] <= minR2
  }

  /** The factors of one group that no view explains above minR2: np.where((r2[g] > min_r2).sum(axis=0) == 0)[0]. */
  function InactiveInGroup(views: seq<seq<real>>, minR2: real, k: nat): (r: set<nat>)
    ensures forall f: nat :: f in r <==> f < k && InactiveInViews(views, minR2, f)
  {
    set f: nat | f < k && InactiveInViews(views, minR2, f)
  }

  /** set.intersection of the groups' inactive sets; Python needs at least one group. */
  function InactiveInAllGroups(r2: R2, minR2: real, k: nat): (r: set<nat>)
    requires |r2| >= 1 && HasFactors(r2, k)
    ensures forall f: nat :: f in r <==> f < k && FactorInactive(r2, minR2, f)
  {
    var last := InactiveInGroup(r2[|r2| - 1], minR2, k);
    if |r2| == 1 then last
    else
      var front := InactiveInAllGroups(r2[..|r2| - 1], minR2, k);
      assert forall f: nat :: f < k ==> (FactorInactive(r2, minR2, f) <==>
        FactorInactive(r2[..|r2| - 1], minR2, f) && InactiveInViews(r2[|r2| - 1], minR2, f));
      front * last
  }

  /** Why a call to removeInactiveFactors raises instead of returning. */
  datatype Fault = NothingToConcatenate | NoGroupToIntersect

  /**
   * The drop lists removeInactiveFactors may compute, as written: drop_dic gains an
   * entry only when min_r2 is given, and np.concatenate of no lists raises.
   */
  function DropCandidatesAsWritten(minR2: Option<real>, r2: R2, k: nat): (r: Result<set<seq<nat>>, Fault>)
    requires HasFactors(r2, k)
    ensures r.Ok? ==> r.value != {}
  {
    match minR2
    case None => Err(NothingToConcatenate)
    case Some(threshold) =>
      if |r2| == 0 then Err(NoGroupToIntersect)
      else
        var eligible := InactiveInAllGroups(r2, threshold, k);
        if eligible == {} then Ok({[]})
        else
          var singletons := set f | f in eligible :: [f];
          assert exists f :: f in eligible && [f] in singletons;
          Ok(singletons)
  }

  /** Calling removeInactiveFactors without a threshold raises, although its default argument is None. */
  lemma NoThresholdRaisesAsWritten(r2: R2, k: nat)
    requires HasFactors(r2, k)
    ensures DropCandidatesAsWritten(None, r2, k) == Err(NothingToConcatenate)
  {
  }

  /** The drop lists removeInactiveFactors may compute, where no threshold drops nothing. */
  function DropCandidates(minR2: Option<real>, r2: R2, k: nat): (r: Result<set<seq<nat>>, Fault>)
    requires HasFactors(r2, k)
    ensures minR2.None? ==> r == Ok({[]})
    ensures r.Err? <==> minR2.Some? && |r2| == 0
    ensures r.Ok? ==> r.value != {}
  {
    match minR2
    case None => Ok({[]})
    case Some(_) => DropCandidatesAsWritten(minR2, r2, k)
  }

  /**
   * Every possible drop list is empty or a single factor that no view of any group
   * explains above min_r2, and it is empty only when no factor qualifies.
   */
  lemma DropListIsAtMostOneInactiveFactor(minR2: real, r2: R2, k: nat, drop: seq<nat>)
    requires HasFactors(r2, k) && |r2| >= 1
    requires drop in DropCandidates(Some(minR2), r2, k).value
    ensures drop == [] || (|drop| == 1 && drop[0] < k && FactorInactive(r2, minR2, drop[0]))
    ensures drop == [] <==> forall f: nat :: f < k ==> !FactorInactive(r2, minR2, f)
  {
    var eligible := InactiveInAllGroups(r2, minR2, k);
    if eligible != {} {
      var f :| f in eligible;
      assert [f] in DropCandidates(Some(minR2), r2, k).value;
    }
  }

  /** Any factor that qualifies can be the one dropped. */
  lemma EveryInactiveFactorCanBeDropped(minR2: real, r2: R2, k: nat, f: nat)
    requires HasFactors(r2, k) && |r2| >= 1
    requires f < k && FactorInactive(r2, minR2, f)
    ensures [f] in DropCandidates(Some(minR2), r2, k).value
  {
    assert f in InactiveInAllGroups(r2, minR2, k);
  }
}

/** The ELBO ledger: one record per evaluated iteration, a value per node plus their total. */
module Ledger {
  import opened Seqs

  /** One row of the ELBO table: the per-node contributions, in node order, and the "total" column. */
  datatype ElboEntry = ElboEntry(terms: seq<real>, total: real)

  /** The contributions the nodes `names` report at iteration i, in order. */
  function TermsAt(elboAt: (nat, string) -> real, names: seq<string>, i: nat): (r: seq<real>)
    ensures |r| == |names| && forall k :: 0 <= k < |names| ==> r[k] == elboAt(i, names[k])
  {
    seq(|names|, k requires 0 <= k < |names| => elboAt(i, names[k]))
  }

  /** The record of iteration i: the contributions and their sum. */
  function EntryAt(elboAt: (nat, string) -> real, names: seq<string>, i: nat): ElboEntry
  {
    ElboEntry(TermsAt(elboAt, names, i), Sum(TermsAt(elboAt, names, i)))
  }

  function TotalAt(elboAt: (nat, string) -> real, names: seq<string>, i: nat): real
  {
    EntryAt(elboAt, names, i).total
  }
}

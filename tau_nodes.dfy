/**
 * TauD_Node: the Gamma posterior Q(τ) = Gamma(a, b) of the per-feature noise
 * precision τ_d, with prior P = Gamma(Pa, Pb). Y (N samples by D features, its
 * missing cells masked), Z (N by K) and W (D by K) and their second moments
 * are the expectations of the neighbouring nodes, given as inputs; log and
 * gammaln are uninterpreted functions.
 */
module TauNodes {
  import opened Wrappers
  import opened Seqs
  import opened Matrices

  /** A Gamma distribution's shapes a and rates b, one of each per feature. */
  datatype GammaParams = GammaParams(a: seq<real>, b: seq<real>)

  /** A Gamma distribution's cached expectations E[τ] and E[ln τ], one of each per feature. */
  datatype GammaMoments = GammaMoments(e: seq<real>, lnE: seq<real>)

  /** An array the node hands out: one value per feature, or one row of them per sample. */
  datatype Array = Vector(v: seq<real>) | Rows(m: seq<seq<real>>)

  /** The 'E' and 'lnE' entries getExpectations returns. */
  datatype TauExpectations = TauExpectations(e: Array, lnE: Array)

  /** What precompute stores: N, lbconst and Qa_pre. */
  datatype Precomputed = Precomputed(n: nat, lbconst: real, qaPre: seq<real>)

  /** mask.sum(axis=0)[j]: the number of masked (missing) cells in column j. */
  function MaskedCount(mask: seq<seq<bool>>, cols: nat, j: nat): (c: nat)
    requires IsMatrix(mask, |mask|, cols) && j < cols
    ensures c <= |mask|
    ensures c == 0 <==> forall n :: 0 <= n < |mask| ==> !mask[n][j]
    ensures c == |mask| <==> forall n :: 0 <= n < |mask| ==> mask[n][j]
  {
    if |mask| == 0 then 0
    else
      var front := mask[..|mask| - 1];
      MaskedCount(front, cols, j) + if mask[|mask| - 1][j] then 1 else 0
  }

  /**
   * Qa_pre = Pa + (rows of Y − masked cells per column)/2: between Pa and
   * Pa + N/2, at the top exactly when column j has no missing cell and at the
   * bottom exactly when all of it is missing.
   */
  function ShapePre(pa: seq<real>, mask: seq<seq<bool>>): (r: seq<real>)
    requires IsMatrix(mask, |mask|, |pa|)
    ensures |r| == |pa|
    ensures forall j :: 0 <= j < |pa| ==> pa[j] <= r[j] <= pa[j] + |mask| as real / 2.0
    ensures forall j :: 0 <= j < |pa| ==>
      (r[j] == pa[j] + |mask| as real / 2.0 <==> forall n :: 0 <= n < |mask| ==> !mask[n][j])
    ensures forall j :: 0 <= j < |pa| ==> (r[j] == pa[j] <==> forall n :: 0 <= n < |mask| ==> mask[n][j])
  {
    seq(|pa|, j requires 0 <= j < |pa| => pa[j] + (|mask| as real - MaskedCount(mask, |pa|, j) as real) / 2.0)
  }

  /** lbconst = Σ_d (Pa_d·log Pb_d − lnΓ(Pa_d)), the normalising part of the prior's log density. */
  function LbConst(p: GammaParams, log: real -> real, gammaln: real -> real): real
    requires |p.a| == |p.b|
  {
    Sum(Minus(Times(p.a, Apply(log, p.b)), Apply(gammaln, p.a)))
  }

  /** The inputs of the rate update agree in shape: Y, its mask and the three products are N by cols. */
  predicate UpdateShapes(y: seq<seq<real>>, mask: seq<seq<bool>>, zw: seq<seq<real>>, zzww: seq<seq<real>>,
                         z2w2: seq<seq<real>>, cols: nat)
  {
    && IsMatrix(y, |y|, cols) && IsMatrix(mask, |y|, cols) && IsMatrix(zw, |y|, cols)
    && IsMatrix(zzww, |y|, cols) && IsMatrix(z2w2, |y|, cols)
  }

  /**
   * tmp = term1 + term2 + term3 − term4 of updateParameters, column by column as
   * the source computes it, with zw = Z·Wᵀ, zzww = ZZ·WWᵀ and z2w2 = Z²·(W²)ᵀ, and
   * the masked cells of Y, zw, zzww and z2w2 set to 0 first.
   */
  function Residuals(y: seq<seq<real>>, mask: seq<seq<bool>>, zw: seq<seq<real>>, zzww: seq<seq<real>>,
                     z2w2: seq<seq<real>>, cols: nat): (r: seq<real>)
    requires UpdateShapes(y, mask, zw, zzww, z2w2, cols)
    ensures |r| == cols
  {
    var ym := Masked(y, mask, cols);
    var zwm := Masked(zw, mask, cols);
    var term1 := ColSums(Square(ym, cols), cols);
    var term2 := ColSums(Masked(zzww, mask, cols), cols);
    var term3 := Plus(Scale(-1.0, ColSums(Masked(z2w2, mask, cols), cols)), ColSums(Square(zwm, cols), cols));
    var term4 := Scale(2.0, ColSums(Hadamard(zwm, ym, cols), cols));
    Minus(Plus(Plus(term1, term2), term3), term4)
  }

  /** What one observed cell contributes: Y² + ZZ·WWᵀ − Z²·(W²)ᵀ + (ZW)² − 2·ZW·Y. */
  function CellResidual(y: real, zw: real, zzww: real, z2w2: real): real
  {
    y * y + zzww - z2w2 + zw * zw - 2.0 * zw * y
  }

  /** Column j of the per-cell contributions, 0 at the masked cells: the reference definition of tmp. */
  function ReferenceColumn(y: seq<seq<real>>, mask: seq<seq<bool>>, zw: seq<seq<real>>, zzww: seq<seq<real>>,
                           z2w2: seq<seq<real>>, cols: nat, j: nat): (r: seq<real>)
    requires UpdateShapes(y, mask, zw, zzww, z2w2, cols) && j < cols
    ensures |r| == |y|
  {
    seq(|y|, n requires 0 <= n < |y| => if mask[n][j] then 0.0 else CellResidual(y[n][j], zw[n][j], zzww[n][j], z2w2[n][j]))
  }

  /** Qb = Pb + tmp/2. */
  function Rate(pb: seq<real>, y: seq<seq<real>>, mask: seq<seq<bool>>, zw: seq<seq<real>>, zzww: seq<seq<real>>,
                z2w2: seq<seq<real>>): (r: seq<real>)
    requires UpdateShapes(y, mask, zw, zzww, z2w2, |pb|)
    ensures |r| == |pb|
  {
    var tmp := Residuals(y, mask, zw, zzww, z2w2, |pb|);
    seq(|pb|, j requires 0 <= j < |pb| => pb[j] + tmp[j] / 2.0)
  }

  /** The rate the node's update computes from the neighbours' expectations: Rate of Z·Wᵀ, ZZ·WWᵀ and Z²·(W²)ᵀ. */
  function RateOf(pb: seq<real>, y: seq<seq<real>>, mask: seq<seq<bool>>, z: seq<seq<real>>, zz: seq<seq<real>>,
                  w: seq<seq<real>>, ww: seq<seq<real>>, k: nat): (r: seq<real>)
    requires IsMatrix(y, |y|, |pb|) && IsMatrix(mask, |y|, |pb|)
    requires IsMatrix(z, |y|, k) && IsMatrix(zz, |y|, k) && IsMatrix(w, |pb|, k) && IsMatrix(ww, |pb|, k)
    ensures |r| == |pb|
  {
    Rate(pb, y, mask, MulT(z, w, k), MulT(zz, ww, k), MulT(Square(z, k), Square(w, k), k))
  }

  /** A sum of per-element combinations c1 + c2 + (−c3 + c4) − 2·c5 is that combination of the sums. */
  lemma {:induction false} SumOfCombination(r: seq<real>, c1: seq<real>, c2: seq<real>, c3: seq<real>,
                                            c4: seq<real>, c5: seq<real>)
    requires |r| == |c1| == |c2| == |c3| == |c4| == |c5|
    requires forall n :: 0 <= n < |r| ==> r[n] == c1[n] + c2[n] + (-1.0 * c3[n] + c4[n]) - 2.0 * c5[n]
    ensures Sum(r) == Sum(c1) + Sum(c2) + (-1.0 * Sum(c3) + Sum(c4)) - 2.0 * Sum(c5)
  {
    if |r| > 0 {
      var m := |r| - 1;
      SumOfCombination(r[..m], c1[..m], c2[..m], c3[..m], c4[..m], c5[..m]);
    }
  }

  /** The five per-cell columns that the update's column sums add up, for column j. */
  function UpdateColumns(y: seq<seq<real>>, mask: seq<seq<bool>>, zw: seq<seq<real>>, zzww: seq<seq<real>>,
                         z2w2: seq<seq<real>>, cols: nat, j: nat): (r: seq<seq<real>>)
    requires UpdateShapes(y, mask, zw, zzww, z2w2, cols) && j < cols
    ensures |r| == 5 && forall i :: 0 <= i < 5 ==> |r[i]| == |y|
  {
    var ym := Masked(y, mask, cols);
    var zwm := Masked(zw, mask, cols);
    [Column(Square(ym, cols), cols, j), Column(Masked(zzww, mask, cols), cols, j),
     Column(Masked(z2w2, mask, cols), cols, j), Column(Square(zwm, cols), cols, j),
     Column(Hadamard(zwm, ym, cols), cols, j)]
  }

  /** Entry j of tmp, as the combination of the sums of the five columns. */
  lemma ResidualFromColumns(y: seq<seq<real>>, mask: seq<seq<bool>>, zw: seq<seq<real>>, zzww: seq<seq<real>>,
                            z2w2: seq<seq<real>>, cols: nat, j: nat)
    requires UpdateShapes(y, mask, zw, zzww, z2w2, cols) && j < cols
    ensures var c := UpdateColumns(y, mask, zw, zzww, z2w2, cols, j);
      Residuals(y, mask, zw, zzww, z2w2, cols)[j] == Sum(c[0]) + Sum(c[1]) + (-1.0 * Sum(c[2]) + Sum(c[3])) - 2.0 * Sum(c[4])
  {
  }

  /** Each cell of the reference column j is the same combination of the five columns' cells. */
  lemma ReferenceFromColumns(y: seq<seq<real>>, mask: seq<seq<bool>>, zw: seq<seq<real>>, zzww: seq<seq<real>>,
                             z2w2: seq<seq<real>>, cols: nat, j: nat)
    requires UpdateShapes(y, mask, zw, zzww, z2w2, cols) && j < cols
    ensures var c, reference := UpdateColumns(y, mask, zw, zzww, z2w2, cols, j), ReferenceColumn(y, mask, zw, zzww, z2w2, cols, j);
      forall n :: 0 <= n < |y| ==> reference[n] == c[0][n] + c[1][n] + (-1.0 * c[2][n] + c[3][n]) - 2.0 * c[4][n]
  {
  }

  /** Column j of tmp is the sum of the reference column j. */
  lemma ResidualColumn(y: seq<seq<real>>, mask: seq<seq<bool>>, zw: seq<seq<real>>, zzww: seq<seq<real>>,
                       z2w2: seq<seq<real>>, cols: nat, j: nat)
    requires UpdateShapes(y, mask, zw, zzww, z2w2, cols) && j < cols
    ensures Residuals(y, mask, zw, zzww, z2w2, cols)[j] == Sum(ReferenceColumn(y, mask, zw, zzww, z2w2, cols, j))
  {
    var c := UpdateColumns(y, mask, zw, zzww, z2w2, cols, j);
    ResidualFromColumns(y, mask, zw, zzww, z2w2, cols, j);
    ReferenceFromColumns(y, mask, zw, zzww, z2w2, cols, j);
    SumOfCombination(ReferenceColumn(y, mask, zw, zzww, z2w2, cols, j), c[0], c[1], c[2], c[3], c[4]);
  }

  /**
   * For every column j, term1 + term2 + term3 − term4 is the sum over the
   * unmasked rows n of Y² + ZZ·WWᵀ − Z²·(W²)ᵀ + (ZW)² − 2·ZW·Y.
   */
  lemma ResidualsAreUnmaskedSums(y: seq<seq<real>>, mask: seq<seq<bool>>, zw: seq<seq<real>>, zzww: seq<seq<real>>,
                                 z2w2: seq<seq<real>>, cols: nat)
    requires UpdateShapes(y, mask, zw, zzww, z2w2, cols)
    ensures forall j :: 0 <= j < cols ==>
      Residuals(y, mask, zw, zzww, z2w2, cols)[j] == Sum(ReferenceColumn(y, mask, zw, zzww, z2w2, cols, j))
  {
    forall j | 0 <= j < cols
      ensures Residuals(y, mask, zw, zzww, z2w2, cols)[j] == Sum(ReferenceColumn(y, mask, zw, zzww, z2w2, cols, j))
    {
      ResidualColumn(y, mask, zw, zzww, z2w2, cols, j);
    }
  }

  /**
   * Masked cells contribute nothing: inputs that agree on every observed cell
   * (whatever Y and the products hold at the masked ones) give the same rate.
   */
  lemma RateIgnoresMaskedCells(pb: seq<real>, mask: seq<seq<bool>>,
                               y: seq<seq<real>>, zw: seq<seq<real>>, zzww: seq<seq<real>>, z2w2: seq<seq<real>>,
                               y': seq<seq<real>>, zw': seq<seq<real>>, zzww': seq<seq<real>>, z2w2': seq<seq<real>>)
    requires UpdateShapes(y, mask, zw, zzww, z2w2, |pb|) && UpdateShapes(y', mask, zw', zzww', z2w2', |pb|)
    requires forall n, j :: 0 <= n < |y| && 0 <= j < |pb| && !mask[n][j] ==>
      y[n][j] == y'[n][j] && zw[n][j] == zw'[n][j] && zzww[n][j] == zzww'[n][j] && z2w2[n][j] == z2w2'[n][j]
    ensures Rate(pb, y, mask, zw, zzww, z2w2) == Rate(pb, y', mask, zw', zzww', z2w2')
  {
    ResidualsAreUnmaskedSums(y, mask, zw, zzww, z2w2, |pb|);
    ResidualsAreUnmaskedSums(y', mask, zw', zzww', z2w2', |pb|);
    forall j | 0 <= j < |pb|
      ensures ReferenceColumn(y, mask, zw, zzww, z2w2, |pb|, j) == ReferenceColumn(y', mask, zw', zzww', z2w2', |pb|, j)
    {
    }
  }

  /** If X ≥ x² and U ≥ u², then X·U ≥ x²·u². */
  lemma ProductDominates(x: real, bigX: real, u: real, bigU: real)
    requires bigX >= x * x && bigU >= u * u
    ensures bigX * bigU >= (x * x) * (u * u)
  {
    assert x * x >= 0.0 && u * u >= 0.0;
    assert bigX * bigU >= (x * x) * bigU;
    assert (x * x) * bigU >= (x * x) * (u * u);
  }

  /** Second moments that dominate the squared means make ZZ·WWᵀ ≥ Z²·(W²)ᵀ, entry by entry. */
  lemma DotDominates(z: seq<real>, zz: seq<real>, z2: seq<real>, w: seq<real>, ww: seq<real>, w2: seq<real>)
    requires |z| == |zz| == |z2| == |w| == |ww| == |w2|
    requires forall k :: 0 <= k < |z| ==> z2[k] == z[k] * z[k] && w2[k] == w[k] * w[k]
    requires forall k :: 0 <= k < |z| ==> zz[k] >= z[k] * z[k] && ww[k] >= w[k] * w[k]
    ensures Dot(zz, ww) >= Dot(z2, w2)
  {
    var big := seq(|z|, k requires 0 <= k < |z| => zz[k] * ww[k]);
    var small := seq(|z|, k requires 0 <= k < |z| => z2[k] * w2[k]);
    forall k | 0 <= k < |z|
      ensures Minus(big, small)[k] >= 0.0
    {
      ProductDominates(z[k], zz[k], w[k], ww[k]);
    }
    SumNonNegative(Minus(big, small));
    SumMinus(big, small);
  }

  /** An observed cell with dominating second moments contributes (Y − ZW)² + (ZZ·WWᵀ − Z²·(W²)ᵀ) ≥ 0. */
  lemma CellResidualNonNegative(y: real, zw: real, zzww: real, z2w2: real)
    requires zzww >= z2w2
    ensures CellResidual(y, zw, zzww, z2w2) >= 0.0
  {
    assert CellResidual(y, zw, zzww, z2w2) == (y - zw) * (y - zw) + (zzww - z2w2);
  }

  /** With dominating second moments, column j of the reference sums to a non-negative value. */
  lemma ReferenceColumnNonNegative(y: seq<seq<real>>, mask: seq<seq<bool>>, z: seq<seq<real>>, zz: seq<seq<real>>,
                                   w: seq<seq<real>>, ww: seq<seq<real>>, k: nat, cols: nat, j: nat)
    requires IsMatrix(y, |y|, cols) && IsMatrix(mask, |y|, cols) && j < cols
    requires IsMatrix(z, |y|, k) && IsMatrix(zz, |y|, k) && IsMatrix(w, cols, k) && IsMatrix(ww, cols, k)
    requires forall n, kk :: 0 <= n < |y| && 0 <= kk < k ==> zz[n][kk] >= z[n][kk] * z[n][kk]
    requires forall kk :: 0 <= kk < k ==> ww[j][kk] >= w[j][kk] * w[j][kk]
    ensures Sum(ReferenceColumn(y, mask, MulT(z, w, k), MulT(zz, ww, k), MulT(Square(z, k), Square(w, k), k), cols, j)) >= 0.0
  {
    var zw, zzww, z2w2 := MulT(z, w, k), MulT(zz, ww, k), MulT(Square(z, k), Square(w, k), k);
    var col := ReferenceColumn(y, mask, zw, zzww, z2w2, cols, j);
    forall n | 0 <= n < |y|
      ensures col[n] >= 0.0
    {
      DotDominates(z[n], zz[n], Square(z, k)[n], w[j], ww[j], Square(w, k)[j]);
      if !mask[n][j] {
        CellResidualNonNegative(y[n][j], zw[n][j], zzww[n][j], z2w2[n][j]);
      }
    }
    SumNonNegative(col);
  }

  /**
   * When every second moment dominates its squared mean (E[z²] ≥ E[z]², as for
   * any distribution), the update never lowers the rate below the prior's:
   * Qb ≥ Pb, so a positive prior rate gives a positive posterior rate.
   */
  lemma RateAtLeastPrior(pb: seq<real>, y: seq<seq<real>>, mask: seq<seq<bool>>, z: seq<seq<real>>, zz: seq<seq<real>>,
                         w: seq<seq<real>>, ww: seq<seq<real>>, k: nat)
    requires IsMatrix(y, |y|, |pb|) && IsMatrix(mask, |y|, |pb|)
    requires IsMatrix(z, |y|, k) && IsMatrix(zz, |y|, k) && IsMatrix(w, |pb|, k) && IsMatrix(ww, |pb|, k)
    requires forall n, kk :: 0 <= n < |y| && 0 <= kk < k ==> zz[n][kk] >= z[n][kk] * z[n][kk]
    requires forall d, kk :: 0 <= d < |pb| && 0 <= kk < k ==> ww[d][kk] >= w[d][kk] * w[d][kk]
    ensures forall j :: 0 <= j < |pb| ==> RateOf(pb, y, mask, z, zz, w, ww, k)[j] >= pb[j]
  {
    var zw, zzww, z2w2 := MulT(z, w, k), MulT(zz, ww, k), MulT(Square(z, k), Square(w, k), k);
    ResidualsAreUnmaskedSums(y, mask, zw, zzww, z2w2, |pb|);
    forall j | 0 <= j < |pb|
      ensures Sum(ReferenceColumn(y, mask, zw, zzww, z2w2, |pb|, j)) >= 0.0
    {
      ReferenceColumnNonNegative(y, mask, z, zz, w, ww, k, |pb|, j);
    }
  }

  /**
   * The posterior stays a valid Gamma: a positive prior gives a positive shape
   * Qa_pre and, with second moments that dominate their squared means, a
   * positive rate after every update.
   */
  lemma UpdatedPosteriorIsValid(pa: seq<real>, pb: seq<real>, yMask: seq<seq<bool>>,
                                y: seq<seq<real>>, mask: seq<seq<bool>>, z: seq<seq<real>>, zz: seq<seq<real>>,
                                w: seq<seq<real>>, ww: seq<seq<real>>, k: nat)
    requires |pa| == |pb| && IsMatrix(yMask, |yMask|, |pa|)
    requires IsMatrix(y, |y|, |pb|) && IsMatrix(mask, |y|, |pb|)
    requires IsMatrix(z, |y|, k) && IsMatrix(zz, |y|, k) && IsMatrix(w, |pb|, k) && IsMatrix(ww, |pb|, k)
    requires forall n, kk :: 0 <= n < |y| && 0 <= kk < k ==> zz[n][kk] >= z[n][kk] * z[n][kk]
    requires forall d, kk :: 0 <= d < |pb| && 0 <= kk < k ==> ww[d][kk] >= w[d][kk] * w[d][kk]
    requires forall j :: 0 <= j < |pa| ==> pa[j] > 0.0 && pb[j] > 0.0
    ensures forall j :: 0 <= j < |pa| ==> ShapePre(pa, yMask)[j] > 0.0 && RateOf(pb, y, mask, z, zz, w, ww, k)[j] > 0.0
  {
    RateAtLeastPrior(pb, y, mask, z, zz, w, ww, k);
  }

  /**
   * lb_p − lb_q with lb_p = lbconst + Σ(Pa−1)·E[ln τ] − Σ Pb·E[τ] and
   * lb_q = Σ Qa·log Qb + Σ(Qa−1)·E[ln τ] − Σ Qb·E[τ] − Σ lnΓ(Qa).
   */
  function Elbo(lbconst: real, p: GammaParams, q: GammaParams, m: GammaMoments,
                log: real -> real, gammaln: real -> real): real
    requires |p.a| == |p.b| == |q.a| == |q.b| == |m.e| == |m.lnE|
  {
    var lbP := lbconst + Sum(Times(Offset(-1.0, p.a), m.lnE)) - Sum(Times(p.b, m.e));
    var lbQ := Sum(Times(q.a, Apply(log, q.b))) + Sum(Times(Offset(-1.0, q.a), m.lnE))
      - Sum(Times(q.b, m.e)) - Sum(Apply(gammaln, q.a));
    lbP - lbQ
  }

  /**
   * With Q equal to the prior and lbconst computed from it, the bound's
   * contribution is 0, whatever log, gammaln and the moments are: lbconst cancels
   * Σ(a·log b − lnΓ a) and the E[ln τ] and E[τ] terms cancel.
   */
  lemma ElboVanishesAtPrior(p: GammaParams, m: GammaMoments, log: real -> real, gammaln: real -> real)
    requires |p.a| == |p.b| == |m.e| == |m.lnE|
    ensures Elbo(LbConst(p, log, gammaln), p, p, m, log, gammaln) == 0.0
  {
    SumMinus(Times(p.a, Apply(log, p.b)), Apply(gammaln, p.a));
  }

  class TauDNode {
    /** N, the first entry of the node's dimensions. */
    const n: nat
    /** D, the number of features. */
    const d: nat
    /** The prior's parameters. */
    const p: GammaParams
    /** The posterior's parameters. */
    var q: GammaParams
    /** The posterior's cached expectations, the 'E' and 'lnE' of Q.expectations. */
    var qMoments: GammaMoments
    /** N, lbconst and Qa_pre once precompute has run. */
    var pre: Option<Precomputed>

    /** Every per-feature vector has one entry per feature. */
    predicate Valid()
      reads this
    {
      && |p.a| == d && |p.b| == d && |q.a| == d && |q.b| == d
      && |qMoments.e| == d && |qMoments.lnE| == d
      && (pre.Some? ==> |pre.value.qaPre| == d)
    }

    constructor(dim: (nat, nat), p: GammaParams, q: GammaParams, qMoments: GammaMoments)
      requires |p.a| == |p.b| == |q.a| == |q.b| == |qMoments.e| == |qMoments.lnE| == dim.1
      ensures Valid()
      ensures n == dim.0 && d == dim.1 && this.p == p && this.q == q && this.qMoments == qMoments && pre == None
    {
      n, d := dim.0, dim.1;
      this.p, this.q, this.qMoments := p, q, qMoments;
      pre := None;
    }

    /**
     * precompute: N, lbconst from the prior, and Qa_pre from the missing cells of
     * Y (yMask is Y's mask; Y's number of rows is its number of rows).
     */
    method Precompute(yMask: seq<seq<bool>>, log: real -> real, gammaln: real -> real)
      requires Valid() && IsMatrix(yMask, |yMask|, d)
      modifies this`pre
      ensures Valid()
      ensures pre == Some(Precomputed(n, LbConst(p, log, gammaln), ShapePre(p.a, yMask)))
    {
      pre := Some(Precomputed(n, LbConst(p, log, gammaln), ShapePre(p.a, yMask)));
    }

    /**
     * getExpectations: Q's E and lnE; expanded, each as nZ identical rows (nZ is
     * the Z node's N), every row Q's vector.
     */
    function GetExpectations(expand: bool, nZ: nat): (r: TauExpectations)
      reads this`qMoments
      ensures expand ==> r.e.Rows? && r.lnE.Rows? && |r.e.m| == nZ && |r.lnE.m| == nZ
      ensures expand ==> forall i :: 0 <= i < nZ ==> r.e.m[i] == qMoments.e && r.lnE.m[i] == qMoments.lnE
      ensures !expand ==> r == TauExpectations(Vector(qMoments.e), Vector(qMoments.lnE))
    {
      var e, lnE := qMoments.e, qMoments.lnE;
      if expand then
        TauExpectations(Rows(seq(nZ, _ => e)), Rows(seq(nZ, _ => lnE)))
      else
        TauExpectations(Vector(qMoments.e), Vector(qMoments.lnE))
    }

    /** getExpectation: the 'E' entry of getExpectations. */
    function GetExpectation(expand: bool, nZ: nat): (r: Array)
      reads this`qMoments
      ensures expand ==> r.Rows? && |r.m| == nZ && forall i :: 0 <= i < nZ ==> r.m[i] == qMoments.e
      ensures !expand ==> r == Vector(qMoments.e)
    {
      GetExpectations(expand, nZ).e
    }

    /** Every row of the expanded expectation is the unexpanded vector. */
    lemma ExpandedRowsAreUnexpanded(nZ: nat, i: nat)
      requires i < nZ
      ensures GetExpectation(true, nZ).m[i] == GetExpectation(false, nZ).v
      ensures GetExpectations(true, nZ).lnE.m[i] == GetExpectations(false, nZ).lnE.v
    {
    }

    /**
     * updateParameters: Q becomes Gamma(Qa_pre, Pb + tmp/2). Before precompute
     * there is no Qa_pre (Python raises AttributeError): ok is false and Q is
     * unchanged.
     */
    method UpdateParameters(y: seq<seq<real>>, mask: seq<seq<bool>>, z: seq<seq<real>>, zz: seq<seq<real>>,
                            w: seq<seq<real>>, ww: seq<seq<real>>, k: nat) returns (ok: bool)
      requires Valid() && IsMatrix(y, |y|, d) && IsMatrix(mask, |y|, d)
      requires IsMatrix(z, |y|, k) && IsMatrix(zz, |y|, k) && IsMatrix(w, d, k) && IsMatrix(ww, d, k)
      modifies this`q
      ensures Valid()
      ensures ok <==> pre.Some?
      ensures !ok ==> q == old(q)
      ensures ok ==> q == GammaParams(pre.value.qaPre, RateOf(p.b, y, mask, z, zz, w, ww, k))
    {
      var rate := RateOf(p.b, y, mask, z, zz, w, ww, k);
      if pre.None? {
        return false;
      }
      q := GammaParams(pre.value.qaPre, rate);
      ok := true;
    }

    /**
     * calculateELBO: lb_p − lb_q over the current Q and its moments; None before
     * precompute (no lbconst). With Q equal to P and lbconst computed with the same
     * log and gammaln, the contribution is 0.
     */
    function CalculateElbo(log: real -> real, gammaln: real -> real): (r: Option<real>)
      reads this
      requires Valid()
      ensures r.None? <==> pre.None?
      ensures r.Some? ==> r.value == Elbo(pre.value.lbconst, p, q, qMoments, log, gammaln)
      ensures r.Some? && q == p && pre.value.lbconst == LbConst(p, log, gammaln) ==> r.value == 0.0
    {
      if pre.None? then None
      else
        ElboVanishesAtPrior(p, qMoments, log, gammaln);
        Some(Elbo(pre.value.lbconst, p, q, qMoments, log, gammaln))
    }
  }
}

/**
  Knuth's Poisson sampler, DeviceGenerator.samplePoisson: multiply uniform draws into p
  until p <= L, where L = exp(-lambda), and return the number of draws minus one.
  `Math.exp` is left abstract: the caller passes L. The draws of `random.nextDouble()`
  are passed as a finite sequence.
*/
module PoissonSampler {

  /** The running product after the given draws, multiplied in order from p = 1.0. */
  function Product(draws: seq<real>): real {
    if draws == [] then 1.0 else Product(draws[..|draws| - 1]) * draws[|draws| - 1]
  }

  /** The do-while stops after exactly m draws: the product first falls to L or below at the m-th draw. */
  predicate StopsAfter(L: real, draws: seq<real>, m: nat) {
    && 1 <= m <= |draws|
    && Product(draws[..m]) <= L
    && forall j :: 1 <= j < m ==> Product(draws[..j]) > L
  }

  /** The supplied draws are enough for the loop to stop. */
  predicate Stops(L: real, draws: seq<real>) {
    exists m :: 1 <= m <= |draws| && Product(draws[..m]) <= L
  }

  predicate IsUniformDraws(draws: seq<real>) {
    forall i :: 0 <= i < |draws| ==> 0.0 <= draws[i] < 1.0
  }

  method SamplePoisson(L: real, draws: seq<real>) returns (k: int)
    requires Stops(L, draws)
    ensures k >= 0
    ensures StopsAfter(L, draws, k + 1)
    ensures k == 0 <==> draws[0] <= L
  {
    ghost var m :| 1 <= m <= |draws| && Product(draws[..m]) <= L;
    k := 0;
    var p := 1.0;
    var more := true;
    while more
      invariant 0 <= k <= m
      invariant p == Product(draws[..k])
      invariant forall j :: 1 <= j < k ==> Product(draws[..j]) > L
      invariant more ==> k < m && (k == 0 || p > L)
      invariant !more ==> k >= 1 && p <= L
      decreases m - k, more
    {
      ProductStep(draws, k, p);
      p := p * draws[k];
      k := k + 1;
      more := p > L;
    }
    assert Product(draws[..1]) == draws[0] by {
      assert draws[..1][..0] == [];
    }
    k := k - 1;
  }

  /** One more draw multiplies the running product by that draw. */
  lemma ProductStep(draws: seq<real>, k: nat, p: real)
    requires k < |draws| && p == Product(draws[..k])
    ensures Product(draws[..k + 1]) == p * draws[k]
  {
    assert draws[..k + 1][..k] == draws[..k];
  }

  /** The stopping point is unique, so the sampler's result is determined by L and the draws. */
  lemma StopsAfterUnique(L: real, draws: seq<real>, m1: nat, m2: nat)
    requires StopsAfter(L, draws, m1) && StopsAfter(L, draws, m2)
    ensures m1 == m2
  {
  }

  /** With draws in [0,1) the running product never grows. */
  lemma {:induction false} ProductMonotone(draws: seq<real>, i: nat, j: nat)
    requires IsUniformDraws(draws)
    requires i <= j <= |draws|
    ensures 0.0 <= Product(draws[..j]) <= Product(draws[..i])
    decreases j - i
  {
    if i == j {
      ProductNonNegative(draws[..i]);
    } else {
      ProductMonotone(draws, i, j - 1);
      var s := draws[..j];
      assert s[..|s| - 1] == draws[..j - 1];
      var p := Product(draws[..j - 1]);
      assert Product(s) == p * draws[j - 1];
      assert 0.0 <= p * draws[j - 1] <= p by {
        assert 0.0 <= draws[j - 1] < 1.0;
      }
    }
  }

  lemma {:induction false} ProductNonNegative(draws: seq<real>)
    requires IsUniformDraws(draws)
    ensures Product(draws) >= 0.0
    decreases |draws|
  {
    if draws != [] {
      ProductNonNegative(draws[..|draws| - 1]);
      assert 0.0 <= draws[|draws| - 1];
    }
  }

  /** For genuine uniform draws, the loop stops within the supplied draws exactly when their whole product reaches L. */
  lemma StopsIffTotalProduct(L: real, draws: seq<real>)
    requires IsUniformDraws(draws)
    ensures Stops(L, draws) <==> |draws| >= 1 && Product(draws) <= L
  {
    assert draws[..|draws|] == draws;
    if Stops(L, draws) {
      var m :| 1 <= m <= |draws| && Product(draws[..m]) <= L;
      ProductMonotone(draws, m, |draws|);
    }
  }
}

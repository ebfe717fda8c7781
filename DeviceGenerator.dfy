/**
  DeviceGenerator.genDevices: builds n devices with ids dev-0001, dev-0002, ... and a rate
  drawn from the shared random source, clamped from below at 0.1. The `nextGaussian()`
  draws are passed in, in the order the loop consumes them.
*/
module DeviceGenerator {
  import opened Decimal
  import opened Device

  const MinLam: real := 0.1

  /** Math.max(0.1, lam). */
  function Clamp(lam: real): (r: real)
    ensures r >= MinLam && r >= lam
    ensures r == lam || r == MinLam
  {
    if lam >= MinLam then lam else MinLam
  }

  /** String.format("dev-%04d", i): the prefix "dev-", then at least four digits that read back as i. */
  function DevId(i: nat): (id: string)
    ensures |id| >= 8 && id[..4] == "dev-"
    ensures AllDigits(id[4..]) && Parse(id[4..]) == i
  {
    ParseZeroPad(i, 4);
    "dev-" + ZeroPad(i, 4)
  }

  /**
    The rate as the loop computes it: lamMean + g + lamStd, the deviation added rather than
    multiplied. It misses the intended rate by g * (1 - lamStd) + lamStd.
  */
  function AsWrittenRate(lamMean: real, g: real, lamStd: real): (lam: real)
    ensures lam - IntendedRate(lamMean, g, lamStd) == g * (1.0 - lamStd) + lamStd
  {
    lamMean + g + lamStd
  }

  /**
    The rate the comment "정규분포 난수 생성" and the parameter names call for: a normal draw
    with mean lamMean and deviation lamStd. With a positive deviation the sign of the draw
    decides the side of the mean; with none, every draw gives the mean.
  */
  function IntendedRate(lamMean: real, g: real, lamStd: real): (lam: real)
    ensures lamStd == 0.0 ==> lam == lamMean
    ensures lamStd > 0.0 ==> (lam > lamMean <==> g > 0.0) && (lam == lamMean <==> g == 0.0)
  {
    lamMean + g * lamStd
  }

  /** The device the i-th iteration (i from 1) builds from its Gaussian draw g: id dev-%04d of i, rate the sum clamped at 0.1. */
  function DeviceFor(i: nat, lamMean: real, lamStd: real, g: real): (d: Device)
    ensures d.id == DevId(i)
    ensures d.lam >= MinLam && d.lam >= AsWrittenRate(lamMean, g, lamStd)
    ensures d.lam == AsWrittenRate(lamMean, g, lamStd) || d.lam == MinLam
  {
    Device(DevId(i), Clamp(AsWrittenRate(lamMean, g, lamStd)))
  }

  method GenDevices(n: int, lamMean: real, lamStd: real, gaussians: seq<real>) returns (devs: seq<Device>)
    requires n <= |gaussians|
    ensures |devs| == if n <= 0 then 0 else n
    ensures forall j :: 0 <= j < |devs| ==> devs[j] == DeviceFor(j + 1, lamMean, lamStd, gaussians[j])
    ensures forall j :: 0 <= j < |devs| ==> devs[j].GetLam() >= MinLam
    ensures forall i, j :: 0 <= i < j < |devs| ==> devs[i].GetId() != devs[j].GetId()
  {
    devs := [];
    var i := 1;
    while i <= n
      invariant 1 <= i <= if n >= 1 then n + 1 else 1
      invariant |devs| == i - 1
      invariant forall j :: 0 <= j < |devs| ==> devs[j] == DeviceFor(j + 1, lamMean, lamStd, gaussians[j])
    {
      var lam := lamMean + gaussians[i - 1] + lamStd;
      lam := Clamp(lam);
      var id := DevId(i);
      devs := devs + [Device(id, lam)];
      i := i + 1;
    }
    forall a, b | 0 <= a < b < |devs|
      ensures devs[a].GetId() != devs[b].GetId()
    {
      DevIdInjective(a + 1, b + 1);
    }
  }

  /** Different sequence numbers give different ids, for every width the numbers reach. */
  lemma DevIdInjective(a: nat, b: nat)
    ensures DevId(a) == DevId(b) <==> a == b
  {
    if DevId(a) == DevId(b) {
      assert ZeroPad(a, 4) == DevId(a)[4..] == DevId(b)[4..] == ZeroPad(b, 4);
      ZeroPadInjective(a, b, 4);
    }
  }

  /** The loop starts at 1, so the first id is dev-0001 (the comment announces dev-0000). */
  lemma FirstIdIsDev0001()
    ensures DevId(1) == "dev-0001"
  {
  }

  /** Up to 9999 devices the ids have the fixed width of 8 characters. */
  lemma DevIdWidth(i: nat)
    requires i <= 9999
    ensures |DevId(i)| == 8
  {
    ZeroPad4Width(i);
  }

  /** In every iteration, a sum that is already at least 0.1 is kept unchanged by the clamp. */
  lemma ClampKeepsLargeRates(i: nat, lamMean: real, g: real, lamStd: real)
    requires AsWrittenRate(lamMean, g, lamStd) >= MinLam
    ensures DeviceFor(i, lamMean, lamStd, g).lam == lamMean + g + lamStd
  {
  }

  /** As written, a zero deviation does not make all rates equal the mean: a draw of 1.0 with mean 1.0 gives rate 2.0. */
  lemma AsWrittenZeroStdDependsOnDraw()
    ensures Clamp(AsWrittenRate(1.0, 1.0, 0.0)) == 2.0
    ensures Clamp(AsWrittenRate(1.0, 0.0, 0.0)) == 1.0
  {
  }

  /** With the intended rate and a zero deviation, every draw gives the clamped mean. */
  lemma IntendedZeroStdGivesMean(lamMean: real, g: real)
    ensures Clamp(IntendedRate(lamMean, g, 0.0)) == Clamp(lamMean)
  {
  }
}

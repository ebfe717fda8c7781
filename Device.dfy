/**
  The immutable device record of Device.java: an id and a rate lam, set once by the
  constructor and only read afterwards (there are no setters).
*/
module Device {
  import PoissonSampler

  datatype Device = Device(id: string, lam: real) {

    function GetId(): string {
      id
    }

    function GetLam(): real {
      lam
    }

    /**
      generateEvents(random): the number of events in one second, delegated to samplePoisson.
      L stands for Math.exp(-lam), which is not modelled; draws are the random's nextDouble() values.
    */
    method GenerateEvents(L: real, draws: seq<real>) returns (k: int)
      requires PoissonSampler.Stops(L, draws)
      ensures k >= 0
      ensures PoissonSampler.StopsAfter(L, draws, k + 1)
    {
      k := PoissonSampler.SamplePoisson(L, draws);
    }

    /** toString(); lamText is Java's rendering of the double lam, which is not modelled. */
    function ToString(lamText: string): (s: string)
      ensures |s| == |"Device{id='"| + |id| + |"', lam="| + |lamText| + 1
      ensures s[..11] == "Device{id='"
      ensures s[11..11 + |id|] == id
      ensures s[11 + |id|..18 + |id|] == "', lam="
      ensures s[18 + |id|..|s| - 1] == lamText && s[|s| - 1] == '}'
    {
      "Device{id='" + id + "', lam=" + lamText + "}"
    }
  }

  /** The getters return exactly what the constructor was given. */
  lemma GettersReturnConstructorArguments(id: string, lam: real)
    ensures Device(id, lam).GetId() == id
    ensures Device(id, lam).GetLam() == lam
  {
  }

  /** Two devices with the same id render their ids identically, and different ids give different strings. */
  lemma ToStringDeterminesId(a: Device, b: Device, lamText: string)
    requires a.ToString(lamText) == b.ToString(lamText)
    ensures a.id == b.id
  {
    var sa, sb := a.ToString(lamText), b.ToString(lamText);
    assert |a.id| == |b.id|;
    assert a.id == sa[11..11 + |a.id|] == sb[11..11 + |b.id|] == b.id;
  }
}

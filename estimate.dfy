// Heuristics that fill in the simulation times and the default volume
// written to the dump header (estimateSimTimes and estimateDefaultVol).
module Estimate {
  import opened Text
  import opened KkitModel

  datatype Times = Times(runTime: real, simDt: real, plotDt: real)

  const FallbackVol: real := 1.0e-15

  /** The times the header receives, stated field by field: a non-positive run time becomes 100,
      a non-positive plot step becomes a 200th of the run time, a zero simulation step becomes 0.01,
      and a simulation step above the plot step becomes a 100th of the plot step. */
  function SimTimes(runTime: real, dts: seq<real>): (t: Times)
    requires |dts| >= 19
    ensures t.runTime > 0.0 && t.plotDt > 0.0 && t.simDt <= t.plotDt
    ensures runTime > 0.0 ==> t.runTime == runTime
    ensures runTime <= 0.0 ==> t.runTime == 100.0
    ensures dts[18] > 0.0 ==> t.plotDt == dts[18]
    ensures dts[18] <= 0.0 ==> t.plotDt == t.runTime / 200.0
    ensures dts[16] != 0.0 && dts[16] <= t.plotDt ==> t.simDt == dts[16]
    ensures dts[16] == 0.0 && 0.01 <= t.plotDt ==> t.simDt == 0.01
    ensures (dts[16] > t.plotDt || (dts[16] == 0.0 && 0.01 > t.plotDt)) ==> t.simDt == t.plotDt / 100.0
  {
    var run := if runTime <= 0.0 then 100.0 else runTime;
    var plot := if dts[18] <= 0.0 then run / 200.0 else dts[18];
    var sim := if dts[16] == 0.0 then 0.01 else dts[16];
    Times(run, if sim > plot then plot / 100.0 else sim, plot)
  }

  /** estimateSimTimes: the clock's run time and ticks 16 and 18, defaulted in place, step by step. */
  method EstimateSimTimes(clockRunTime: real, dts: seq<real>) returns (runTime: real, simDt: real, plotDt: real)
    requires |dts| >= 19
    ensures Times(runTime, simDt, plotDt) == SimTimes(clockRunTime, dts)
  {
    runTime := clockRunTime;
    if runTime <= 0.0 {
      runTime := 100.0;
    }
    simDt := dts[16];
    plotDt := dts[18];
    if plotDt <= 0.0 {
      plotDt := runTime / 200.0;
    }
    if simDt == 0.0 {
      simDt := 0.01;
    }
    if simDt > plotDt {
      simDt := plotDt / 100.0;
    }
  }

  predicate IsKinetics(c: Child)
  {
    c.isChemCompt && c.name == "kinetics"
  }

  /** Index of the first ChemCompt child named "kinetics". */
  function FirstKinetics(cs: seq<Child>): (r: Option<nat>)
    ensures r.Some? ==> r.value < |cs| && IsKinetics(cs[r.value])
    ensures r.Some? ==> forall j :: 0 <= j < r.value ==> !IsKinetics(cs[j])
    ensures r.None? ==> forall j :: 0 <= j < |cs| ==> !IsKinetics(cs[j])
  {
    if |cs| == 0 then None
    else match FirstKinetics(cs[..|cs| - 1])
      case Some(i) => Some(i)
      case None => if IsKinetics(cs[|cs| - 1]) then Some(|cs| - 1) else None
  }

  /** The running maximum of ChemCompt volumes, starting from 0. */
  function MaxVol(cs: seq<Child>): real
  {
    if |cs| == 0 then 0.0
    else
      var m := MaxVol(cs[..|cs| - 1]);
      var c := cs[|cs| - 1];
      if c.isChemCompt && m < c.volume then c.volume else m
  }

  /** The default volume: that of the first "kinetics" compartment; otherwise the largest compartment
      volume when it is positive; otherwise 1e-15. */
  function DefaultVol(cs: seq<Child>): real
  {
    match FirstKinetics(cs)
    case Some(i) => cs[i].volume
    case None => if MaxVol(cs) > 0.0 then MaxVol(cs) else FallbackVol
  }

  /** estimateDefaultVol: one pass over the model's children, returning at the first "kinetics"
      compartment. */
  method EstimateDefaultVol(children: seq<Child>) returns (vol: real)
    ensures vol == DefaultVol(children)
  {
    var maxVol := 0.0;
    var i := 0;
    while i < |children|
      invariant 0 <= i <= |children|
      invariant forall j :: 0 <= j < i ==> !IsKinetics(children[j])
      invariant maxVol == MaxVol(children[..i])
    {
      var c := children[i];
      if c.isChemCompt {
        var v := c.volume;
        if c.name == "kinetics" {
          return v;
        }
        if maxVol < v {
          maxVol := v;
        }
      }
      assert children[..i + 1][..i] == children[..i];
      i := i + 1;
    }
    assert children[..i] == children;
    if maxVol > 0.0 {
      return maxVol;
    }
    return FallbackVol;
  }

  /** MaxVol bounds every compartment volume and is either 0 or one of them. */
  lemma {:induction false} MaxVolBounds(cs: seq<Child>)
    ensures MaxVol(cs) >= 0.0
    ensures forall j :: 0 <= j < |cs| && cs[j].isChemCompt ==> cs[j].volume <= MaxVol(cs)
    ensures MaxVol(cs) == 0.0 || exists j :: 0 <= j < |cs| && cs[j].isChemCompt && cs[j].volume == MaxVol(cs)
    decreases |cs|
  {
    if |cs| > 0 {
      var pre := cs[..|cs| - 1];
      MaxVolBounds(pre);
      assert forall j :: 0 <= j < |pre| ==> pre[j] == cs[j];
    }
  }

  /** A "kinetics" compartment decides the result, whatever follows it. */
  lemma {:induction false} KineticsShortCircuit(pre: seq<Child>, k: Child, post: seq<Child>)
    requires IsKinetics(k)
    requires forall j :: 0 <= j < |pre| ==> !IsKinetics(pre[j])
    ensures DefaultVol(pre + [k] + post) == k.volume
  {
    var cs := pre + [k] + post;
    assert cs[|pre|] == k;
    assert forall j :: 0 <= j < |pre| ==> cs[j] == pre[j];
    var i := FirstKinetics(cs);
    assert i.Some?;
    assert i.value == |pre|;
  }

  /** Without a "kinetics" compartment the result is the largest compartment volume when some
      compartment volume is positive, and 1e-15 when there is none or all are non-positive. */
  lemma DefaultVolWithoutKinetics(cs: seq<Child>)
    requires forall j :: 0 <= j < |cs| ==> !IsKinetics(cs[j])
    ensures (exists j :: 0 <= j < |cs| && cs[j].isChemCompt && cs[j].volume > 0.0) ==>
      (forall j :: 0 <= j < |cs| && cs[j].isChemCompt ==> cs[j].volume <= DefaultVol(cs)) &&
      (exists j :: 0 <= j < |cs| && cs[j].isChemCompt && cs[j].volume == DefaultVol(cs))
    ensures (forall j :: 0 <= j < |cs| && cs[j].isChemCompt ==> cs[j].volume <= 0.0) ==>
      DefaultVol(cs) == FallbackVol
  {
    MaxVolBounds(cs);
  }

  /** The ChemCompt children, in order: exactly the children that are ChemCompts. */
  function Compartments(cs: seq<Child>): (r: seq<Child>)
    ensures forall c :: c in r <==> c in cs && c.isChemCompt
  {
    if |cs| == 0 then []
    else
      var c := cs[|cs| - 1];
      Compartments(cs[..|cs| - 1]) + if c.isChemCompt then [c] else []
  }

  /** Dropping the other children leaves the running maximum of compartment volumes as it is. */
  lemma {:induction false} CompartmentsMaxVol(cs: seq<Child>)
    ensures MaxVol(Compartments(cs)) == MaxVol(cs)
    decreases |cs|
  {
    if |cs| > 0 {
      var pre := cs[..|cs| - 1];
      var c := cs[|cs| - 1];
      CompartmentsMaxVol(pre);
      var f := Compartments(cs);
      if c.isChemCompt {
        assert f[..|f| - 1] == Compartments(pre);
        assert f[|f| - 1] == c;
      } else {
        assert f == Compartments(pre);
      }
    }
  }

  /** Dropping the other children keeps the first "kinetics" compartment, and adds none. */
  lemma {:induction false} CompartmentsKinetics(cs: seq<Child>)
    ensures FirstKinetics(cs).None? ==> FirstKinetics(Compartments(cs)).None?
    ensures FirstKinetics(cs).Some? ==>
      (FirstKinetics(Compartments(cs)).Some? &&
       Compartments(cs)[FirstKinetics(Compartments(cs)).value] == cs[FirstKinetics(cs).value])
    decreases |cs|
  {
    if |cs| > 0 {
      var pre := cs[..|cs| - 1];
      var c := cs[|cs| - 1];
      CompartmentsKinetics(pre);
      var f := Compartments(cs);
      if c.isChemCompt {
        assert f[..|f| - 1] == Compartments(pre);
        assert f[|f| - 1] == c;
      } else {
        assert f == Compartments(pre);
        assert !IsKinetics(c);
      }
    }
  }

  /** Children that are not ChemCompts never affect the default volume. */
  lemma NonCompartmentsIgnored(cs: seq<Child>)
    ensures DefaultVol(Compartments(cs)) == DefaultVol(cs)
  {
    CompartmentsMaxVol(cs);
    CompartmentsKinetics(cs);
  }
}

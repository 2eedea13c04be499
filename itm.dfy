/**
 * The C shim in front of the Longley-Rice / NTIA-ITS Irregular Terrain
 * Model: it packs a terrain profile into the array layout the ITM engine
 * reads, runs the engine, and writes back only the outputs the caller asked
 * for. The engine itself is a parameter of type `Engine`.
 */
module ItmShim {
  import opened Common

  /** Propagation mode codes the engine reports. */
  const PropModeUnknown: int := -1
  const PropModeLos: int := 0
  const PropModeShDiff: int := 5
  const PropModeShTropo: int := 6
  const PropModeDhDiff: int := 9
  const PropModeDhTropo: int := 10

  const ResultSuccess: int := 0

  const AccurMax: real := 0.99

  datatype Polarization = Horizontal | Vertical

  /** The scalar inputs the engine takes besides the packed profile. */
  datatype Params = Params(
    thtM: real, rhtM: real, epsDielect: real, sgmConductivity: real,
    enoNsSurfref: real, frqMhz: real, radioClimate: int, pol: Polarization,
    timeAccur: real, locAccur: real, confAccur: real)

  /** Everything the engine computes for one call. */
  datatype EngineOutput = EngineOutput(dbloss: real, propmode: int, deltaH: real, errnum: int)

  /** The ITM point-to-point computation: packed profile and parameters to outputs. */
  type Engine = (seq<real>, Params) -> EngineOutput

  /** Which of the optional output pointers the caller passed as non-NULL. */
  datatype Wanted = Wanted(dbloss: bool, propmode: bool, deltaH: bool)

  /** What the caller receives through its output pointers; None when the pointer was NULL. */
  datatype Outputs = Outputs(dbloss: Option<real>, propmode: Option<int>, deltaH: Option<real>)

  /**
   * The ITM profile array for `elev` over `distance` meters: the number of
   * intervals, the interval length, then the elevations themselves.
   */
  function PackedProfile(elev: seq<real>, distance: real): (e: seq<real>)
    requires |elev| >= 2
    ensures |e| == |elev| + 2
  {
    [(|elev| - 1) as real, distance / (|elev| - 1) as real] + elev
  }

  /** Reads back the elevations and the total distance from a packed profile. */
  function UnpackProfile(e: seq<real>): (r: (seq<real>, real))
    requires |e| >= 2
    ensures |r.0| + 2 == |e| && forall k :: 0 <= k < |r.0| ==> r.0[k] == e[k + 2]
  {
    (e[2..], e[0] * e[1])
  }

  /** Packing loses nothing: the elevations and the distance can be read back. */
  lemma PackRoundTrip(elev: seq<real>, distance: real)
    requires |elev| >= 2
    ensures UnpackProfile(PackedProfile(elev, distance)).0 == elev
    ensures UnpackProfile(PackedProfile(elev, distance)).1 == distance
    ensures PackedProfile(elev, distance)[0] + 1.0 == |elev| as real
  {
    var e := PackedProfile(elev, distance);
    assert e[2..] == elev;
    var k := (|elev| - 1) as real;
    assert k > 0.0;
    assert e[0] == k && e[1] == distance / k;
    assert e[0] * e[1] == distance;
  }

  /**
   * `itm_point_to_pointMDH`: packs the first `n` elevations, runs the engine
   * and hands back each output only when the caller asked for it; the
   * engine's error number is the return value. `elev` is only read.
   */
  method PointToPointMDH(elev: array<real>, n: nat, distance: real, p: Params,
                         engine: Engine, want: Wanted)
    returns (errnum: int, out: Outputs)
    requires 2 <= n <= elev.Length
    ensures errnum == engine(PackedProfile(elev[..n], distance), p).errnum
    ensures out.dbloss == if want.dbloss then Some(engine(PackedProfile(elev[..n], distance), p).dbloss) else None
    ensures out.propmode == if want.propmode then Some(engine(PackedProfile(elev[..n], distance), p).propmode) else None
    ensures out.deltaH == if want.deltaH then Some(engine(PackedProfile(elev[..n], distance), p).deltaH) else None
  {
    var e := PackProfile(elev, n, distance);
    var res := engine(e[..], p);
    out := Outputs(
      if want.dbloss then Some(res.dbloss) else None,
      if want.propmode then Some(res.propmode) else None,
      if want.deltaH then Some(res.deltaH) else None);
    errnum := res.errnum;
  }

  /** The packing loop of `itm_point_to_pointMDH`: a fresh array holding the profile of the first `n` elevations. */
  method PackProfile(elev: array<real>, n: nat, distance: real) returns (e: array<real>)
    requires 2 <= n <= elev.Length
    ensures fresh(e) && e[..] == PackedProfile(elev[..n], distance)
  {
    var step := distance / (n - 1) as real;
    e := new real[n + 2];
    e[0] := (n - 1) as real;
    e[1] := step;
    var i := 0;
    while i < n
      invariant 0 <= i <= n
      invariant e[0] == (n - 1) as real && e[1] == step
      invariant e[2..i + 2] == elev[..i]
    {
      e[i + 2] := elev[i];
      i := i + 1;
    }
    assert e[..] == [e[0], e[1]] + e[2..n + 2];
  }

  predicate IsNamedPropMode(mode: int) {
    mode == PropModeLos || mode == PropModeShDiff || mode == PropModeShTropo
    || mode == PropModeDhDiff || mode == PropModeDhTropo
  }

  /** `itm_propmode2str`: the human-readable name of a propagation mode. */
  function PropMode2Str(mode: int): (r: string)
    ensures r == "unknown" <==> !IsNamedPropMode(mode)
  {
    if mode == PropModeLos then "line of sight"
    else if mode == PropModeShDiff then "single horizon, diffraction"
    else if mode == PropModeShTropo then "single horizon, troposcatter"
    else if mode == PropModeDhDiff then "double horizon, diffraction"
    else if mode == PropModeDhTropo then "double horizon, troposcatter"
    else "unknown"
  }

  /** Distinct named modes get distinct names, so a name identifies its mode. */
  lemma PropModeNamesDistinct(a: int, b: int)
    requires IsNamedPropMode(a) && IsNamedPropMode(b) && a != b
    ensures PropMode2Str(a) != PropMode2Str(b)
  {
    var s := PropMode2Str(a);
    var t := PropMode2Str(b);
    if |s| == |t| {
      // Names of equal length differ in their first word.
      assert s[0] != t[0];
    }
  }
}

/**
 * The navaid database of libradio: a line parser for X-Plane's
 * `earth_nav.dat` (format 1100), the orderings of its three search trees,
 * the "first entry wins" load rule, and the removal of a duplicate navaid at
 * the same airport. The list, the three AVL trees and the per-airport hash
 * table all hold pointers to the same navaid records; the model keeps the
 * records in a pool indexed by handle, the list as a sequence of handles,
 * and the hash table as a map from key to a sequence of handles. The three
 * trees always hold exactly the listed navaids, so a tree search is a search
 * of the list under the tree's ordering.
 */
module NavaidDb {
  import opened Common
  import opened CParse

  /** `navaid_type_t`; each type is one bit so that types can be combined into a mask. */
  datatype NavaidType = Ndb | Vor | Loc | Gs | Mrk | Dme | Fpap | Ltp | Gls

  function TypeValue(t: NavaidType): (v: bv32)
    ensures v != 0
  {
    match t
    case Ndb => 1
    case Vor => 2
    case Loc => 4
    case Gs => 8
    case Mrk => 16
    case Dme => 32
    case Fpap => 64
    case Ltp => 128
    case Gls => 256
  }

  /** Distinct types are distinct bits: a type's bit meets no other type's bit. */
  lemma TypeBitsDisjoint(a: NavaidType, b: NavaidType)
    ensures a != b <==> TypeValue(a) & TypeValue(b) == 0
    ensures TypeValue(a) == TypeValue(b) <==> a == b
  {
  }

  datatype MrkType = OuterMarker | MiddleMarker | InnerMarker
  datatype FpapPerf = PerfLp | PerfLpv | PerfApvII | PerfGls
  datatype LtpProv = ProvWaas | ProvEgnos | ProvMsas | ProvGp

  /** The type-specific part of a navaid record (the C union). */
  datatype Detail =
    | NoDetail
    | VorDetail(magvar: real)
    | LocDetail(brg: real, fcrs: Option<int>, refDatumDist: real, rwyId: string)
    | GsDetail(brg: real, gs: real, rwyId: string)
    | MrkDetail(brg: real, mrk: MrkType, rwyId: string)
    | DmeDetail(bias: real, arptId: string)
    | FpapDetail(crs: real, procId: string, rwyId: string, perf: FpapPerf)
    | LtpDetail(tch: real, crs: real, gs: real, procId: string, rwyId: string, prov: LtpProv)
    | GlsDetail(crs: real, gs: real, procId: string, rwyId: string)

  datatype Pos = Pos(lat: real, lon: real, elev: real)

  /** `navaid_t`; `freq` is in Hz and kept as a `uint64_t`. */
  datatype Navaid = Navaid(
    navType: NavaidType, pos: Pos, freq: nat, range: real,
    id: string, icao: string, region: string, name: string, detail: Detail)

  /** Straight-line distance between two positions (the ECEF chord). */
  type Chord = (Pos, Pos) -> real

  /**
   * The libacfutils frequency plausibility checks the parser applies; they are
   * not part of this model and enter as predicates on kHz (NDB) or MHz.
   */
  datatype FreqChecks = FreqChecks(ndbKhz: real -> bool, vorMhz: real -> bool, locMhz: real -> bool)

  /* Sizes of the record's character arrays. */
  const IdLen: nat := 8
  const NameLen: nat := 32

  function Feet2Met(ft: real): real { ft * 0.3048 }
  function Nm2Met(nm: real): real { nm * 1852.0 }

  /** `HZ2MHZ`: integer division to kHz, then a double division to MHz. */
  function Hz2Mhz(f: nat): real { (f / 1000) as real / 1000.0 }

  /** `HZ2KHZ`: integer division. */
  function Hz2Khz(f: nat): nat { f / 1000 }

  /** C's `fmod` for a positive divisor: the remainder takes the sign of `x`. */
  function FMod(x: real, m: real): real
    requires m > 0.0
  {
    x - Trunc(x / m) as real * m
  }

  // ---------------------------------------------------------------------------
  // Appending into a fixed-size name buffer
  // ---------------------------------------------------------------------------

  /** The components joined with single blanks. */
  function JoinSpace(ss: seq<string>): string
  {
    if |ss| == 0 then ""
    else if |ss| == 1 then ss[0]
    else JoinSpace(ss[..|ss| - 1]) + " " + ss[|ss| - 1]
  }

  /** One more component adds a blank and the component. */
  lemma JoinSpaceSnoc(ss: seq<string>, i: nat)
    requires 1 <= i < |ss|
    ensures JoinSpace(ss[..i + 1]) == JoinSpace(ss[..i]) + " " + ss[i]
  {
    assert ss[..i + 1][..i] == ss[..i];
  }

  /** Joining from the front: the first component, a blank, and the rest joined. */
  lemma {:induction false} JoinSpaceCons(w: string, ws: seq<string>)
    requires |ws| > 0
    ensures JoinSpace([w] + ws) == w + " " + JoinSpace(ws)
    decreases |ws|
  {
    var all := [w] + ws;
    var n := |ws|;
    if n > 1 {
      JoinSpaceCons(w, ws[..n - 1]);
      assert all[..n] == [w] + ws[..n - 1];
    } else {
      assert all[..1] == [w];
    }
  }

  /**
   * `strsplit` on a blank-separated join gives the components back, when
   * every component is a non-empty word without blanks.
   */
  lemma {:induction false} SplitJoinSpace(ws: seq<string>)
    requires forall k :: 0 <= k < |ws| ==> |ws[k]| > 0 && ' ' !in ws[k]
    ensures Split(JoinSpace(ws)) == ws
    decreases |ws|
  {
    if |ws| == 1 {
      SplitOfWord(ws[0]);
    } else if |ws| > 1 {
      var rest := ws[1..];
      assert [ws[0]] + rest == ws;
      JoinSpaceCons(ws[0], rest);
      SplitJoinSpace(rest);
      SplitWordThen(ws[0], JoinSpace(rest));
    }
  }

  /**
   * `my_strncat` on a `char[cap]` buffer holding `buf`: appends what fits
   * before the terminating NUL, and nothing once the buffer is full.
   */
  function MyStrncat(buf: string, append: string, cap: nat): (r: string)
    requires cap > 0 && |buf| <= cap - 1
    ensures |r| <= cap - 1
  {
    if |buf| + 1 < cap then Strlcpy(buf + append, cap) else buf
  }

  /** Appending to a truncated string truncates the concatenation. */
  lemma MyStrncatOfTruncated(x: string, y: string, cap: nat)
    requires cap > 0
    ensures MyStrncat(Strlcpy(x, cap), y, cap) == Strlcpy(x + y, cap)
  {
    var t := Strlcpy(x, cap);
    if |t| + 1 < cap {
      assert t == x;
    } else {
      assert |t| == cap - 1 && t == x[..cap - 1];
      assert (x + y)[..cap - 1] == x[..cap - 1];
    }
  }

  /**
   * `strcat_list` into an empty `char[cap]` buffer: the first component, then
   * a blank and the next component for each further one, each append cut
   * where the buffer ends.
   */
  method StrcatList(src: seq<string>, cap: nat) returns (dest: string)
    requires cap > 1
    ensures dest == Strlcpy(JoinSpace(src), cap)
    ensures |dest| <= cap - 1 && dest == JoinSpace(src)[..|dest|]
  {
    dest := "";
    if |src| > 0 {
      MyStrncatOfTruncated("", src[0], cap);
      dest := MyStrncat(dest, src[0], cap);
      assert JoinSpace(src[..1]) == src[0];
    }
    var i := 1;
    while i < |src|
      invariant 1 <= i
      invariant |src| > 0 ==> i <= |src| && dest == Strlcpy(JoinSpace(src[..i]), cap)
      invariant |src| == 0 ==> dest == ""
    {
      ghost var joined := JoinSpace(src[..i]);
      MyStrncatOfTruncated(joined, " ", cap);
      dest := MyStrncat(dest, " ", cap);
      MyStrncatOfTruncated(joined + " ", src[i], cap);
      dest := MyStrncat(dest, src[i], cap);
      JoinSpaceSnoc(src, i);
      i := i + 1;
    }
    if |src| > 0 {
      assert src[..i] == src;
    }
  }

  // ---------------------------------------------------------------------------
  // Parsing
  // ---------------------------------------------------------------------------

  /** What `parse_line` reports: a line it could not use, or a navaid (None: nothing to add). */
  datatype Parsed = Malformed | Parsed(nav: Option<Navaid>)

  /** Frequency multiplier from the file's units to Hz. */
  function FreqScale(t: NavaidType): (s: nat)
    ensures s in {1, 1000, 10000}
  {
    match t
    case Ndb => 1000
    case Vor => 10000
    case Loc => 10000
    case Gs => 10000
    case Dme => 10000
    case _ => 1
  }

  /** Fewer fields than this and `parse_navaid_common` gives up. */
  function MinComps(t: NavaidType): (n: nat)
    ensures n >= 11
  {
    if t == Ndb || t == Vor then 11 else 12
  }

  /** The field where a navaid's free-text name starts, if it has one. */
  function NameStart(t: NavaidType): Option<nat>
  {
    if t == Loc || t == Gs || t == Dme then Some(11)
    else if t == Ndb || t == Vor then Some(10)
    else None
  }

  /**
   * `parse_navaid_common`: the fields every line shares. No navaid when the
   * line is too short or the position is out of range.
   */
  function ParseCommon(comps: seq<string>, t: NavaidType): (r: Option<Navaid>)
    ensures |comps| < MinComps(t) ==> r.None?
    ensures r.Some? ==> r.value.navType == t && r.value.detail == NoDetail
    ensures r.Some? ==> IsValidLat(r.value.pos.lat) && IsValidLon(r.value.pos.lon) && IsValidElev(r.value.pos.elev)
    ensures r.Some? ==> r.value.freq == WrapU64(AtoI(comps[4]) * FreqScale(t))
    ensures r.Some? ==> |r.value.id| < IdLen && |r.value.icao| < IdLen && |r.value.name| < NameLen
  {
    if |comps| < MinComps(t) then None
    else
      var pos := Pos(AtoF(comps[1]), AtoF(comps[2]), Feet2Met(AtoI(comps[3]) as real));
      var freq := WrapU64(AtoI(comps[4]) * FreqScale(t));
      var id := if t == Fpap || t == Ltp || t == Gls then "" else Strlcpy(comps[7], IdLen);
      var name := match NameStart(t)
        case Some(k) => Strlcpy(JoinSpace(comps[k..]), NameLen)
        case None => "";
      if !IsValidLat(pos.lat) || !IsValidLon(pos.lon) || !IsValidElev(pos.elev) then None
      else Some(Navaid(t, pos, freq, Nm2Met(AtoF(comps[5])), id,
        Strlcpy(comps[8], IdLen), Strlcpy(comps[9], IdLen), name, NoDetail))
  }

  /** An NDB line always yields a navaid or an error; the navaid has an NDB frequency. */
  function ParseNdb(comps: seq<string>, v: FreqChecks): (r: Parsed)
    ensures |comps| < 11 ==> r == Malformed
    ensures r.Parsed? ==> (r.nav.Some? && r.nav.value.navType == Ndb && r.nav.value.detail == NoDetail
                          && v.ndbKhz(Hz2Khz(r.nav.value.freq) as real))
  {
    match ParseCommon(comps, Ndb)
    case None => Malformed
    case Some(nav) => if !v.ndbKhz(Hz2Khz(nav.freq) as real) then Malformed else Parsed(Some(nav))
  }

  /** A VOR line whose last field is "TACAN" is skipped without error. */
  function ParseVor(comps: seq<string>, v: FreqChecks): (r: Parsed)
    requires |comps| > 0
    ensures r == Parsed(None) <==> comps[|comps| - 1] == "TACAN"
    ensures comps[|comps| - 1] != "TACAN" && |comps| < 11 ==> r == Malformed
    ensures r.Parsed? && r.nav.Some? ==>
              r.nav.value.navType == Vor && r.nav.value.detail == VorDetail(AtoF(comps[6]))
              && v.vorMhz(Hz2Mhz(r.nav.value.freq))
  {
    if comps[|comps| - 1] == "TACAN" then Parsed(None)
    else match ParseCommon(comps, Vor)
      case None => Malformed
      case Some(nav) =>
        if !v.vorMhz(Hz2Mhz(nav.freq)) then Malformed
        else Parsed(Some(nav.(detail := VorDetail(AtoF(comps[6])))))
  }

  /** The bearing field of a LOC line also carries the front course as its multiple of 360. */
  function ParseLoc(comps: seq<string>, v: FreqChecks): (r: Parsed)
    ensures |comps| < 12 ==> r == Malformed
    ensures r.Parsed? ==> (r.nav.Some? && r.nav.value.navType == Loc && r.nav.value.detail.LocDetail?
              && var d := r.nav.value.detail;
                 d.brg == FMod(AtoF(comps[6]), 360.0) && IsValidHdg(d.brg)
                 && (d.fcrs.Some? <==> AtoF(comps[6]) >= 360.0)
                 && d.refDatumDist == 2450.0 && v.locMhz(Hz2Mhz(r.nav.value.freq)))
  {
    match ParseCommon(comps, Loc)
    case None => Malformed
    case Some(nav) =>
      var brgRaw := AtoF(comps[6]);
      var brg := FMod(brgRaw, 360.0);
      var fcrs := if brgRaw >= 360.0 then Some(Round(brgRaw / 360.0)) else None;
      if !v.locMhz(Hz2Mhz(nav.freq)) || !IsValidHdg(brg) then Malformed
      else Parsed(Some(nav.(detail := LocDetail(brg, fcrs, 2450.0, Strlcpy(comps[10], IdLen)))))
  }

  /**
   * The field of a GS line packs the glide-slope angle (hundredths of a
   * degree, three digits) in front of the bearing; a field of three
   * characters or fewer leaves both at zero.
   */
  function GsField(f: string): (real, real)
  {
    if |f| > 3 then (AtoI(f[..3]) as real / 100.0, AtoF(f[3..])) else (0.0, 0.0)
  }

  function ParseGs(comps: seq<string>, v: FreqChecks): (r: Parsed)
    ensures |comps| < 12 ==> r == Malformed
    ensures r.Parsed? ==> (r.nav.Some? && r.nav.value.navType == Gs && r.nav.value.detail.GsDetail?
              && 0.0 < r.nav.value.detail.gs <= 8.0 && IsValidHdg(r.nav.value.detail.brg)
              && v.locMhz(Hz2Mhz(r.nav.value.freq)))
  {
    match ParseCommon(comps, Gs)
    case None => Malformed
    case Some(nav) =>
      var (gs, brg) := GsField(comps[6]);
      if !v.locMhz(Hz2Mhz(nav.freq)) || !IsValidHdg(brg) || gs <= 0.0 || gs > 8.0 then Malformed
      else Parsed(Some(nav.(detail := GsDetail(brg, gs, Strlcpy(comps[10], IdLen)))))
  }

  function ParseMrk(comps: seq<string>, mrk: MrkType): (r: Parsed)
    ensures |comps| < 12 ==> r == Malformed
    ensures r.Parsed? ==> (r.nav.Some? && r.nav.value.navType == Mrk
              && r.nav.value.detail == MrkDetail(AtoF(comps[6]), mrk, Strlcpy(comps[10], IdLen))
              && IsValidHdg(AtoF(comps[6])))
  {
    match ParseCommon(comps, Mrk)
    case None => Malformed
    case Some(nav) =>
      var brg := AtoF(comps[6]);
      if !IsValidHdg(brg) then Malformed
      else Parsed(Some(nav.(detail := MrkDetail(brg, mrk, Strlcpy(comps[10], IdLen)))))
  }

  /** A DME may sit on a VOR or on a localizer frequency. */
  function ParseDme(comps: seq<string>, v: FreqChecks): (r: Parsed)
    ensures |comps| < 12 ==> r == Malformed
    ensures r.Parsed? ==> (r.nav.Some? && r.nav.value.navType == Dme
              && r.nav.value.detail.DmeDetail? && r.nav.value.detail.bias == -Nm2Met(AtoF(comps[6]))
              && (v.vorMhz(Hz2Mhz(r.nav.value.freq)) || v.locMhz(Hz2Mhz(r.nav.value.freq))))
  {
    match ParseCommon(comps, Dme)
    case None => Malformed
    case Some(nav) =>
      if !v.vorMhz(Hz2Mhz(nav.freq)) && !v.locMhz(Hz2Mhz(nav.freq)) then Malformed
      else Parsed(Some(nav.(detail := DmeDetail(-Nm2Met(AtoF(comps[6])), Strlcpy(comps[10], IdLen)))))
  }

  /** `snprintf(id, 8, "%s/%s", icao, proc)`: the identifier of an approach-path record. */
  function ProcId(icao: string, proc: string): (r: string)
    ensures |r| < IdLen
  {
    Strlcpy(icao + "/" + proc, IdLen)
  }

  function FpapPerfOf(s: string): Option<FpapPerf>
  {
    if s == "LP" then Some(PerfLp)
    else if s == "LPV" then Some(PerfLpv)
    else if s == "APV-II" then Some(PerfApvII)
    else if s == "GLS" then Some(PerfGls)
    else None
  }

  function ParseFpap(comps: seq<string>): (r: Parsed)
    ensures |comps| < 12 ==> r == Malformed
    ensures |comps| >= 12 && FpapPerfOf(comps[11]).None? ==> r == Malformed
    ensures r.Parsed? ==> (r.nav.Some? && r.nav.value.navType == Fpap && r.nav.value.detail.FpapDetail?
              && FpapPerfOf(comps[11]) == Some(r.nav.value.detail.perf)
              && IsValidHdg(r.nav.value.detail.crs) && r.nav.value.id == ProcId(comps[8], comps[7]))
  {
    match ParseCommon(comps, Fpap)
    case None => Malformed
    case Some(nav) =>
      match FpapPerfOf(comps[11])
      case None => Malformed
      case Some(perf) =>
        var crs := AtoF(comps[6]);
        if !IsValidHdg(crs) then Malformed
        else Parsed(Some(nav.(id := ProcId(comps[8], comps[7]),
          detail := FpapDetail(crs, Strlcpy(comps[7], IdLen), Strlcpy(comps[10], IdLen), perf))))
  }

  function LtpProvOf(s: string): Option<LtpProv>
  {
    if s == "WAAS" then Some(ProvWaas)
    else if s == "EGNOS" then Some(ProvEgnos)
    else if s == "MSAS" then Some(ProvMsas)
    else if s == "GP" then Some(ProvGp)
    else None
  }

  /**
   * The course field of an LTP/GLS line: below 1000 it is the course alone
   * with a 3.00 degree path; otherwise its first three characters are the
   * path angle in hundredths and the rest the course. Yields (angle, course);
   * a field of three characters or fewer leaves both at zero.
   */
  function CrsField(f: string): (real, real)
  {
    if |f| <= 3 then (0.0, 0.0)
    else if AtoF(f) < 1000.0 then (AtoI("300") as real / 100.0, AtoF(f))
    else (AtoI(Strlcpy(f, 4)) as real / 100.0, AtoF(f[3..]))
  }

  /** `parse_ltp_gls`: code 16 is a landing threshold point, anything else routed here a GLS. */
  function ParseLtpGls(comps: seq<string>): (r: Parsed)
    requires |comps| > 0
    ensures |comps| < 12 ==> r == Malformed
    ensures r.Parsed? ==> (r.nav.Some? && r.nav.value.id == ProcId(comps[8], comps[7])
              && r.nav.value.navType == (if AtoI(comps[0]) == 16 then Ltp else Gls))
    ensures r.Parsed? && r.nav.value.navType == Ltp ==>
              r.nav.value.detail.LtpDetail? && 0.0 < r.nav.value.detail.gs <= 8.0 && IsValidHdg(r.nav.value.detail.crs)
    ensures r.Parsed? && r.nav.value.navType == Gls ==>
              r.nav.value.detail.GlsDetail? && 0.0 < r.nav.value.detail.gs <= 8.0 && IsValidHdg(r.nav.value.detail.crs)
  {
    var isLtp := AtoI(comps[0]) == 16;
    match ParseCommon(comps, if isLtp then Ltp else Gls)
    case None => Malformed
    case Some(nav) =>
      var (gs, crs) := CrsField(comps[6]);
      var prov := if isLtp && |comps[6]| > 3 then LtpProvOf(comps[11]) else Some(ProvWaas);
      if prov.None? || !IsValidHdg(crs) || gs <= 0.0 || gs > 8.0 then Malformed
      else
        var proc, rwy := Strlcpy(comps[7], IdLen), Strlcpy(comps[10], IdLen);
        var detail := if isLtp then LtpDetail(Feet2Met(AtoF(comps[5])), crs, gs, proc, rwy, prov.value)
                      else GlsDetail(crs, gs, proc, rwy);
        Parsed(Some(nav.(id := ProcId(comps[8], comps[7]), detail := detail)))
  }

  /** The navaid type a row code stands for, when the parser knows the code. */
  function CodeType(code: int): Option<NavaidType>
  {
    if code == 2 then Some(Ndb)
    else if code == 3 then Some(Vor)
    else if code == 4 || code == 5 then Some(Loc)
    else if code == 6 then Some(Gs)
    else if 7 <= code <= 9 then Some(Mrk)
    else if code == 12 || code == 13 then Some(Dme)
    else if code == 14 then Some(Fpap)
    else if code == 15 then Some(Gls)
    else if code == 16 then Some(Ltp)
    else None
  }

  /** The dispatch of `parse_line` on the fields of a line. */
  function ParseComps(comps: seq<string>, v: FreqChecks): (r: Parsed)
    ensures |comps| == 0 ==> r == Parsed(None)
    ensures |comps| > 0 && CodeType(AtoI(comps[0])).None? ==> r == Parsed(None)
    ensures r.Parsed? && r.nav.Some? ==>
              |comps| > 0 && CodeType(AtoI(comps[0])) == Some(r.nav.value.navType)
  {
    if |comps| == 0 then Parsed(None)
    else
      var code := AtoI(comps[0]);
      if code == 2 then ParseNdb(comps, v)
      else if code == 3 then ParseVor(comps, v)
      else if code == 4 || code == 5 then ParseLoc(comps, v)
      else if code == 6 then ParseGs(comps, v)
      else if code == 7 then ParseMrk(comps, OuterMarker)
      else if code == 8 then ParseMrk(comps, MiddleMarker)
      else if code == 9 then ParseMrk(comps, InnerMarker)
      else if code == 12 || code == 13 then ParseDme(comps, v)
      else if code == 14 then ParseFpap(comps)
      else if code == 15 || code == 16 then ParseLtpGls(comps)
      else Parsed(None)
  }

  /** `parse_line`: strip the line, split it at blanks, dispatch on the row code. */
  function ParseLine(line: string, v: FreqChecks): (r: Parsed)
    ensures Split(StripSpace(line)) == [] ==> r == Parsed(None)
    ensures r.Parsed? && r.nav.Some? ==>
              var comps := Split(StripSpace(line));
              |comps| > 0 && CodeType(AtoI(comps[0])) == Some(r.nav.value.navType)
  {
    ParseComps(Split(StripSpace(line)), v)
  }

  /** Marker rows 7, 8 and 9 are the outer, middle and inner marker. */
  lemma MarkerCodes(comps: seq<string>, v: FreqChecks)
    requires |comps| > 0 && 7 <= AtoI(comps[0]) <= 9
    ensures ParseComps(comps, v).Parsed? && ParseComps(comps, v).nav.Some? ==>
              ParseComps(comps, v).nav.value.detail.MrkDetail?
              && ParseComps(comps, v).nav.value.detail.mrk ==
                 [OuterMarker, MiddleMarker, InnerMarker][AtoI(comps[0]) - 7]
  {
  }

  /** A GS line whose angle/bearing field has three characters or fewer is refused. */
  lemma ShortGsFieldRejected(comps: seq<string>, v: FreqChecks)
    requires |comps| >= MinComps(Gs) && |comps[6]| <= 3
    ensures ParseGs(comps, v) == Malformed
  {
  }

  /** An accepted GS line has a glide path in (0, 8] degrees and a valid bearing. */
  lemma GsAccepted(comps: seq<string>, v: FreqChecks)
    requires ParseGs(comps, v).Parsed? && ParseGs(comps, v).nav.Some?
    ensures var d := ParseGs(comps, v).nav.value.detail;
            d.GsDetail? && 0.0 < d.gs <= 8.0 && IsValidHdg(d.brg)
            && d.gs == AtoI(comps[6][..3]) as real / 100.0 && d.brg == AtoF(comps[6][3..])
  {
  }

  /** A VOR line ending in TACAN yields no navaid and no error, whatever else it holds. */
  lemma TacanSkipped(comps: seq<string>, v: FreqChecks)
    requires |comps| > 0 && AtoI(comps[0]) == 3 && comps[|comps| - 1] == "TACAN"
    ensures ParseComps(comps, v) == Parsed(None)
  {
  }

  /** Every navaid the parser yields has a position in range and its frequency in Hz. */
  lemma ParsedNavaidWellFormed(comps: seq<string>, v: FreqChecks)
    requires ParseComps(comps, v).Parsed? && ParseComps(comps, v).nav.Some?
    ensures var n := ParseComps(comps, v).nav.value;
            IsValidLat(n.pos.lat) && IsValidLon(n.pos.lon) && IsValidElev(n.pos.elev)
            && |comps| >= MinComps(n.navType)
            && n.freq == WrapU64(AtoI(comps[4]) * FreqScale(n.navType))
  {
    var code := AtoI(comps[0]);
    if code == 2 {
    } else if code == 3 {
    } else if code == 4 || code == 5 {
    } else if code == 6 {
    } else if 7 <= code <= 9 {
    } else if code == 12 || code == 13 {
    } else if code == 14 {
    } else {
    }
  }

  /** A line of white space only yields nothing and no error. */
  lemma {:induction false} BlankLine(line: string, v: FreqChecks)
    requires forall i :: 0 <= i < |line| ==> IsSpace(line[i])
    ensures ParseLine(line, v) == Parsed(None)
  {
    StripBlank(line);
  }

  lemma {:induction false} StripBlank(s: string)
    requires forall i :: 0 <= i < |s| ==> IsSpace(s[i])
    ensures StripSpace(s) == ""
  {
    if |s| > 0 {
      StripBlank(s[1..]);
    }
  }

  // ---------------------------------------------------------------------------
  // Orderings of the three search trees
  // ---------------------------------------------------------------------------

  /** A three-way comparison; frequencies are compared through it as well. */
  function CmpReal(a: real, b: real): (r: int)
    ensures r == 0 <==> a == b
    ensures -1 <= r <= 1
  {
    if a < b then -1 else if a > b then 1 else 0
  }

  /** The enumerator's value as an integer, which is what the comparators order by. */
  function TypeNum(t: NavaidType): (n: int)
    ensures n == TypeValue(t) as int
  {
    match t
    case Ndb => 1
    case Vor => 2
    case Loc => 4
    case Gs => 8
    case Mrk => 16
    case Dme => 32
    case Fpap => 64
    case Ltp => 128
    case Gls => 256
  }

  function CmpType(a: NavaidType, b: NavaidType): (r: int)
    ensures -1 <= r <= 1
  {
    var x, y := TypeNum(a), TypeNum(b);
    if x < y then -1 else if x > y then 1 else 0
  }

  /** Lexicographic combination: the first key that differs decides. */
  function Lex(first: int, rest: int): int
  {
    if first != 0 then first else rest
  }

  /** `common_latlon_compar` over a chosen coordinate: coordinate, type, id, frequency. */
  function CmpLatLon(pa: real, pb: real, a: Navaid, b: Navaid): (r: int)
    ensures -1 <= r <= 1
  {
    Lex(CmpReal(pa, pb), Lex(CmpType(a.navType, b.navType), Lex(StrCmp(a.id, b.id), CmpReal(a.freq as real, b.freq as real))))
  }

  /** `lat_compar`. */
  function LatCompar(a: Navaid, b: Navaid): (r: int)
    ensures -1 <= r <= 1
  {
    CmpLatLon(a.pos.lat, b.pos.lat, a, b)
  }

  /** `lon_compar`. */
  function LonCompar(a: Navaid, b: Navaid): (r: int)
    ensures -1 <= r <= 1
  {
    CmpLatLon(a.pos.lon, b.pos.lon, a, b)
  }

  /** `id_compar`: type, region, airport, identifier. */
  function IdCompar(a: Navaid, b: Navaid): (r: int)
    ensures -1 <= r <= 1
  {
    Lex(CmpType(a.navType, b.navType), Lex(StrCmp(a.region, b.region), Lex(StrCmp(a.icao, b.icao), StrCmp(a.id, b.id))))
  }

  lemma CmpTypeProps(a: NavaidType, b: NavaidType)
    ensures CmpType(a, b) == -CmpType(b, a)
    ensures CmpType(a, b) == 0 <==> a == b
  {
    assert TypeNum(a) == TypeNum(b) ==> a == b by {
      match a
      case Ndb =>
      case Vor =>
      case Loc =>
      case Gs =>
      case Mrk =>
      case Dme =>
      case Fpap =>
      case Ltp =>
      case Gls =>
    }
  }

  /** The latitude order is antisymmetric and ties only records equal in all its keys. */
  lemma LatComparProps(a: Navaid, b: Navaid)
    ensures LatCompar(a, b) == -LatCompar(b, a)
    ensures LatCompar(a, b) == 0 <==>
              a.pos.lat == b.pos.lat && a.navType == b.navType && a.id == b.id && a.freq == b.freq
  {
    CmpTypeProps(a.navType, b.navType);
    StrCmpAntisymmetric(a.id, b.id);
    StrCmpZeroIffEqual(a.id, b.id);
  }

  /** The longitude order is antisymmetric and ties only records equal in all its keys. */
  lemma LonComparProps(a: Navaid, b: Navaid)
    ensures LonCompar(a, b) == -LonCompar(b, a)
    ensures LonCompar(a, b) == 0 <==>
              a.pos.lon == b.pos.lon && a.navType == b.navType && a.id == b.id && a.freq == b.freq
  {
    CmpTypeProps(a.navType, b.navType);
    StrCmpAntisymmetric(a.id, b.id);
    StrCmpZeroIffEqual(a.id, b.id);
  }

  /** The identifier order is antisymmetric and ties only records equal in all its keys. */
  lemma IdComparProps(a: Navaid, b: Navaid)
    ensures IdCompar(a, b) == -IdCompar(b, a)
    ensures IdCompar(a, b) == 0 <==>
              a.navType == b.navType && a.region == b.region && a.icao == b.icao && a.id == b.id
  {
    CmpTypeProps(a.navType, b.navType);
    StrCmpAntisymmetric(a.region, b.region);
    StrCmpZeroIffEqual(a.region, b.region);
    StrCmpAntisymmetric(a.icao, b.icao);
    StrCmpZeroIffEqual(a.icao, b.icao);
    StrCmpAntisymmetric(a.id, b.id);
    StrCmpZeroIffEqual(a.id, b.id);
  }

  // ---------------------------------------------------------------------------
  // Duplicate navaids at one airport
  // ---------------------------------------------------------------------------

  /**
   * libacfutils `rel_hdg`: the signed turn from heading h1 to heading h2,
   * the short way round: added to h1 it reaches h2 up to a full circle.
   */
  function RelHdg(h1: real, h2: real): (r: real)
    ensures h1 + r == h2 || h1 + r == h2 + 360.0 || h1 + r == h2 - 360.0
  {
    if h1 > h2 then (if h1 > h2 + 180.0 then 360.0 - h1 + h2 else -(h1 - h2))
    else (if h2 > h1 + 180.0 then -(360.0 - h2 + h1) else h2 - h1)
  }

  function Abs(x: real): real { if x < 0.0 then -x else x }

  /** Between valid headings the turn is at most half a circle, and the same size either way. */
  lemma RelHdgProps(h1: real, h2: real)
    requires IsValidHdg(h1) && IsValidHdg(h2)
    ensures -180.0 <= RelHdg(h1, h2) <= 180.0
    ensures Abs(RelHdg(h1, h2)) == Abs(RelHdg(h2, h1))
  {
  }

  /** The bearing `is_navaid_conflict` compares: the LOC or GS course; other types have none. */
  function CourseOf(n: Navaid): real
  {
    match n.detail
    case LocDetail(brg, _, _, _) => brg
    case GsDetail(brg, _, _) => brg
    case _ => 0.0
  }

  const BrgMatch: real := 10.0
  const LocDistMatch: real := 1000.0
  const GsDistMatch: real := 750.0
  const DmeDistMatch: real := 500.0

  /**
   * `is_navaid_conflict`: two navaids of one type duplicate each other when
   * they share a frequency and are close: LOC under 1000 m and 10 degrees
   * apart, GS under 750 m and 10 degrees, DME under 500 m. No other type
   * ever conflicts.
   */
  function IsNavaidConflict(a: Navaid, b: Navaid, dist: Chord): (r: bool)
    requires a.navType == b.navType
    ensures r ==> a.freq == b.freq && a.navType in {Loc, Gs, Dme}
    ensures r && a.navType == Loc ==> dist(a.pos, b.pos) < LocDistMatch
    ensures r && a.navType == Gs ==> dist(a.pos, b.pos) < GsDistMatch
    ensures r && a.navType == Dme ==> dist(a.pos, b.pos) < DmeDistMatch
    ensures r && a.navType in {Loc, Gs} ==> Abs(RelHdg(CourseOf(a), CourseOf(b))) < BrgMatch
  {
    if a.freq != b.freq then false
    else
      var d := dist(a.pos, b.pos);
      match a.navType
      case Loc => d < LocDistMatch && Abs(RelHdg(CourseOf(a), CourseOf(b))) < BrgMatch
      case Gs => d < GsDistMatch && Abs(RelHdg(CourseOf(a), CourseOf(b))) < BrgMatch
      case Dme => d < DmeDistMatch
      case _ => false
  }

  predicate ValidCourse(n: Navaid) { IsValidHdg(CourseOf(n)) }

  /** With a symmetric distance, conflict is symmetric. */
  lemma ConflictSymmetric(a: Navaid, b: Navaid, dist: Chord)
    requires a.navType == b.navType && ValidCourse(a) && ValidCourse(b)
    requires dist(a.pos, b.pos) == dist(b.pos, a.pos)
    ensures IsNavaidConflict(a, b, dist) == IsNavaidConflict(b, a, dist)
  {
    RelHdgProps(CourseOf(a), CourseOf(b));
  }

  /**
   * The per-airport hash key as its comment describes it: the navaid type
   * and the airport identifier.
   */
  datatype ArptKey = ArptKey(navType: NavaidType, icao: string)

  function KeyOf(n: Navaid): (k: ArptKey)
    ensures k.navType == n.navType && k.icao == n.icao
  {
    ArptKey(n.navType, n.icao)
  }

  /**
   * The key as `navaiddb_create` sizes it: every byte from `type` to the end
   * of `icao`, so position, frequency, range and identifier are part of it.
   */
  datatype ArptKeyAsWritten = ArptKeyAsWritten(navType: NavaidType, pos: Pos, freq: nat, range: real,
                                               id: string, icao: string)

  function KeyAsWrittenOf(n: Navaid): ArptKeyAsWritten
  {
    ArptKeyAsWritten(n.navType, n.pos, n.freq, n.range, n.id, n.icao)
  }

  /**
   * Under the key as written, a navaid only meets navaids that tie with it
   * in the latitude order: the load loop has already refused it as a
   * duplicate of those, so the per-airport search can never find a
   * conflicting navaid with another identifier or position.
   */
  lemma ArptKeyAsWrittenOnlyMeetsLatTies(a: Navaid, b: Navaid)
    requires KeyAsWrittenOf(a) == KeyAsWrittenOf(b)
    ensures LatCompar(a, b) == 0
  {
    LatComparProps(a, b);
  }

  /** Two localizers of one airport 200 m apart under different identifiers: the case the removal exists for. */
  lemma ArptKeyAsWrittenSeparatesDuplicates()
    ensures var a := Navaid(Loc, Pos(45.0, 7.0, 0.0), 110100000, 0.0, "IABC", "LFLL", "LF", "", LocDetail(10.0, None, 2450.0, "36"));
            var b := a.(id := "IXYZ", pos := Pos(45.001, 7.0, 0.0));
            KeyAsWrittenOf(a) != KeyAsWrittenOf(b) && KeyOf(a) == KeyOf(b)
  {
  }

  // ---------------------------------------------------------------------------
  // The database as a value
  // ---------------------------------------------------------------------------

  /**
   * The database: the records by handle, the list of handles in load order,
   * and the per-airport lists of handles. `next` is the next unused handle.
   */
  datatype Db = Db(pool: map<nat, Navaid>, list: seq<nat>, byArpt: map<ArptKey, seq<nat>>, next: nat)

  predicate Unique(s: seq<nat>)
  {
    forall i, j :: 0 <= i < j < |s| ==> s[i] != s[j]
  }

  /** The links between the indices hold: one record per listed handle, airport lists keyed right. */
  ghost predicate WellFormed(db: Db)
  {
    Unique(db.list)
    && (forall h :: h in db.pool <==> h in db.list)
    && (forall h :: h in db.pool ==> h < db.next)
    && (forall k :: k in db.byArpt ==> Unique(db.byArpt[k]))
    && (forall k, i :: k in db.byArpt && 0 <= i < |db.byArpt[k]| ==>
          db.byArpt[k][i] in db.pool && KeyOf(db.pool[db.byArpt[k][i]]) == k)
  }

  function EmptyDb(next: nat): (db: Db)
    ensures WellFormed(db) && db.list == []
  {
    Db(map[], [], map[], next)
  }

  datatype Order = ById | ByLat | ByLon

  function Compare(o: Order, a: Navaid, b: Navaid): int
  {
    match o
    case ById => IdCompar(a, b)
    case ByLat => LatCompar(a, b)
    case ByLon => LonCompar(a, b)
  }

  /** `avl_find` in one tree: a listed navaid that ties with `nav` in that tree's order. */
  function FindIn(pool: map<nat, Navaid>, list: seq<nat>, nav: Navaid, o: Order): (r: Option<nat>)
    requires forall i :: 0 <= i < |list| ==> list[i] in pool
    ensures r.Some? ==> r.value in list && Compare(o, pool[r.value], nav) == 0
    ensures r.None? ==> forall i :: 0 <= i < |list| ==> Compare(o, pool[list[i]], nav) != 0
  {
    if |list| == 0 then None
    else if Compare(o, pool[list[0]], nav) == 0 then Some(list[0])
    else FindIn(pool, list[1..], nav, o)
  }

  /**
   * The load loop's search: by identifier, then by latitude, then by
   * longitude. It finds a held navaid exactly when one ties with `nav` in
   * at least one of the three orders.
   */
  function FindOther(db: Db, nav: Navaid): (r: Option<nat>)
    requires WellFormed(db)
    ensures r.Some? ==> r.value in db.pool && r.value in db.list
    ensures r.Some? ==> Compare(ById, db.pool[r.value], nav) == 0 || Compare(ByLat, db.pool[r.value], nav) == 0
                        || Compare(ByLon, db.pool[r.value], nav) == 0
    ensures r.None? <==> forall i :: 0 <= i < |db.list| ==>
              Compare(ById, db.pool[db.list[i]], nav) != 0 && Compare(ByLat, db.pool[db.list[i]], nav) != 0
              && Compare(ByLon, db.pool[db.list[i]], nav) != 0
  {
    var byId := FindIn(db.pool, db.list, nav, ById);
    if byId.Some? then byId
    else
      var byLat := FindIn(db.pool, db.list, nav, ByLat);
      if byLat.Some? then byLat else FindIn(db.pool, db.list, nav, ByLon)
  }

  /** `list` without the entry at `j`. */
  function RemoveAt(s: seq<nat>, j: nat): (r: seq<nat>)
    requires j < |s|
    ensures |r| == |s| - 1
  {
    s[..j] + s[j + 1..]
  }

  /** `list` without `h`. */
  function Remove(s: seq<nat>, h: nat): (r: seq<nat>)
    ensures forall x :: x in r <==> x in s && x != h
    ensures |r| <= |s|
  {
    if |s| == 0 then []
    else if s[0] == h then Remove(s[1..], h)
    else [s[0]] + Remove(s[1..], h)
  }

  lemma {:induction false} RemoveUnique(s: seq<nat>, h: nat)
    requires Unique(s)
    ensures Unique(Remove(s, h))
    ensures h in s ==> |Remove(s, h)| == |s| - 1
    ensures h !in s ==> Remove(s, h) == s
  {
    if |s| > 0 {
      assert Unique(s[1..]);
      RemoveUnique(s[1..], h);
      assert s == [s[0]] + s[1..];
      if s[0] == h {
        assert h !in s[1..];
      } else {
        assert s[0] !in s[1..];
        assert s[0] !in Remove(s[1..], h);
      }
    }
  }

  lemma RemoveAtUnique(s: seq<nat>, j: nat)
    requires Unique(s) && j < |s|
    ensures Unique(RemoveAt(s, j))
    ensures forall x :: x in RemoveAt(s, j) <==> x in s && x != s[j]
  {
    var r := RemoveAt(s, j);
    forall x | x in s && x != s[j] ensures x in r {
      var i :| 0 <= i < |s| && s[i] == x;
      if i < j { assert r[i] == x; } else { assert r[i - 1] == x; }
    }
  }

  /** The first navaid in `lst` that `nav` conflicts with. */
  function FirstConflict(pool: map<nat, Navaid>, lst: seq<nat>, nav: Navaid, dist: Chord): (r: Option<nat>)
    requires forall i :: 0 <= i < |lst| ==> lst[i] in pool && pool[lst[i]].navType == nav.navType
    ensures r.Some? ==> r.value < |lst| && IsNavaidConflict(nav, pool[lst[r.value]], dist)
    ensures r.Some? ==> forall i :: 0 <= i < r.value ==> !IsNavaidConflict(nav, pool[lst[i]], dist)
    ensures r.None? ==> forall i :: 0 <= i < |lst| ==> !IsNavaidConflict(nav, pool[lst[i]], dist)
  {
    if |lst| == 0 then None
    else if IsNavaidConflict(nav, pool[lst[0]], dist) then Some(0)
    else
      match FirstConflict(pool, lst[1..], nav, dist)
      case None => None
      case Some(j) => Some(j + 1)
  }

  /** Preconditions of the per-airport step: `h` is listed but in no airport list yet. */
  ghost predicate ReadyForArpt(db: Db, h: nat)
  {
    WellFormed(db) && h in db.pool
    && forall k, i :: k in db.byArpt && 0 <= i < |db.byArpt[k]| ==> db.byArpt[k][i] != h
  }

  /** The handles filed under `key`. */
  function ArptList(db: Db, key: ArptKey): seq<nat>
  {
    if key in db.byArpt then db.byArpt[key] else []
  }

  /** The navaid `replace_arpt_navaid_duplicate` drops for `h`: the first at its airport that conflicts with it. */
  function DupOf(db: Db, h: nat, dist: Chord): (r: Option<nat>)
    requires ReadyForArpt(db, h)
    ensures r.Some? ==> r.value in db.pool && r.value != h && r.value in ArptList(db, KeyOf(db.pool[h]))
                        && KeyOf(db.pool[r.value]) == KeyOf(db.pool[h])
                        && IsNavaidConflict(db.pool[h], db.pool[r.value], dist)
    ensures r.None? ==> forall g :: g in ArptList(db, KeyOf(db.pool[h])) ==> !IsNavaidConflict(db.pool[h], db.pool[g], dist)
  {
    var key := KeyOf(db.pool[h]);
    var lst := ArptList(db, key);
    assert forall i :: 0 <= i < |lst| ==> lst[i] in db.pool && KeyOf(db.pool[lst[i]]) == key;
    match FirstConflict(db.pool, lst, db.pool[h], dist)
    case None => None
    case Some(j) => Some(lst[j])
  }

  /**
   * `replace_arpt_navaid_duplicate`: drop the first navaid at `h`'s airport
   * that conflicts with it from every index, then file `h` under its airport.
   */
  function ReplaceDup(db: Db, h: nat, dist: Chord): (r: Db)
    requires ReadyForArpt(db, h)
    ensures forall x :: x in r.pool ==> x in db.pool && r.pool[x] == db.pool[x]
    ensures forall x :: x in db.pool && x !in r.pool ==> DupOf(db, h, dist) == Some(x)
    ensures h in r.pool && h in ArptList(r, KeyOf(db.pool[h]))
  {
    var key := KeyOf(db.pool[h]);
    var lst := ArptList(db, key);
    match DupOf(db, h, dist)
    case None => db.(byArpt := db.byArpt[key := lst + [h]])
    case Some(g) => Dropped(db, h, g)
  }

  lemma FileWellFormed(db: Db, h: nat)
    requires ReadyForArpt(db, h)
    ensures WellFormed(db.(byArpt := db.byArpt[KeyOf(db.pool[h]) := ArptList(db, KeyOf(db.pool[h])) + [h]]))
  {
    var lst := ArptList(db, KeyOf(db.pool[h]));
    assert h !in lst;
  }

  /** The database once `g` is dropped from every index and `h` is filed under its airport. */
  function Dropped(db: Db, h: nat, g: nat): Db
    requires ReadyForArpt(db, h)
  {
    var key := KeyOf(db.pool[h]);
    Db(db.pool - {g}, Remove(db.list, g), db.byArpt[key := Remove(ArptList(db, key), g) + [h]], db.next)
  }

  lemma DropWellFormed(db: Db, h: nat, g: nat)
    requires ReadyForArpt(db, h) && g in db.pool && g != h && KeyOf(db.pool[g]) == KeyOf(db.pool[h])
    ensures WellFormed(Dropped(db, h, g))
  {
    var r := Dropped(db, h, g);
    RemoveUnique(db.list, g);
    assert forall x :: x in r.pool <==> x in r.list;
    DropKeepsArptLists(db, h, g);
  }

  /** After the drop every airport list is still duplicate-free and filed under its own key. */
  lemma DropKeepsArptLists(db: Db, h: nat, g: nat)
    requires ReadyForArpt(db, h) && g in db.pool && g != h && KeyOf(db.pool[g]) == KeyOf(db.pool[h])
    ensures var r := Dropped(db, h, g);
            (forall k :: k in r.byArpt ==> Unique(r.byArpt[k]))
            && forall k, i :: k in r.byArpt && 0 <= i < |r.byArpt[k]| ==>
                 r.byArpt[k][i] in r.pool && KeyOf(r.pool[r.byArpt[k][i]]) == k
  {
    var key := KeyOf(db.pool[h]);
    var lst := ArptList(db, key);
    RemoveUnique(lst, g);
    assert h !in lst;
    var nl := Remove(lst, g) + [h];
    assert Unique(nl);
    var r := Dropped(db, h, g);
    assert r.byArpt == db.byArpt[key := nl];
    forall k, i | k in r.byArpt && 0 <= i < |r.byArpt[k]|
      ensures r.byArpt[k][i] in r.pool && KeyOf(r.pool[r.byArpt[k][i]]) == k
    {
      var x := r.byArpt[k][i];
      if k == key {
        assert x in nl;
        if x != h {
          assert x in lst && x != g;
          var j :| 0 <= j < |lst| && lst[j] == x;
        }
      } else {
        assert x == db.byArpt[k][i];
        assert x != g;
      }
    }
  }

  /** The per-airport step keeps the indices consistent. */
  lemma ReplaceDupWellFormed(db: Db, h: nat, dist: Chord)
    requires ReadyForArpt(db, h)
    ensures WellFormed(ReplaceDup(db, h, dist))
    ensures h in ReplaceDup(db, h, dist).pool
  {
    match DupOf(db, h, dist)
    case None => FileWellFormed(db, h);
    case Some(g) => DropWellFormed(db, h, g);
  }

  /**
   * The per-airport step removes at most one navaid, one of `h`'s type at
   * its airport that conflicts with it, and removes it from the pool, the
   * list and every airport list; `h` is then filed under its airport.
   */
  lemma ReplaceDupRemovesAtMostOne(db: Db, h: nat, dist: Chord)
    requires ReadyForArpt(db, h)
    ensures var r := ReplaceDup(db, h, dist);
            DupOf(db, h, dist).None? ==> r.list == db.list && r.pool == db.pool
    ensures var r := ReplaceDup(db, h, dist);
            DupOf(db, h, dist).Some? ==>
              var g := DupOf(db, h, dist).value;
              r.list == Remove(db.list, g) && |r.list| == |db.list| - 1 && r.pool == db.pool - {g}
              && Unfiled(r, g)
    ensures h in ArptList(ReplaceDup(db, h, dist), KeyOf(db.pool[h]))
  {
    match DupOf(db, h, dist)
    case None =>
    case Some(g) =>
      RemoveUnique(db.list, g);
      DropWellFormed(db, h, g);
  }

  /** When a navaid at the same airport conflicts with `h`, one navaid leaves the list. */
  lemma ReplaceDupRemovesConflict(db: Db, h: nat, g: nat, dist: Chord)
    requires ReadyForArpt(db, h)
    requires g in ArptList(db, KeyOf(db.pool[h])) && IsNavaidConflict(db.pool[h], db.pool[g], dist)
    ensures DupOf(db, h, dist).Some?
    ensures |ReplaceDup(db, h, dist).list| == |db.list| - 1
  {
    ReplaceDupRemovesAtMostOne(db, h, dist);
  }

  /**
   * One parsed navaid entering the database. A navaid that ties with a
   * loaded one in any of the three orders is dropped (first entry wins),
   * handing its frequency to the loaded one when `replaceFreq`; otherwise it
   * is appended and, when it belongs to an airport, the airport's duplicate
   * is replaced.
   */
  function InsertNav(db: Db, nav: Navaid, replaceFreq: bool, dist: Chord): (r: Db)
    requires WellFormed(db)
    ensures WellFormed(r)
  {
    match FindOther(db, nav)
    case Some(other) =>
      if replaceFreq then
        RetuneWellFormed(db, other, nav.freq);
        db.(pool := db.pool[other := db.pool[other].(freq := nav.freq)])
      else db
    case None =>
      var db1 := Appended(db, nav);
      if nav.icao != "" && nav.icao != "ENRT" then
        ReplaceDupWellFormed(db1, db.next, dist);
        ReplaceDup(db1, db.next, dist)
      else db1
  }

  /** `nav` added to the pool and the list under the next handle, in no airport list yet. */
  function Appended(db: Db, nav: Navaid): (r: Db)
    requires WellFormed(db)
    ensures ReadyForArpt(r, db.next) && r.pool[db.next] == nav && db.next !in db.pool
    ensures r.pool.Keys == db.pool.Keys + {db.next} && r.list == db.list + [db.next]
    ensures forall g :: g in db.pool ==> r.pool[g] == db.pool[g]
    ensures r.byArpt == db.byArpt
  {
    AppendFresh(db, nav);
    Db(db.pool[db.next := nav], db.list + [db.next], db.byArpt, db.next + 1)
  }

  /** Moving a loaded navaid to another frequency leaves its airport key, and so the indices, as they were. */
  lemma RetuneWellFormed(db: Db, g: nat, freq: nat)
    requires WellFormed(db) && g in db.pool
    ensures WellFormed(db.(pool := db.pool[g := db.pool[g].(freq := freq)]))
  {
    var r := db.(pool := db.pool[g := db.pool[g].(freq := freq)]);
    assert KeyOf(r.pool[g]) == KeyOf(db.pool[g]);
    assert forall x :: x in r.pool ==> KeyOf(r.pool[x]) == KeyOf(db.pool[x]);
  }

  lemma AppendFresh(db: Db, nav: Navaid)
    requires WellFormed(db)
    ensures WellFormed(Db(db.pool[db.next := nav], db.list + [db.next], db.byArpt, db.next + 1))
  {
    var h := db.next;
    assert h !in db.list;
    var l := db.list + [h];
    forall i, j | 0 <= i < j < |l| ensures l[i] != l[j] {
      if j == |l| - 1 { assert l[i] in db.list; }
    }
  }

  /** First entry wins: a navaid tying with a loaded one adds nothing, at most moving the frequency. */
  lemma FirstEntryWins(db: Db, nav: Navaid, replaceFreq: bool, dist: Chord)
    requires WellFormed(db) && FindOther(db, nav).Some?
    ensures var r := InsertNav(db, nav, replaceFreq, dist);
            var other := FindOther(db, nav).value;
            r.list == db.list && r.byArpt == db.byArpt && r.pool.Keys == db.pool.Keys
            && r.pool[other] == (if replaceFreq then db.pool[other].(freq := nav.freq) else db.pool[other])
            && forall g :: g in db.pool && g != other ==> r.pool[g] == db.pool[g]
  {
  }

  /**
   * A navaid tying with none is appended with a fresh handle, and at most
   * one other navaid leaves the list.
   */
  lemma NewNavaidAppended(db: Db, nav: Navaid, replaceFreq: bool, dist: Chord)
    requires WellFormed(db) && FindOther(db, nav).None?
    ensures var r := InsertNav(db, nav, replaceFreq, dist);
            db.next in r.pool && r.pool[db.next] == nav && db.next !in db.pool
            && |db.list| <= |r.list| <= |db.list| + 1
            && forall g :: g in r.list ==> g in db.list || g == db.next
  {
    var db1 := Appended(db, nav);
    if nav.icao != "" && nav.icao != "ENRT" {
      ReplaceDupRemovesAtMostOne(db1, db.next, dist);
    }
  }

  // ---------------------------------------------------------------------------
  // Loading files
  // ---------------------------------------------------------------------------

  /**
   * An `earth_nav.dat` file: the version `fscanf("I %d")` read from its
   * header (None when the header does not match), then the lines after the
   * version line.
   */
  datatype NavFile = NavFile(version: Option<int>, lines: seq<string>)

  const EarthNavMinVersion: int := 1100
  const EarthNavMaxVersion: int := 1100

  /** The header check as written: both comparisons test for a version that is too old. */
  predicate VersionOkAsWritten(version: int): (ok: bool)
    ensures ok <==> version >= 1100
  {
    !(version < EarthNavMinVersion || version < EarthNavMaxVersion)
  }

  /** A file from a newer format passes the check as written. */
  lemma VersionCheckAsWrittenAcceptsNewer()
    ensures VersionOkAsWritten(1200) && !VersionOk(1200)
  {
  }

  /** The header check between the two bounds, as the two constants evidently intend. */
  predicate VersionOk(version: int): (ok: bool)
    ensures ok <==> version == 1100
  {
    EarthNavMinVersion <= version <= EarthNavMaxVersion
  }

  /** The corrected check accepts exactly version 1100; the one as written every version from 1100 on. */
  lemma VersionChecks(version: int)
    ensures VersionOk(version) <==> version == 1100
    ensures VersionOkAsWritten(version) <==> version >= 1100
  {
  }

  /** One line of the load loop: malformed lines and lines without a navaid change nothing. */
  function InsertLine(db: Db, line: string, replaceFreq: bool, v: FreqChecks, dist: Chord): (r: Db)
    requires WellFormed(db)
    ensures WellFormed(r)
  {
    match ParseLine(line, v)
    case Malformed => db
    case Parsed(None) => db
    case Parsed(Some(nav)) => InsertNav(db, nav, replaceFreq, dist)
  }

  function InsertLines(db: Db, lines: seq<string>, replaceFreq: bool, v: FreqChecks, dist: Chord): (r: Db)
    requires WellFormed(db)
    ensures WellFormed(r)
  {
    if lines == [] then db
    else InsertLine(InsertLines(db, lines[..|lines| - 1], replaceFreq, v, dist), lines[|lines| - 1], replaceFreq, v, dist)
  }

  /** Offering one more line is one more step from what the shorter prefix produced. */
  lemma InsertLinesSnoc(db: Db, lines: seq<string>, i: nat, replaceFreq: bool, v: FreqChecks, dist: Chord)
    requires WellFormed(db) && i < |lines|
    ensures InsertLines(db, lines[..i + 1], replaceFreq, v, dist)
         == InsertLine(InsertLines(db, lines[..i], replaceFreq, v, dist), lines[i], replaceFreq, v, dist)
  {
    assert lines[..i + 1][..i] == lines[..i];
  }

  /**
   * `parse_earth_nav`: a file that cannot be opened or has an unsupported
   * header empties the whole database, earlier files' navaids included, and
   * fails; otherwise every line is offered to the database in order.
   */
  function ParseEarthNav(db: Db, file: Option<NavFile>, replaceFreq: bool, v: FreqChecks, dist: Chord): (r: (Db, bool))
    requires WellFormed(db)
    ensures WellFormed(r.0)
    ensures !r.1 ==> r.0.list == [] && r.0.pool == map[] && r.0.byArpt == map[]
    ensures r.1 <==> file.Some? && file.value.version.Some? && VersionOkAsWritten(file.value.version.value)
  {
    if file.None? || file.value.version.None? || !VersionOkAsWritten(file.value.version.value) then (EmptyDb(db.next), false)
    else (InsertLines(db, file.value.lines, replaceFreq, v, dist), true)
  }

  /** Not filed under any airport. */
  ghost predicate Unfiled(db: Db, g: nat)
  {
    forall k, i :: k in db.byArpt && 0 <= i < |db.byArpt[k]| ==> db.byArpt[k][i] != g
  }

  /** A navaid filed under no airport (no airport, or "ENRT") is never removed by a later one. */
  lemma InsertNavKeepsUnfiled(db: Db, nav: Navaid, replaceFreq: bool, dist: Chord, g: nat)
    requires WellFormed(db) && g in db.pool && Unfiled(db, g)
    ensures g in InsertNav(db, nav, replaceFreq, dist).pool && Unfiled(InsertNav(db, nav, replaceFreq, dist), g)
  {
    match FindOther(db, nav)
    case Some(other) =>
      FirstEntryWins(db, nav, replaceFreq, dist);
    case None =>
      var db1 := Appended(db, nav);
      if nav.icao != "" && nav.icao != "ENRT" {
        UnfiledAfterReplace(db1, db.next, dist, g);
      }
  }

  lemma UnfiledAfterReplace(db: Db, h: nat, dist: Chord, g: nat)
    requires ReadyForArpt(db, h) && g in db.pool && g != h && Unfiled(db, g)
    ensures g in ReplaceDup(db, h, dist).pool && Unfiled(ReplaceDup(db, h, dist), g)
  {
    var key := KeyOf(db.pool[h]);
    var lst := ArptList(db, key);
    assert g !in lst;
    match DupOf(db, h, dist)
    case None =>
    case Some(d) =>
      assert d != g;
  }

  /** Navaids filed under no airport survive the rest of the file. */
  lemma {:induction false} LinesKeepUnfiled(db: Db, lines: seq<string>, replaceFreq: bool, v: FreqChecks, dist: Chord, g: nat)
    requires WellFormed(db) && g in db.pool && Unfiled(db, g)
    ensures g in InsertLines(db, lines, replaceFreq, v, dist).pool
    ensures Unfiled(InsertLines(db, lines, replaceFreq, v, dist), g)
  {
    if lines != [] {
      var init := lines[..|lines| - 1];
      LinesKeepUnfiled(db, init, replaceFreq, v, dist, g);
      var mid := InsertLines(db, init, replaceFreq, v, dist);
      match ParseLine(lines[|lines| - 1], v)
      case Malformed =>
      case Parsed(None) =>
      case Parsed(Some(nav)) => InsertNavKeepsUnfiled(mid, nav, replaceFreq, dist, g);
    }
  }

  /** A file that is present on disk (it may still fail to open), or absent. */
  datatype Source = Absent | Present(file: Option<NavFile>)

  /** The four places `navaiddb_create` looks, in order of preference. */
  datatype Sources = Sources(userNav: Source, gatewayLocs: Source, customData: Source, defaultData: Option<NavFile>)

  function LoadSource(db: Db, s: Source, replaceFreq: bool, v: FreqChecks, dist: Chord): (r: (Db, bool))
    requires WellFormed(db)
    ensures WellFormed(r.0)
  {
    match s
    case Absent => (db, false)
    case Present(f) => ParseEarthNav(db, f, replaceFreq, v, dist)
  }

  /**
   * `navaiddb_create`: the user's navaids, the gateway localizers, then the
   * provider data (taking their frequencies); the stock data only when the
   * provider data is missing or fails. No database when the stock data is
   * needed and fails.
   */
  function Create(srcs: Sources, v: FreqChecks, dist: Chord): (r: Option<Db>)
    ensures r.Some? ==> WellFormed(r.value)
  {
    var (db1, _) := LoadSource(EmptyDb(0), srcs.userNav, false, v, dist);
    var (db2, _) := LoadSource(db1, srcs.gatewayLocs, false, v, dist);
    var (db3, customOk) := LoadSource(db2, srcs.customData, true, v, dist);
    if customOk then Some(db3)
    else
      var (db4, ok) := ParseEarthNav(db3, srcs.defaultData, true, v, dist);
      if ok then Some(db4) else None
  }

  /** A database exists exactly when the provider data or the stock data loads. */
  lemma CreateSucceeds(srcs: Sources, v: FreqChecks, dist: Chord)
    ensures Create(srcs, v, dist).Some? <==>
              (srcs.customData.Present? && srcs.customData.file.Some? && srcs.customData.file.value.version.Some?
               && VersionOkAsWritten(srcs.customData.file.value.version.value))
              || (srcs.defaultData.Some? && srcs.defaultData.value.version.Some?
                  && VersionOkAsWritten(srcs.defaultData.value.version.value))
  {
  }

  /** The scan of `replace_arpt_navaid_duplicate` stops at the first conflicting entry. */
  lemma {:induction false} FirstConflictAt(pool: map<nat, Navaid>, lst: seq<nat>, nav: Navaid, dist: Chord, i: nat)
    requires forall k :: 0 <= k < |lst| ==> lst[k] in pool && pool[lst[k]].navType == nav.navType
    requires i < |lst| && IsNavaidConflict(nav, pool[lst[i]], dist)
    requires forall k :: 0 <= k < i ==> !IsNavaidConflict(nav, pool[lst[k]], dist)
    ensures FirstConflict(pool, lst, nav, dist) == Some(i)
  {
    if i > 0 {
      FirstConflictAt(pool, lst[1..], nav, dist, i - 1);
    }
  }

  /** The loop of `replace_arpt_navaid_duplicate`: the index of the first conflicting entry. */
  method ScanForConflict(pool: map<nat, Navaid>, lst: seq<nat>, nav: Navaid, dist: Chord) returns (j: Option<nat>)
    requires forall k :: 0 <= k < |lst| ==> lst[k] in pool && pool[lst[k]].navType == nav.navType
    ensures j == FirstConflict(pool, lst, nav, dist)
  {
    var i := 0;
    while i < |lst|
      invariant 0 <= i <= |lst|
      invariant forall k :: 0 <= k < i ==> !IsNavaidConflict(nav, pool[lst[k]], dist)
    {
      if IsNavaidConflict(nav, pool[lst[i]], dist) {
        FirstConflictAt(pool, lst, nav, dist, i);
        return Some(i);
      }
      i := i + 1;
    }
    return None;
  }

  // ---------------------------------------------------------------------------
  // The database object
  // ---------------------------------------------------------------------------

  /** `navaiddb_t`: the record pool, the load-order list and the per-airport table. */
  class NavaidDbState {
    var pool: map<nat, Navaid>
    var list: seq<nat>
    var byArpt: map<ArptKey, seq<nat>>
    var next: nat

    function State(): Db
      reads this
    {
      Db(pool, list, byArpt, next)
    }

    /** An empty database. */
    constructor ()
      ensures State() == EmptyDb(0)
    {
      pool, list, byArpt, next := map[], [], map[], 0;
    }

    /** `navaids_flush`: every index emptied and every record freed. */
    method Flush()
      modifies this
      ensures State() == EmptyDb(old(next))
    {
      pool, list, byArpt := map[], [], map[];
    }

    /** `replace_arpt_navaid_duplicate`: the scan, then the removal and the filing of `h`. */
    method ReplaceArptDuplicate(h: nat, dist: Chord)
      requires ReadyForArpt(State(), h)
      modifies this
      ensures State() == ReplaceDup(old(State()), h, dist)
      ensures WellFormed(State())
    {
      ghost var db := State();
      ReplaceDupWellFormed(db, h, dist);
      var nav := pool[h];
      var key := KeyOf(nav);
      var lst := if key in byArpt then byArpt[key] else [];
      assert lst == ArptList(db, key);
      assert forall k :: 0 <= k < |lst| ==> lst[k] in pool && KeyOf(pool[lst[k]]) == key;
      var j := ScanForConflict(pool, lst, nav, dist);
      if j.Some? {
        var gone := lst[j.value];
        assert DupOf(db, h, dist) == Some(gone);
        list := Remove(list, gone);
        pool := pool - {gone};
        byArpt := byArpt[key := Remove(lst, gone) + [h]];
        assert State() == Dropped(db, h, gone);
      } else {
        assert DupOf(db, h, dist) == None;
        byArpt := byArpt[key := lst + [h]];
      }
    }

    /** One navaid of the load loop: dropped when it ties with a loaded one, appended otherwise. */
    method Insert(nav: Navaid, replaceFreq: bool, dist: Chord)
      requires WellFormed(State())
      modifies this
      ensures State() == InsertNav(old(State()), nav, replaceFreq, dist)
      ensures WellFormed(State())
    {
      var other := FindOther(State(), nav);
      if other.Some? {
        if replaceFreq {
          pool := pool[other.value := pool[other.value].(freq := nav.freq)];
        }
        return;
      }
      ghost var db := State();
      var h := next;
      pool, list, next := pool[h := nav], list + [h], next + 1;
      assert State() == Appended(db, nav);
      if nav.icao != "" && nav.icao != "ENRT" {
        ReplaceArptDuplicate(h, dist);
      }
    }

    /** One pass of the `getline` loop: parse the line and offer its navaid, if any. */
    method InsertLineOf(line: string, replaceFreq: bool, v: FreqChecks, dist: Chord)
      requires WellFormed(State())
      modifies this
      ensures State() == InsertLine(old(State()), line, replaceFreq, v, dist)
      ensures WellFormed(State())
    {
      var parsed := ParseLine(line, v);
      if parsed.Parsed? && parsed.nav.Some? {
        Insert(parsed.nav.value, replaceFreq, dist);
      }
    }

    /** `parse_earth_nav`: the header check, then every line in order. */
    method ParseFile(file: Option<NavFile>, replaceFreq: bool, v: FreqChecks, dist: Chord) returns (ok: bool)
      requires WellFormed(State())
      modifies this
      ensures (State(), ok) == ParseEarthNav(old(State()), file, replaceFreq, v, dist)
      ensures WellFormed(State())
    {
      if file.None? || file.value.version.None? || !VersionOkAsWritten(file.value.version.value) {
        Flush();
        return false;
      }
      InsertAllLines(file.value.lines, replaceFreq, v, dist);
      return true;
    }

    /** The `getline` loop of `parse_earth_nav`: every line offered in order. */
    method InsertAllLines(lines: seq<string>, replaceFreq: bool, v: FreqChecks, dist: Chord)
      requires WellFormed(State())
      modifies this
      ensures State() == InsertLines(old(State()), lines, replaceFreq, v, dist)
      ensures WellFormed(State())
    {
      ghost var start := State();
      var i := 0;
      while i < |lines|
        invariant 0 <= i <= |lines|
        invariant State() == InsertLines(start, lines[..i], replaceFreq, v, dist)
        invariant WellFormed(State())
      {
        InsertLinesSnoc(start, lines, i, replaceFreq, v, dist);
        InsertLineOf(lines[i], replaceFreq, v, dist);
        i := i + 1;
      }
      assert lines[..i] == lines;
    }
  }

  /** `navaiddb_create`: None where the C function returns NULL. */
  method CreateDb(srcs: Sources, v: FreqChecks, dist: Chord) returns (db: Option<NavaidDbState>)
    ensures db.Some? <==> Create(srcs, v, dist).Some?
    ensures db.Some? ==> fresh(db.value) && db.value.State() == Create(srcs, v, dist).value
  {
    var d := new NavaidDbState();
    var ok := LoadInto(d, srcs.userNav, false, v, dist);
    ok := LoadInto(d, srcs.gatewayLocs, false, v, dist);
    var customOk := LoadInto(d, srcs.customData, true, v, dist);
    if customOk {
      return Some(d);
    }
    ok := d.ParseFile(srcs.defaultData, true, v, dist);
    if !ok {
      return None;
    }
    return Some(d);
  }

  /** The `file_exists` test in front of `parse_earth_nav`. */
  method LoadInto(d: NavaidDbState, s: Source, replaceFreq: bool, v: FreqChecks, dist: Chord) returns (ok: bool)
    requires WellFormed(d.State())
    modifies d
    ensures (d.State(), ok) == LoadSource(old(d.State()), s, replaceFreq, v, dist)
    ensures WellFormed(d.State())
  {
    if s.Absent? {
      return false;
    }
    ok := d.ParseFile(s.file, replaceFreq, v, dist);
  }

  // ---------------------------------------------------------------------------
  // Query helpers
  // ---------------------------------------------------------------------------

  /** `navaid_select`: each given criterion must hold; the type criterion is a mask of types. */
  function NavaidSelect(nav: Navaid, id: Option<string>, freq: Option<nat>, types: Option<bv32>): (r: bool)
    ensures r <==> (id.None? || id.value == nav.id) && (freq.None? || freq.value == nav.freq)
                   && (types.None? || TypeValue(nav.navType) & types.value != 0)
  {
    (id.None? || (StrCmpZeroIffEqual(id.value, nav.id); StrCmp(id.value, nav.id) == 0))
    && (freq.None? || freq.value == nav.freq)
    && (types.None? || TypeValue(nav.navType) & types.value != 0)
  }

  /** Selecting by a single type picks exactly the navaids of that type. */
  lemma SelectByOneType(nav: Navaid, t: NavaidType)
    ensures NavaidSelect(nav, None, None, Some(TypeValue(t))) <==> nav.navType == t
  {
    var a, b := TypeValue(nav.navType), TypeValue(t);
    var hit := a & b != 0;
    TypeBitsDisjoint(nav.navType, t);
    assert hit <==> nav.navType == t;
    assert NavaidSelect(nav, None, None, Some(b)) == hit;
  }

  /** `navaid_type2str`; a landing threshold point is named "TLS". */
  function Type2Str(t: NavaidType): (s: string)
    ensures |s| > 0
    ensures t == Ltp <==> s == "TLS"
  {
    match t
    case Ndb => "NDB"
    case Vor => "VOR"
    case Loc => "LOC"
    case Gs => "GS"
    case Mrk => "MRK"
    case Dme => "DME"
    case Fpap => "FPAP"
    case Ltp => "TLS"
    case Gls => "GLS"
  }

  /** The name back to its type. */
  function Str2Type(s: string): (r: Option<NavaidType>)
    ensures r.Some? ==> Type2Str(r.value) == s
  {
    if s == "NDB" then Some(Ndb)
    else if s == "VOR" then Some(Vor)
    else if s == "LOC" then Some(Loc)
    else if s == "GS" then Some(Gs)
    else if s == "MRK" then Some(Mrk)
    else if s == "DME" then Some(Dme)
    else if s == "FPAP" then Some(Fpap)
    else if s == "TLS" then Some(Ltp)
    else if s == "GLS" then Some(Gls)
    else None
  }

  /** A type's name identifies it, so distinct types have distinct names. */
  lemma Type2StrRoundTrip(t: NavaidType)
    ensures Str2Type(Type2Str(t)) == Some(t)
  {
  }

  /** `vor2dme`: a rough DME transmit frequency for a VOR frequency, truncated to an integer. */
  function Vor2Dme(freq: nat): (r: int)
    ensures freq == 108000000 ==> r == 1041000000
    ensures freq == 118000000 ==> r == 1150000000
    ensures 108000000 <= freq <= 118000000 ==> 1041000000 <= r <= 1150000000
  {
    var fract := (freq as real - 108000000.0) / (118000000.0 - 108000000.0);
    Trunc(1041000000.0 + 109000000.0 * fract)
  }

  /**
   * `navaid_act_freq`: the frequency a navaid transmits on; a GS on
   * 332 MHz, a DME on the band 1041-1150 MHz mapped from its VOR frequency.
   */
  function ActFreq(t: NavaidType, refFreq: nat): (r: int)
    ensures t == Gs ==> r == 332000000
    ensures t != Gs && t != Dme ==> r == refFreq
  {
    match t
    case Gs => 332000000
    case Dme => Vor2Dme(refFreq)
    case _ => refFreq
  }

  /** Over the VOR band 108-118 MHz the DME frequency runs from 1041 to 1150 MHz, never decreasing. */
  lemma DmeFreqBand(f: nat, g: nat)
    requires 108000000 <= f <= g <= 118000000
    ensures 1041000000 <= ActFreq(Dme, f) <= ActFreq(Dme, g) <= 1150000000
  {
    var ff := (f as real - 108000000.0) / 10000000.0;
    var fg := (g as real - 108000000.0) / 10000000.0;
    assert 0.0 <= ff <= fg <= 1.0;
    assert 109000000.0 * ff <= 109000000.0 * fg;
    assert ActFreq(Dme, 118000000) == 1150000000;
    assert ActFreq(Dme, 108000000) == 1041000000;
  }
}

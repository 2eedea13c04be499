/**
 * The terrain store and point-to-point driver behind the Java `RadioModel`
 * class: an 18 x 36 table of 10-degree elevation tiles (each with an
 * optional 1-bit water mask), loaded once by `init` and dropped by `fini`,
 * and the point-to-point computation that samples a straight lat/lon relief
 * profile between two stations and hands it to the ITM engine.
 *
 * The directory listing, the PNG decoder and the shapefile rasteriser are
 * inputs (`DirEntry`); the ITM engine and the WGS-84 ECEF chord distance are
 * function parameters. Doubles are modelled as exact reals.
 */
module RadioModel {
  import opened Common
  import CParse
  import ItmShim

  const NumLat: int := 18
  const NumLon: int := 36
  const WaterMaskRes: int := 2000

  const MinSpacing: int := 10
  const MaxSpacing: int := 100000
  const DflSpacing: int := 500
  const DflMaxPts: int := 500
  const DflMaxDist: int := 600000
  const MinMaxDist: int := 2000
  const MaxMaxDist: int := 1000000

  /** Closest the two stations are assumed to be (meters) and lowest antenna height (meters). */
  const MinDist: real := 1000.0
  const MinStaHgt: real := 3.0

  /** Ground constants from the ITM shim header, blended by the water fraction. */
  const ConductGndAvg: real := 0.005
  const ConductWaterFresh: real := 0.01
  const DielecGndAvg: real := 15.0
  const DielecWaterFresh: real := 81.0
  const NsAvg: real := 301.0
  const EnvContinentalTemperate: int := 5

  newtype byte = x: int | 0 <= x < 256

  datatype GeoPos2 = GeoPos2(lat: real, lon: real)
  datatype GeoPos3 = GeoPos3(lat: real, lon: real, elev: real)

  predicate ValidPos(p: GeoPos2) { IsValidLat(p.lat) && IsValidLon(p.lon) }
  predicate ValidPos3(p: GeoPos3) { IsValidLat(p.lat) && IsValidLon(p.lon) && IsValidElev(p.elev) }
  function To2(p: GeoPos3): GeoPos2 { GeoPos2(p.lat, p.lon) }

  // ---------------------------------------------------------------------
  // Elevation samples and tiles
  // ---------------------------------------------------------------------

  /**
   * `ELEV_SAMPLE2MET`: the alpha channel of the earth-orbit normal maps holds
   * elevation upside down, 255 for the lowest and 0 for the highest point,
   * 36.337 m per step, offset by 418 m below sea level.
   */
  function ElevSample2Met(sample: int): (m: int)
    requires 0 <= sample <= 255
    ensures -418 <= m <= 8848
  {
    Round((255 - sample) as real * 36.337 - 418.0)
  }

  /** The two ends of the sample range: the Dead Sea shore and Mount Everest. */
  lemma ElevSampleEndpoints()
    ensures ElevSample2Met(255) == -418
    ensures ElevSample2Met(0) == 8848
  {
    assert (255 - 0) as real * 36.337 - 418.0 == 8847.935;
  }

  /** A larger sample never decodes to a higher elevation. */
  lemma ElevSampleNonIncreasing(a: int, b: int)
    requires 0 <= a <= b <= 255
    ensures ElevSample2Met(a) >= ElevSample2Met(b)
  {
    assert (255 - b) as real * 36.337 <= (255 - a) as real * 36.337;
    RoundMonotone((255 - b) as real * 36.337 - 418.0, (255 - a) as real * 36.337 - 418.0);
  }

  /** Every decoded sample lies between the two ends of the range. */
  lemma ElevSampleRange(s: int)
    requires 0 <= s <= 255
    ensures -418 <= ElevSample2Met(s) <= 8848
  {
    ElevSampleEndpoints();
    ElevSampleNonIncreasing(0, s);
    ElevSampleNonIncreasing(s, 255);
  }

  /** A water mask: 2000 rows of `strideWords` 32-bit words, one bit per pixel. */
  datatype WaterMask = WaterMask(strideWords: nat, words: seq<bv32>)

  /** A loaded tile: a w x h grid of elevations (meters), rows from north to south. */
  datatype Tile = Tile(w: nat, h: nat, points: seq<int>, mask: Option<WaterMask>)

  predicate ValidMask(m: WaterMask) {
    m.strideWords * 32 >= WaterMaskRes && |m.words| == m.strideWords * WaterMaskRes
  }

  predicate ValidTile(t: Tile) {
    t.w > 0 && t.h > 0 && |t.points| == t.w * t.h
    && (t.mask.Some? ==> ValidMask(t.mask.value))
  }

  lemma GridIndex(x: int, y: int, w: int, h: int)
    requires 0 <= x < w && 0 <= y < h
    ensures 0 <= y * w + x < w * h
  {
    assert y * w <= (h - 1) * w;
  }

  // ---------------------------------------------------------------------
  // File names
  // ---------------------------------------------------------------------

  /** Position of the last '.' in `s` (`strrchr(s, '.')`). */
  function LastDot(s: string): (r: Option<nat>)
    ensures r.Some? ==> r.value < |s| && s[r.value] == '.' && '.' !in s[r.value + 1..]
    ensures r.None? ==> '.' !in s
  {
    if |s| == 0 then None
    else if s[|s| - 1] == '.' then Some(|s| - 1)
    else
      var r := LastDot(s[..|s| - 1]);
      assert r.Some? ==> s[r.value + 1..] == s[..|s| - 1][r.value + 1..] + [s[|s| - 1]];
      assert s == s[..|s| - 1] + [s[|s| - 1]];
      r
  }

  /** `file_ext`: the text after the last '.' is exactly `ext`. */
  function FileExt(name: string, ext: string): (b: bool)
    ensures b <==> exists i :: 0 <= i < |name| && name[i] == '.' && '.' !in name[i + 1..] && name[i + 1..] == ext
  {
    match LastDot(name)
    case None => false
    case Some(i) => name[i + 1..] == ext
  }

  /** For an extension without a dot, `file_ext` is a suffix test on "." + ext. */
  lemma FileExtIsSuffix(name: string, ext: string)
    requires '.' !in ext
    ensures FileExt(name, ext) <==> |name| > |ext| && name[|name| - |ext| - 1..] == ['.'] + ext
  {
    var p := |name| - |ext| - 1;
    if |name| > |ext| && name[p..] == ['.'] + ext {
      assert name[p] == '.';
      assert name[p + 1..] == ext;
      var r := LastDot(name);
      assert r.Some?;
      assert r.value == p;
    }
  }

  /**
   * The directory-entry filter of `init`: `sscanf("%d%d")` yields two
   * integers, the name is 15 characters long, its extension is "png" and
   * the two integers are a valid latitude and longitude.
   */
  function ParseTileName(name: string): (r: Option<(int, int)>)
    ensures r.Some? ==> |name| == 15 && FileExt(name, "png")
                        && IsValidLat(r.value.0 as real) && IsValidLon(r.value.1 as real)
    ensures r.Some? ==> CParse.ScanTwoInts(name) == Some(r.value)
    ensures CParse.ScanTwoInts(name).Some? && |name| == 15 && FileExt(name, "png")
            && IsValidLat(CParse.ScanTwoInts(name).value.0 as real)
            && IsValidLon(CParse.ScanTwoInts(name).value.1 as real)
            ==> r == CParse.ScanTwoInts(name)
  {
    match CParse.ScanTwoInts(name)
    case None => None
    case Some(ll) =>
      if |name| == 15 && FileExt(name, "png") && IsValidLat(ll.0 as real) && IsValidLon(ll.1 as real)
      then Some(ll) else None
  }

  /** The slot `init` computes for a tile file: (floor(lat/10) + 9, floor(lon/10) + 18). */
  function TileSlotAsWritten(lat: int, lon: int): (slot: (int, int))
    ensures slot == (lat / 10 + 9, lon / 10 + 18)
  {
    FloorDivTen(lat);
    FloorDivTen(lon);
    (((lat as real) / 10.0).Floor + 9, ((lon as real) / 10.0).Floor + 18)
  }

  predicate InTable(slot: (int, int)) {
    0 <= slot.0 < NumLat && 0 <= slot.1 < NumLon
  }

  /** A tile name at latitude 90 passes the validity checks yet addresses row 18 of 18. */
  lemma TileSlotAsWrittenLeavesTable()
    ensures IsValidLat(90.0) && IsValidLon(0.0)
    ensures !InTable(TileSlotAsWritten(90, 0))
  {
    assert ((90 as real) / 10.0).Floor == 9;
  }

  /**
   * The slot a tile file is stored in, or None when the name is not a tile
   * name or its slot would fall outside the table.
   */
  function TileNameSlot(name: string): (r: Option<(int, int)>)
    ensures r.Some? ==> InTable(r.value)
  {
    match ParseTileName(name)
    case None => None
    case Some(ll) =>
      var slot := TileSlotAsWritten(ll.0, ll.1);
      if InTable(slot) then Some(slot) else None
  }

  /** Every valid tile name below latitude 90 and longitude 180 gets a slot of the table. */
  lemma TileNameSlotInTable(name: string)
    requires ParseTileName(name).Some?
    requires ParseTileName(name).value.0 < 90 && ParseTileName(name).value.1 < 180
    ensures TileNameSlot(name) == Some(TileSlotAsWritten(ParseTileName(name).value.0, ParseTileName(name).value.1))
  {
    var ll := ParseTileName(name).value;
    FloorDivTen(ll.0);
    FloorDivTen(ll.1);
  }

  lemma FloorDivTen(a: int)
    ensures ((a as real) / 10.0).Floor == a / 10
  {
    var q := a / 10;
    assert q * 10 <= a < q * 10 + 10;
    assert (q as real) <= (a as real) / 10.0 < (q as real) + 1.0;
  }

  // ---------------------------------------------------------------------
  // Looking up a point
  // ---------------------------------------------------------------------

  /** The table row `tile_elev_read` computes: floor((lat + 90) / 10). */
  function TileRowAsWritten(lat: real): int { ((lat + 90.0) / 10.0).Floor }
  /** The table column `tile_elev_read` computes: floor((lon + 180) / 10). */
  function TileColAsWritten(lon: real): int { ((lon + 180.0) / 10.0).Floor }

  /** The north pole and the antimeridian are valid coordinates, yet they address row 18 and column 36. */
  lemma TileLookupAsWrittenLeavesTable()
    ensures IsValidLat(90.0) && TileRowAsWritten(90.0) == NumLat
    ensures IsValidLon(180.0) && TileColAsWritten(180.0) == NumLon
  {
  }

  /**
   * The table row of a latitude, with the north pole folded into the
   * northernmost row, whose in-tile fraction then reaches 1.
   */
  function TileRow(lat: real): (r: int)
    requires IsValidLat(lat)
    ensures 0 <= r < NumLat
    ensures 0.0 <= (lat + 90.0) / 10.0 - r as real <= 1.0
    ensures lat < 90.0 ==> r == TileRowAsWritten(lat)
  {
    MinInt(TileRowAsWritten(lat), NumLat - 1)
  }

  /** The table column of a longitude, with 180 folded into the easternmost column. */
  function TileCol(lon: real): (r: int)
    requires IsValidLon(lon)
    ensures 0 <= r < NumLon
    ensures 0.0 <= (lon + 180.0) / 10.0 - r as real <= 1.0
    ensures lon < 180.0 ==> r == TileColAsWritten(lon)
  {
    MinInt(TileColAsWritten(lon), NumLon - 1)
  }

  /** A point inside the 10-degree cell of a tile file is looked up in that file's slot. */
  lemma TileSlotMatchesLookup(lat: int, lon: int, p: GeoPos2)
    requires -90 <= lat < 90 && -180 <= lon < 180
    requires ((lat as real) / 10.0).Floor as real * 10.0 <= p.lat < ((lat as real) / 10.0).Floor as real * 10.0 + 10.0
    requires ((lon as real) / 10.0).Floor as real * 10.0 <= p.lon < ((lon as real) / 10.0).Floor as real * 10.0 + 10.0
    ensures ValidPos(p)
    ensures TileSlotAsWritten(lat, lon) == (TileRow(p.lat), TileCol(p.lon))
  {
    FloorDivTen(lat);
    FloorDivTen(lon);
    var a := lat / 10;
    var b := lon / 10;
    assert -9 <= a <= 8 && -18 <= b <= 17;
    assert (a + 9) as real <= (p.lat + 90.0) / 10.0 < (a + 10) as real;
    assert (b + 18) as real <= (p.lon + 180.0) / 10.0 < (b + 19) as real;
  }

  /** Column of the 2000 x 2000 water mask for an in-tile fraction (west to east). */
  function MaskColumn(fractLon: real): (x: int)
    ensures 0 <= x < WaterMaskRes
    ensures fractLon <= 0.0 ==> x == 0
    ensures fractLon >= 1.0 ==> x == WaterMaskRes - 1
  {
    Clampi(Round(fractLon * (WaterMaskRes - 1) as real), 0, WaterMaskRes - 1)
  }

  /** Row of the water mask for an in-tile fraction; the mask's first row is the tile's north edge. */
  function MaskRow(fractLat: real): (y: int)
    ensures 0 <= y < WaterMaskRes
    ensures fractLat >= 1.0 ==> y == 0
    ensures fractLat <= 0.0 ==> y == WaterMaskRes - 1
  {
    Clampi(Round((1.0 - fractLat) * (WaterMaskRes - 1) as real), 0, WaterMaskRes - 1)
  }

  /** Each mask pixel is reached exactly by the fraction x / 1999 that names its centre. */
  lemma MaskColumnAtPixel(x: int)
    requires 0 <= x < WaterMaskRes
    ensures MaskColumn(x as real / 1999.0) == x
  {
    assert (x as real / 1999.0) * 1999.0 == x as real;
    assert (x as real + 0.5).Floor == x;
  }

  /** Bit `x & 31` of 32-bit word `x / 32` of row `y`. */
  function MaskBit(m: WaterMask, x: int, y: int): bool
    requires ValidMask(m) && 0 <= x < WaterMaskRes && 0 <= y < WaterMaskRes
  {
    GridIndex(x / 32, y, m.strideWords, WaterMaskRes);
    var word := m.words[y * m.strideWords + x / 32];
    (word >> (x % 32)) & 1 == 1
  }

  /** `tile_water_mask_read`: false without a mask, otherwise the addressed pixel's bit. */
  function WaterMaskRead(t: Tile, fractLat: real, fractLon: real): (r: bool)
    requires ValidTile(t)
    ensures t.mask.None? ==> !r
    ensures t.mask.Some? ==> r == MaskBit(t.mask.value, MaskColumn(fractLon), MaskRow(fractLat))
  {
    if t.mask.None? then false
    else MaskBit(t.mask.value, MaskColumn(fractLon), MaskRow(fractLat))
  }

  /**
   * The two neighbouring sample indices along one axis of `n` samples for a
   * coordinate `f` in [0, n - 1]: `(unsigned)f` and the next one, kept
   * inside the axis.
   */
  function Neighbours(n: int, f: real): (r: (int, int))
    requires n > 0 && 0.0 <= f <= (n - 1) as real
    ensures 0 <= r.0 <= r.1 < n
    ensures 0.0 <= f - r.0 as real < 1.0
  {
    var lo := Trunc(f);
    (lo, MinInt(lo + 1, n - 1))
  }

  /** The sample in column x, row y of a tile. */
  function Sample(t: Tile, x: int, y: int): real
    requires ValidTile(t) && 0 <= x < t.w && 0 <= y < t.h
  {
    GridIndex(x, y, t.w, t.h);
    t.points[y * t.w + x] as real
  }

  /** Column coordinate of an in-tile fraction: `fract_lon * w`, clamped to [0, w - 1]. */
  function ColumnCoord(t: Tile, fractLon: real): (xf: real)
    requires ValidTile(t)
    ensures 0.0 <= xf <= (t.w - 1) as real
  {
    ClampReal(fractLon * t.w as real, 0.0, (t.w - 1) as real)
  }

  /** Row coordinate of an in-tile fraction: `(1 - fract_lat) * (h - 1)`, rows running north to south. */
  function RowCoord(t: Tile, fractLat: real): (yf: real)
    requires ValidTile(t)
    ensures 0.0 <= yf <= (t.h - 1) as real
  {
    ClampReal((1.0 - fractLat) * (t.h - 1) as real, 0.0, (t.h - 1) as real)
  }

  /** `elev_filter_lin`: bilinear interpolation between the four samples around the point. */
  function ElevFilterLin(t: Tile, fractLat: real, fractLon: real): real
    requires ValidTile(t)
  {
    var xf := ColumnCoord(t, fractLon);
    var yf := RowCoord(t, fractLat);
    var x := Neighbours(t.w, xf);
    var y := Neighbours(t.h, yf);
    Wavg(Wavg(Sample(t, x.0, y.0), Sample(t, x.1, y.0), xf - x.0 as real),
         Wavg(Sample(t, x.0, y.1), Sample(t, x.1, y.1), xf - x.0 as real),
         yf - y.0 as real)
  }

  /** Interpolation never leaves the range of the tile's samples. */
  lemma ElevFilterLinBounded(t: Tile, fractLat: real, fractLon: real, lo: real, hi: real)
    requires ValidTile(t)
    requires forall k :: 0 <= k < |t.points| ==> lo <= t.points[k] as real <= hi
    ensures lo <= ElevFilterLin(t, fractLat, fractLon) <= hi
  {
    var xf := ColumnCoord(t, fractLon);
    var yf := RowCoord(t, fractLat);
    var x := Neighbours(t.w, xf);
    var y := Neighbours(t.h, yf);
    var e1, e2 := Sample(t, x.0, y.0), Sample(t, x.1, y.0);
    var e3, e4 := Sample(t, x.0, y.1), Sample(t, x.1, y.1);
    GridIndex(x.0, y.0, t.w, t.h);
    GridIndex(x.1, y.0, t.w, t.h);
    GridIndex(x.0, y.1, t.w, t.h);
    GridIndex(x.1, y.1, t.w, t.h);
    assert lo <= e1 <= hi && lo <= e2 <= hi && lo <= e3 <= hi && lo <= e4 <= hi;
    WavgBetween(e1, e2, xf - x.0 as real, lo, hi);
    WavgBetween(e3, e4, xf - x.0 as real, lo, hi);
    WavgBetween(Wavg(e1, e2, xf - x.0 as real), Wavg(e3, e4, xf - x.0 as real), yf - y.0 as real, lo, hi);
  }

  /** The north-west corner of a tile reads its first sample, the south-west corner the first sample of its last row. */
  lemma ElevFilterLinCorners(t: Tile)
    requires ValidTile(t)
    ensures ElevFilterLin(t, 1.0, 0.0) == Sample(t, 0, 0)
    ensures ElevFilterLin(t, 0.0, 0.0) == Sample(t, 0, t.h - 1)
  {
    assert RowCoord(t, 0.0) == (t.h - 1) as real;
    assert Neighbours(t.h, (t.h - 1) as real).0 == t.h - 1;
  }

  // ---------------------------------------------------------------------
  // The tile table
  // ---------------------------------------------------------------------

  type Grid = array2<Option<Tile>>

  ghost predicate ValidGrid(g: Grid)
    reads g
  {
    g.Length0 == NumLat && g.Length1 == NumLon
    && forall i, j :: 0 <= i < NumLat && 0 <= j < NumLon && g[i, j].Some? ==> ValidTile(g[i, j].value)
  }

  ghost predicate NoTiles(g: Grid)
    reads g
  {
    forall i, j :: 0 <= i < g.Length0 && 0 <= j < g.Length1 ==> g[i, j].None?
  }

  /** The tile covering `p`, if one is loaded. */
  function TileAt(g: Grid, p: GeoPos2): Option<Tile>
    requires ValidGrid(g) && ValidPos(p)
    reads g
  {
    g[TileRow(p.lat), TileCol(p.lon)]
  }

  function FractLat(p: GeoPos2): (f: real)
    requires ValidPos(p)
    ensures 0.0 <= f <= 1.0
  {
    (p.lat + 90.0) / 10.0 - TileRow(p.lat) as real
  }

  function FractLon(p: GeoPos2): (f: real)
    requires ValidPos(p)
    ensures 0.0 <= f <= 1.0
  {
    (p.lon + 180.0) / 10.0 - TileCol(p.lon) as real
  }

  /** `tile_elev_read`: the interpolated elevation at `p`, or 0 where no tile is loaded. */
  function ElevAt(g: Grid, p: GeoPos2): (e: real)
    requires ValidGrid(g) && ValidPos(p)
    reads g
    ensures TileAt(g, p).None? ==> e == 0.0
  {
    match TileAt(g, p)
    case None => 0.0
    case Some(t) => ElevFilterLin(t, FractLat(p), FractLon(p))
  }

  /**
   * What `tile_elev_read` stores through its `water` pointer: the water-mask
   * bit when a tile is loaded; None when no tile is loaded, in which case
   * the C code leaves the caller's variable untouched.
   */
  function WaterWritten(g: Grid, p: GeoPos2): (w: Option<bool>)
    requires ValidGrid(g) && ValidPos(p)
    reads g
    ensures w.None? <==> TileAt(g, p).None?
  {
    match TileAt(g, p)
    case None => None
    case Some(t) => Some(WaterMaskRead(t, FractLat(p), FractLon(p)))
  }

  /** The water flag of a profile point: a point without terrain data counts as land. */
  function WaterAt(g: Grid, p: GeoPos2): (w: bool)
    requires ValidGrid(g) && ValidPos(p)
    reads g
    ensures TileAt(g, p).None? ==> !w
    ensures TileAt(g, p).Some? ==> Some(w) == WaterWritten(g, p)
  {
    match WaterWritten(g, p)
    case None => false
    case Some(b) => b
  }

  /**
   * The water flag `relief_construct` leaves in a profile slot, as written:
   * the slot comes from `malloc` and is only assigned where a tile is loaded,
   * so elsewhere it keeps whatever `junk` the allocation held.
   */
  function WaterAtAsWritten(g: Grid, p: GeoPos2, junk: bool): (b: bool)
    requires ValidGrid(g) && ValidPos(p)
    reads g
    ensures TileAt(g, p).Some? ==> b == WaterAt(g, p)
    ensures TileAt(g, p).None? ==> b == junk
  {
    match WaterWritten(g, p)
    case None => junk
    case Some(b) => b
  }

  /** Without a tile, the as-written water flag is the uninitialised memory itself. */
  lemma WaterAtAsWrittenReadsJunk(g: Grid, p: GeoPos2)
    requires ValidGrid(g) && ValidPos(p) && TileAt(g, p).None?
    ensures WaterAtAsWritten(g, p, true) != WaterAtAsWritten(g, p, false)
    ensures !WaterAt(g, p)
  {
  }

  // ---------------------------------------------------------------------
  // Relief profile and point-to-point
  // ---------------------------------------------------------------------

  /** The i-th of n profile points: the fraction i/(n-1) of the straight lat/lon segment. */
  function ReliefPoint(p1: GeoPos2, p2: GeoPos2, n: int, i: int): (p: GeoPos2)
    requires n >= 2 && 0 <= i < n
    requires ValidPos(p1) && ValidPos(p2)
    ensures ValidPos(p)
    ensures i == 0 ==> p == p1
    ensures i == n - 1 ==> p == p2
  {
    var f := i as real / (n - 1) as real;
    assert 0.0 <= f <= 1.0;
    assert i == n - 1 ==> f == 1.0;
    WavgBetween(p1.lat, p2.lat, f, -90.0, 90.0);
    WavgBetween(p1.lon, p2.lon, f, -180.0, 180.0);
    GeoPos2(Wavg(p1.lat, p2.lat, f), Wavg(p1.lon, p2.lon, f))
  }

  /** The elevation profile along the segment. */
  function ReliefProfile(g: Grid, p1: GeoPos2, p2: GeoPos2, n: int): (e: seq<real>)
    requires ValidGrid(g) && ValidPos(p1) && ValidPos(p2) && n >= 2
    reads g
    ensures |e| == n
    ensures e[0] == ElevAt(g, p1) && e[n - 1] == ElevAt(g, p2)
  {
    var e := seq(n, i requires 0 <= i < n && ValidGrid(g) reads g => ElevAt(g, ReliefPoint(p1, p2, n, i)));
    assert e[0] == ElevAt(g, ReliefPoint(p1, p2, n, 0));
    assert e[n - 1] == ElevAt(g, ReliefPoint(p1, p2, n, n - 1));
    e
  }

  /** The water flags along the segment. */
  function ReliefWater(g: Grid, p1: GeoPos2, p2: GeoPos2, n: int): (w: seq<bool>)
    requires ValidGrid(g) && ValidPos(p1) && ValidPos(p2) && n >= 2
    reads g
    ensures |w| == n
    ensures w[0] == WaterAt(g, p1)
  {
    var w := seq(n, i requires 0 <= i < n && ValidGrid(g) reads g => WaterAt(g, ReliefPoint(p1, p2, n, i)));
    assert w[0] == WaterAt(g, ReliefPoint(p1, p2, n, 0));
    w
  }

  /**
   * `relief_construct`: fills `elev` and `water` with the n samples of the
   * segment from `p1` to `p2`.
   */
  method ReliefConstruct(g: Grid, p1: GeoPos2, p2: GeoPos2, elev: array<real>, water: array<bool>, n: nat)
    requires ValidGrid(g) && ValidPos(p1) && ValidPos(p2) && n >= 2
    requires elev.Length == n && water.Length == n
    modifies elev, water
    ensures elev[..] == ReliefProfile(g, p1, p2, n)
    ensures water[..] == ReliefWater(g, p1, p2, n)
  {
    var i := 0;
    while i < n
      invariant 0 <= i <= n
      invariant forall k :: 0 <= k < i ==> elev[k] == ElevAt(g, ReliefPoint(p1, p2, n, k))
      invariant forall k :: 0 <= k < i ==> water[k] == WaterAt(g, ReliefPoint(p1, p2, n, k))
    {
      var p := ReliefPoint(p1, p2, n, i);
      elev[i] := ElevAt(g, p);
      water[i] := WaterAt(g, p);
      i := i + 1;
    }
  }

  /** Number of set flags. */
  function CountTrue(s: seq<bool>): (c: nat)
    ensures c <= |s|
  {
    if s == [] then 0 else CountTrue(s[..|s| - 1]) + (if s[|s| - 1] then 1 else 0)
  }

  /** The share of water along the profile, clamped to [0, 1]. */
  function WaterFraction(s: seq<bool>): (f: real)
    requires |s| > 0
    ensures 0.0 <= f <= 1.0
  {
    ClampReal(CountTrue(s) as real / |s| as real, 0.0, 1.0)
  }

  /** The summing loop of `p2p_impl` and its clamped quotient. */
  method WaterFract(water: array<bool>) returns (f: real)
    requires water.Length > 0
    ensures f == WaterFraction(water[..])
  {
    var sum := 0;
    var i := 0;
    while i < water.Length
      invariant 0 <= i <= water.Length
      invariant sum == CountTrue(water[..i])
    {
      assert water[..i + 1][..i] == water[..i];
      sum := sum + if water[i] then 1 else 0;
      i := i + 1;
    }
    assert water[..i] == water[..];
    f := ClampReal(sum as real / water.Length as real, 0.0, 1.0);
  }

  /** A profile over land only has water fraction 0, one over water only has 1. */
  lemma {:induction false} WaterFractionExtremes(s: seq<bool>)
    requires |s| > 0
    ensures (forall k :: 0 <= k < |s| ==> !s[k]) ==> WaterFraction(s) == 0.0
    ensures (forall k :: 0 <= k < |s| ==> s[k]) ==> WaterFraction(s) == 1.0
  {
    CountTrueExtremes(s);
  }

  lemma {:induction false} CountTrueExtremes(s: seq<bool>)
    ensures (forall k :: 0 <= k < |s| ==> !s[k]) ==> CountTrue(s) == 0
    ensures (forall k :: 0 <= k < |s| ==> s[k]) ==> CountTrue(s) == |s|
  {
    if s != [] {
      CountTrueExtremes(s[..|s| - 1]);
    }
  }

  /** The parameters `init` leaves in force. */
  datatype Config = Config(spacing: int, maxPts: int, maxDist: int)

  predicate ValidConfig(c: Config) {
    MinSpacing <= c.spacing <= MaxSpacing && c.maxPts >= 2 && MinMaxDist <= c.maxDist <= MaxMaxDist
  }

  /** The arguments of one point-to-point computation. */
  datatype Link = Link(freqMhz: real, horizPol: bool, xmitGain: real, recvMinGain: real,
                       sta1: GeoPos3, sta2: GeoPos3)

  /** The straight-line (ECEF chord) distance between two stations on the WGS-84 ellipsoid. */
  type Chord = (GeoPos3, GeoPos3) -> real

  /** The distance the model works with: the chord clamped to [1000 m, max_dist]. */
  function LinkDist(c: Config, l: Link, chord: Chord): (d: real)
    requires ValidConfig(c)
    ensures MinDist <= d <= c.maxDist as real
  {
    ClampReal(chord(l.sta1, l.sta2), MinDist, c.maxDist as real)
  }

  /** Number of relief samples: dist / spacing, clamped to [2, max_pts]. */
  function NumPts(c: Config, dist: real): (n: int)
    requires ValidConfig(c)
    ensures 2 <= n <= c.maxPts
  {
    Clampi(Trunc(dist / c.spacing as real), 2, c.maxPts)
  }

  /**
   * The ITM inputs for a profile whose water share is `wf`: antenna heights
   * at least 3 m above the terrain under them, ground constants blended
   * between average ground and fresh water.
   */
  function ItmParams(l: Link, elev: seq<real>, wf: real): (p: ItmShim.Params)
    requires |elev| >= 2 && 0.0 <= wf <= 1.0
    ensures p.thtM >= MinStaHgt && p.thtM >= l.sta1.elev - elev[0]
    ensures p.rhtM >= MinStaHgt && p.rhtM >= l.sta2.elev - elev[|elev| - 1]
    ensures ConductGndAvg <= p.sgmConductivity <= ConductWaterFresh
    ensures DielecGndAvg <= p.epsDielect <= DielecWaterFresh
  {
    WavgBetween(ConductGndAvg, ConductWaterFresh, wf, ConductGndAvg, ConductWaterFresh);
    WavgBetween(DielecGndAvg, DielecWaterFresh, wf, DielecGndAvg, DielecWaterFresh);
    ItmShim.Params(
      MaxReal(l.sta1.elev - elev[0], MinStaHgt),
      MaxReal(l.sta2.elev - elev[|elev| - 1], MinStaHgt),
      Wavg(DielecGndAvg, DielecWaterFresh, wf),
      Wavg(ConductGndAvg, ConductWaterFresh, wf),
      NsAvg, l.freqMhz, EnvContinentalTemperate,
      if l.horizPol then ItmShim.Horizontal else ItmShim.Vertical,
      ItmShim.AccurMax, ItmShim.AccurMax, ItmShim.AccurMax)
  }

  /** What `pointToPoint` checks of the two stations: valid positions and elevations. */
  predicate ValidLink(l: Link) {
    ValidPos3(l.sta1) && ValidPos3(l.sta2)
  }

  /**
   * What `p2p_impl` itself relies on: both stations lie on the map. It never
   * checks elevations, and `paint_impl` passes terrain plus height above it.
   */
  predicate OnMapLink(l: Link) {
    ValidPos(To2(l.sta1)) && ValidPos(To2(l.sta2))
  }

  /**
   * `p2p_impl`'s received level: `recv_min_gain` when the stations are
   * `max_dist` or more apart, otherwise the transmitted level minus the ITM
   * loss over the relief profile, but never below `recv_min_gain`.
   */
  function P2PLevel(g: Grid, c: Config, l: Link, chord: Chord, engine: ItmShim.Engine): (r: real)
    requires ValidGrid(g) && ValidConfig(c) && OnMapLink(l)
    reads g
    ensures r >= l.recvMinGain
    ensures LinkDist(c, l, chord) >= c.maxDist as real ==> r == l.recvMinGain
  {
    var dist := LinkDist(c, l, chord);
    if dist >= c.maxDist as real then l.recvMinGain
    else
      var n := NumPts(c, dist);
      var elev := ReliefProfile(g, To2(l.sta1), To2(l.sta2), n);
      var water := ReliefWater(g, To2(l.sta1), To2(l.sta2), n);
      var loss := engine(ItmShim.PackedProfile(elev, dist), ItmParams(l, elev, WaterFraction(water))).dbloss;
      MaxReal(l.xmitGain - loss, l.recvMinGain)
  }

  /** Terrain under station 1 as `p2p_impl` reports it through `terr_elev` / `water_p`. */
  datatype TerrOut = TerrOut(elev: real, water: Option<bool>)

  function P2PTerrain(g: Grid, c: Config, l: Link, chord: Chord): (t: TerrOut)
    requires ValidGrid(g) && ValidConfig(c) && OnMapLink(l)
    reads g
    ensures t.elev == ElevAt(g, To2(l.sta1))
  {
    var dist := LinkDist(c, l, chord);
    if dist >= c.maxDist as real then TerrOut(ElevAt(g, To2(l.sta1)), WaterWritten(g, To2(l.sta1)))
    else TerrOut(ElevAt(g, To2(l.sta1)), Some(WaterAt(g, To2(l.sta1))))
  }

  // ---------------------------------------------------------------------
  // Terrain colours and argument checks
  // ---------------------------------------------------------------------

  /** `validate_freq`: RadioModel covers 20 MHz to 20 GHz. */
  predicate ValidFreq(freqMhz: real) { 20.0 <= freqMhz <= 20000.0 }

  function MetToFeet(m: real): real { m / 0.3048 }

  /** The 22 terrain colours, as RGBA bytes in memory order, one per 1000 ft band. */
  const TerrColors: seq<int> := [
    0x217f87ff, 0x3da58cff, 0x5fa485ff, 0x87993dff, 0xf1cf5aff, 0xf1cf5aff,
    0xf6b358ff, 0xf6b358ff, 0xd18b44ff, 0xd18b44ff, 0xb96f33ff, 0xb96f33ff,
    0xb96f33ff, 0xb45b29ff, 0xb45b29ff, 0xb45b29ff, 0xb45b29ff, 0xb45b29ff,
    0xb45b29ff, 0xb45b29ff, 0xb45b29ff, 0x9c4c26ff]

  /** The colour band of `get_terr_color`: (feet + 500) / 1000, truncated, clamped to [0, 21]. */
  function TerrColorIndex(elev: real): (idx: int)
    ensures 0 <= idx < |TerrColors|
  {
    Clampi(Trunc((MetToFeet(elev) + 500.0) / 1000.0), 0, |TerrColors| - 1)
  }

  /** `get_terr_color`. */
  function GetTerrColor(elev: real): (c: int)
    ensures c in TerrColors
    ensures MetToFeet(elev) < 500.0 ==> c == 0x217f87ff
    ensures MetToFeet(elev) >= 20500.0 ==> c == 0x9c4c26ff
  {
    TerrColors[TerrColorIndex(elev)]
  }

  /**
   * Band k (1..20) holds the elevations within 500 ft of k thousand feet;
   * everything below 500 ft shares band 0 and everything from 20500 ft up
   * band 21.
   */
  lemma TerrColorBands(elev: real, k: int)
    requires 1 <= k <= 20
    ensures TerrColorIndex(elev) == k <==>
            (k * 1000 - 500) as real <= MetToFeet(elev) < (k * 1000 + 500) as real
    ensures MetToFeet(elev) < 500.0 ==> TerrColorIndex(elev) == 0
    ensures MetToFeet(elev) >= 20500.0 ==> TerrColorIndex(elev) == 21
  {
    var v := (MetToFeet(elev) + 500.0) / 1000.0;
    if v >= 0.0 {
      assert Trunc(v) == v.Floor;
    }
  }

  datatype P2PError = NotInited | BadFreq | BadCoords

  datatype PaintError =
    | PaintNotInited | PaintBadFreq | BadSta1OrCentre | LengthMismatch
    | BadRange | BadPixelSize | GainTooLow | BadSta2(index: nat)

  /** The arguments of `paintMapMulti` that its checks look at. */
  datatype PaintArgs = PaintArgs(
    freqMhz: real, xmitGain: real, recvMinGain: real, sta1Elev: real,
    sta2Lats: seq<real>, sta2Lons: seq<real>, sta2Elevs: seq<real>,
    degRange: real, ctrLat: real, ctrLon: real, pixelSize: int)

  predicate ValidSta2(a: PaintArgs, i: int)
    requires 0 <= i < |a.sta2Lats| && |a.sta2Lats| == |a.sta2Lons| == |a.sta2Elevs|
  {
    IsValidLat(a.sta2Lats[i]) && IsValidLon(a.sta2Lons[i]) && IsValidElev(a.sta2Elevs[i])
  }

  /** The third check of `paintMapMulti`: station 1's elevation and the map centre. */
  predicate Sta1CentreOk(a: PaintArgs) {
    IsValidElev(a.sta1Elev) && IsValidLat(a.ctrLat) && IsValidLon(a.ctrLon)
  }

  /** The fourth check: the three station 2 arrays have one length. */
  predicate LengthsAgree(a: PaintArgs) {
    |a.sta2Lats| == |a.sta2Lons| == |a.sta2Elevs|
  }

  /** The fifth check: the display range, and the window when `onMapOnly` asks for it. */
  predicate RangeOk(a: PaintArgs, onMapOnly: bool) {
    0.0 < a.degRange < 90.0 && (onMapOnly ==> WindowOnMap(a))
  }

  /** The sixth check: the image size in pixels. */
  predicate PixelSizeOk(a: PaintArgs) {
    2 < a.pixelSize <= 8192
  }

  /** The seventh check: the transmitter gain can reach `recv_min_gain`. */
  predicate GainOk(a: PaintArgs) {
    -(90.0 - a.xmitGain) >= a.recvMinGain
  }

  /** The checks of `paintMapMulti` that come before the station list. */
  predicate PaintScalarsOk(inited: bool, a: PaintArgs) {
    inited && ValidFreq(a.freqMhz) && Sta1CentreOk(a) && LengthsAgree(a)
    && RangeOk(a, false) && PixelSizeOk(a) && GainOk(a)
  }

  /** Latitude and longitude of pixel (x, y) of the painted map. */
  function PixelPos(a: PaintArgs, x: int, y: int): (q: GeoPos2)
    requires a.pixelSize > 0
    ensures 2 * x == a.pixelSize ==> q.lon == a.ctrLon
    ensures 2 * y == a.pixelSize ==> q.lat == a.ctrLat
    ensures x == 0 ==> q.lon == a.ctrLon - a.degRange / 2.0
    ensures y == 0 ==> q.lat == a.ctrLat + a.degRange / 2.0
  {
    GeoPos2(a.ctrLat - ((y as real / a.pixelSize as real) - 0.5) * a.degRange,
            a.ctrLon + ((x as real / a.pixelSize as real) - 0.5) * a.degRange)
  }

  /**
   * A window the checks accept yet whose pixels leave the valid range: a
   * map 40 degrees wide centred on 175 E reaches 185 E, where the terrain
   * lookup addresses column 36 of 36.
   */
  lemma PaintArgsAcceptOffMapPixels()
    ensures var a := PaintArgs(100.0, 0.0, -100.0, 0.0, [], [], [], 40.0, 0.0, 175.0, 4);
            PaintScalarsOk(true, a) && !IsValidLon(PixelPos(a, 3, 0).lon)
            && TileColAsWritten(PixelPos(a, 3, 0).lon) == NumLon
  {
  }

  /**
   * The window a map of `degRange` degrees around the centre spans stays
   * within valid coordinates.
   */
  predicate WindowOnMap(a: PaintArgs) {
    -90.0 <= a.ctrLat - 0.5 * a.degRange && a.ctrLat + 0.5 * a.degRange <= 90.0
    && -180.0 <= a.ctrLon - 0.5 * a.degRange && a.ctrLon + 0.5 * a.degRange <= 180.0
  }

  /** With the window check added, every pixel of the map is a valid position. */
  lemma WindowOnMapPixelsValid(a: PaintArgs, x: int, y: int)
    requires PaintScalarsOk(true, a) && WindowOnMap(a)
    requires 0 <= x < a.pixelSize && 0 <= y < a.pixelSize
    ensures ValidPos(PixelPos(a, x, y))
  {
    var fx := x as real / a.pixelSize as real;
    var fy := y as real / a.pixelSize as real;
    DivBelowOne(x as real, a.pixelSize as real);
    DivBelowOne(y as real, a.pixelSize as real);
    OffsetWithin(a.ctrLon, a.degRange, fx, -180.0, 180.0);
    OffsetWithinBack(a.ctrLat, a.degRange, fy, -90.0, 90.0);
  }

  /**
   * `paint_impl`'s station 1: the pixel's position at `sta1_elev`, counted
   * above the terrain there when `sta1_agl` is set. Nothing bounds the sum.
   */
  function PaintSta1(g: Grid, a: PaintArgs, agl: bool, x: int, y: int): (p: GeoPos3)
    requires ValidGrid(g) && a.pixelSize > 0 && ValidPos(PixelPos(a, x, y))
    reads g
    ensures To2(p) == PixelPos(a, x, y)
    ensures !agl ==> p.elev == a.sta1Elev
    ensures agl && TileAt(g, PixelPos(a, x, y)).None? ==> p.elev == a.sta1Elev
  {
    var q := PixelPos(a, x, y);
    GeoPos3(q.lat, q.lon, if agl then ElevAt(g, q) + a.sta1Elev else a.sta1Elev)
  }

  /** `paint_impl` leaves a pixel alone when it lies more than 5 degrees from the station (compared squared). */
  predicate BeyondPaintRadius(q: GeoPos2, twr: GeoPos3) {
    (q.lat - twr.lat) * (q.lat - twr.lat) + (q.lon - twr.lon) * (q.lon - twr.lon) > 25.0
  }

  /**
   * The level `paint_impl` computes for pixel (x, y) towards the station
   * `twr`: nothing for a pixel beyond the 5-degree radius, otherwise
   * `p2p_impl`'s level from the pixel's station 1, which is never below
   * `recv_min_gain`, and is exactly `recv_min_gain` when the two lie
   * `max_dist` or more apart.
   */
  function PaintLevel(g: Grid, c: Config, a: PaintArgs, horizPol: bool, agl: bool, twr: GeoPos3,
                      x: int, y: int, chord: Chord, engine: ItmShim.Engine): (r: Option<real>)
    requires ValidGrid(g) && ValidConfig(c) && a.pixelSize > 0
    requires ValidPos(PixelPos(a, x, y)) && ValidPos(To2(twr))
    reads g
    ensures r.None? <==> BeyondPaintRadius(PixelPos(a, x, y), twr)
    ensures r.Some? ==> r.value >= a.recvMinGain
    ensures r.Some? && LinkDist(c, PaintLink(g, a, horizPol, agl, twr, x, y), chord) >= c.maxDist as real
            ==> r.value == a.recvMinGain
  {
    if BeyondPaintRadius(PixelPos(a, x, y), twr) then None
    else Some(P2PLevel(g, c, PaintLink(g, a, horizPol, agl, twr, x, y), chord, engine))
  }

  /** The link `paint_impl` hands to `p2p_impl`: from the pixel's station 1 to `twr`. */
  function PaintLink(g: Grid, a: PaintArgs, horizPol: bool, agl: bool, twr: GeoPos3, x: int, y: int): (l: Link)
    requires ValidGrid(g) && a.pixelSize > 0 && ValidPos(PixelPos(a, x, y)) && ValidPos(To2(twr))
    reads g
    ensures OnMapLink(l) && l.sta2 == twr && l.recvMinGain == a.recvMinGain
  {
    Link(a.freqMhz, horizPol, a.xmitGain, a.recvMinGain, PaintSta1(g, a, agl, x, y), twr)
  }

  /**
   * The station 1 `paint_impl` hands to `p2p_impl` can lie above the
   * elevation range `pointToPoint` enforces: 29000 m above terrain higher
   * than 1000 m.
   */
  lemma PaintSta1CanExceedElevRange(g: Grid, a: PaintArgs, x: int, y: int)
    requires ValidGrid(g) && a.pixelSize > 0 && ValidPos(PixelPos(a, x, y))
    requires a.sta1Elev == 29000.0 && ElevAt(g, PixelPos(a, x, y)) > 1000.0
    ensures IsValidElev(a.sta1Elev) && !IsValidElev(PaintSta1(g, a, true, x, y).elev)
  {
  }

  /** A point a fraction `f` of the way across a window of width `r` centred on `c` lies inside the window. */
  lemma OffsetWithin(c: real, r: real, f: real, lo: real, hi: real)
    requires 0.0 < r && 0.0 <= f < 1.0
    requires lo <= c - 0.5 * r && c + 0.5 * r <= hi
    ensures lo <= c + (f - 0.5) * r <= hi
  {
    MulBounds(r, f);
    assert (f - 0.5) * r == r * f - 0.5 * r;
  }

  /** The same window measured the other way, as rows run from north to south. */
  lemma OffsetWithinBack(c: real, r: real, f: real, lo: real, hi: real)
    requires 0.0 < r && 0.0 <= f < 1.0
    requires lo <= c - 0.5 * r && c + 0.5 * r <= hi
    ensures lo <= c - (f - 0.5) * r <= hi
  {
    MulBounds(r, f);
    assert (f - 0.5) * r == r * f - 0.5 * r;
  }

  lemma DivBelowOne(x: real, n: real)
    requires 0.0 <= x < n
    ensures 0.0 <= x / n < 1.0
  {
    assert (x / n) * n == x;
  }

  /**
   * The argument checks of `paintMapMulti`, in the C code's order, ending
   * with a scan for the first invalid transmitter position. `onMapOnly`
   * adds the window check that keeps every pixel on the map.
   */
  method PaintArgsCheck(inited: bool, a: PaintArgs, onMapOnly: bool) returns (r: Option<PaintError>)
    ensures r.None? <==> PaintScalarsOk(inited, a) && (onMapOnly ==> WindowOnMap(a))
                         && forall i :: 0 <= i < |a.sta2Lats| ==> ValidSta2(a, i)
    ensures r.Some? && r.value.BadSta2? ==>
              PaintScalarsOk(inited, a) && r.value.index < |a.sta2Lats| && !ValidSta2(a, r.value.index)
              && forall i :: 0 <= i < r.value.index ==> ValidSta2(a, i)
    ensures !inited ==> r == Some(PaintNotInited)
    ensures inited && !ValidFreq(a.freqMhz) ==> r == Some(PaintBadFreq)
    ensures inited && ValidFreq(a.freqMhz) && !Sta1CentreOk(a) ==> r == Some(BadSta1OrCentre)
    ensures inited && ValidFreq(a.freqMhz) && Sta1CentreOk(a) && !LengthsAgree(a) ==> r == Some(LengthMismatch)
    ensures (inited && ValidFreq(a.freqMhz) && Sta1CentreOk(a) && LengthsAgree(a)
             && !RangeOk(a, onMapOnly)) ==> r == Some(BadRange)
    ensures (inited && ValidFreq(a.freqMhz) && Sta1CentreOk(a) && LengthsAgree(a)
             && RangeOk(a, onMapOnly) && !PixelSizeOk(a)) ==> r == Some(BadPixelSize)
    ensures (inited && ValidFreq(a.freqMhz) && Sta1CentreOk(a) && LengthsAgree(a)
             && RangeOk(a, onMapOnly) && PixelSizeOk(a) && !GainOk(a)) ==> r == Some(GainTooLow)
    ensures (PaintScalarsOk(inited, a) && (onMapOnly ==> WindowOnMap(a))
             && exists i :: 0 <= i < |a.sta2Lats| && !ValidSta2(a, i)) ==> r.Some? && r.value.BadSta2?
  {
    if !inited { return Some(PaintNotInited); }
    if !ValidFreq(a.freqMhz) { return Some(PaintBadFreq); }
    if !IsValidElev(a.sta1Elev) || !IsValidLat(a.ctrLat) || !IsValidLon(a.ctrLon) {
      return Some(BadSta1OrCentre);
    }
    if |a.sta2Lats| != |a.sta2Lons| || |a.sta2Lats| != |a.sta2Elevs| {
      return Some(LengthMismatch);
    }
    if a.degRange <= 0.0 || a.degRange >= 90.0 || (onMapOnly && !WindowOnMap(a)) {
      return Some(BadRange);
    }
    if a.pixelSize <= 2 || a.pixelSize > 8192 {
      return Some(BadPixelSize);
    }
    if -(90.0 - a.xmitGain) < a.recvMinGain {
      return Some(GainTooLow);
    }
    var i := 0;
    while i < |a.sta2Lats|
      invariant 0 <= i <= |a.sta2Lats|
      invariant forall k :: 0 <= k < i ==> ValidSta2(a, k)
    {
      if !ValidSta2(a, i) {
        return Some(BadSta2(i));
      }
      i := i + 1;
    }
    return None;
  }

  // ---------------------------------------------------------------------
  // The global state `rm`
  // ---------------------------------------------------------------------

  /** A decoded RGBA image: `w * h` pixels of four bytes each. */
  datatype Png = Png(w: nat, h: nat, rgba: seq<byte>)

  predicate ValidPng(p: Png) { p.w > 0 && p.h > 0 && |p.rgba| == 4 * p.w * p.h }

  /**
   * One entry of the tile directory: its name, what the PNG loader returns
   * for it (None on a read error), and the water mask rasterised from the
   * tile's shapefile directory (None when there is none).
   */
  datatype DirEntry = DirEntry(name: string, png: Option<Png>, mask: Option<WaterMask>)

  predicate ValidEntry(e: DirEntry) {
    (e.png.Some? ==> ValidPng(e.png.value)) && (e.mask.Some? ==> ValidMask(e.mask.value))
  }

  datatype InitError =
    | AlreadyInited | BadSpacing | BadMaxPts | BadMaxDist | NoDirectory
    | DuplicateTile(name: string) | PngError(name: string)

  /** A zero argument selects the default. */
  function Dfl(x: int, dfl: int): int { if x == 0 then dfl else x }

  /** The parameter rules of `init`: defaults for zeroes, then the range checks, in order. */
  function InitParams(spacing: int, maxPts: int, maxDist: int): (r: Result<Config, InitError>)
    ensures r.Ok? <==> MinSpacing <= Dfl(spacing, DflSpacing) <= MaxSpacing
                       && Dfl(maxPts, DflMaxPts) >= 2
                       && MinMaxDist <= Dfl(maxDist, DflMaxDist) <= MaxMaxDist
    ensures r.Ok? ==> ValidConfig(r.value)
    ensures r.Ok? && spacing == 0 ==> r.value.spacing == DflSpacing
    ensures r.Ok? && maxPts == 0 ==> r.value.maxPts == DflMaxPts
    ensures r.Ok? && maxDist == 0 ==> r.value.maxDist == DflMaxDist
    ensures r.Ok? && spacing != 0 ==> r.value.spacing == spacing
    ensures r.Ok? && maxPts != 0 ==> r.value.maxPts == maxPts
    ensures r.Ok? && maxDist != 0 ==> r.value.maxDist == maxDist
    ensures r.Err? ==> r.error in {BadSpacing, BadMaxPts, BadMaxDist}
    ensures r == Err(BadSpacing) ==> !(MinSpacing <= Dfl(spacing, DflSpacing) <= MaxSpacing)
    ensures r == Err(BadMaxPts) ==> MinSpacing <= Dfl(spacing, DflSpacing) <= MaxSpacing && Dfl(maxPts, DflMaxPts) < 2
    ensures r == Err(BadMaxDist) ==> MinSpacing <= Dfl(spacing, DflSpacing) <= MaxSpacing && Dfl(maxPts, DflMaxPts) >= 2
                                     && !(MinMaxDist <= Dfl(maxDist, DflMaxDist) <= MaxMaxDist)
  {
    var s := Dfl(spacing, DflSpacing);
    var p := Dfl(maxPts, DflMaxPts);
    var d := Dfl(maxDist, DflMaxDist);
    if s < MinSpacing || s > MaxSpacing then Err(BadSpacing)
    else if p < 2 then Err(BadMaxPts)
    else if d < MinMaxDist || d > MaxMaxDist then Err(BadMaxDist)
    else Ok(Config(s, p, d))
  }

  /** The decoding loop of `tile_elev_read`, one pixel at a time. */
  method DecodeElevations(png: Png) returns (points: seq<int>)
    requires ValidPng(png)
    ensures points == Elevations(png)
  {
    var n := png.w * png.h;
    var a := new int[n];
    var i := 0;
    while i < n
      invariant 0 <= i <= n
      invariant forall k :: 0 <= k < i ==> a[k] == Elevations(png)[k]
    {
      assert 4 * i + 3 < |png.rgba|;
      a[i] := ElevSample2Met(png.rgba[4 * i + 3] as int);
      i := i + 1;
    }
    points := a[..];
  }

  /** The elevation samples of a tile image: the alpha byte of each RGBA pixel, converted to metres. */
  function Elevations(png: Png): (e: seq<int>)
    ensures |e| == png.w * png.h
  {
    seq(png.w * png.h, i requires 0 <= i < png.w * png.h =>
      if 4 * i + 3 < |png.rgba| then ElevSample2Met(png.rgba[4 * i + 3] as int) else 0)
  }

  function TileOf(png: Png, mask: Option<WaterMask>): Tile
  {
    Tile(png.w, png.h, Elevations(png), mask)
  }

  /** What loading the directory so far has produced: the tiles per slot and the error that stopped it. */
  datatype Load = Load(tiles: map<(int, int), Tile>, err: Option<InitError>)

  /** One directory entry of the `init` loop. */
  function LoadStep(acc: Load, e: DirEntry): Load
  {
    LoadStepAt(acc, e, TileNameSlot(e.name))
  }

  /** One directory entry whose name gave `slot` (None: not a tile file). */
  function LoadStepAt(acc: Load, e: DirEntry, slot: Option<(int, int)>): (r: Load)
    ensures acc.err.Some? ==> r == acc
    ensures forall t :: t in acc.tiles ==> t in r.tiles && r.tiles[t] == acc.tiles[t]
    ensures forall t :: t in r.tiles && t !in acc.tiles ==> slot == Some(t) && r.err.None?
    ensures slot.Some? && slot.value in acc.tiles ==> r.tiles == acc.tiles && r.err.Some?
  {
    if acc.err.Some? then acc
    else match slot
      case None => acc
      case Some(slot) =>
        if slot in acc.tiles then Load(acc.tiles, Some(DuplicateTile(e.name)))
        else match e.png
          case None => Load(acc.tiles, Some(PngError(e.name)))
          case Some(png) => Load(acc.tiles[slot := TileOf(png, e.mask)], None)
  }

  function LoadAll(es: seq<DirEntry>): Load
  {
    if es == [] then Load(map[], None) else LoadStep(LoadAll(es[..|es| - 1]), es[|es| - 1])
  }

  /** Loading one more entry is one more step from what the shorter prefix produced. */
  lemma LoadAllSnoc(es: seq<DirEntry>, k: nat)
    requires k < |es|
    ensures LoadAll(es[..k + 1]) == LoadStepAt(LoadAll(es[..k]), es[k], TileNameSlot(es[k].name))
  {
    assert es[..k + 1][..k] == es[..k];
  }

  /** Once loading has failed, later entries change nothing. */
  lemma {:induction false} LoadAllStopsAtError(es: seq<DirEntry>, k: nat)
    requires k <= |es| && LoadAll(es[..k]).err.Some?
    ensures LoadAll(es) == LoadAll(es[..k])
    decreases |es| - k
  {
    if k < |es| {
      assert es[..k + 1][..k] == es[..k];
      assert LoadAll(es[..k + 1]) == LoadAll(es[..k]);
      LoadAllStopsAtError(es, k + 1);
    } else {
      assert es[..k] == es;
    }
  }

  lemma TileOfValid(png: Png, mask: Option<WaterMask>)
    requires ValidPng(png) && (mask.Some? ==> ValidMask(mask.value))
    ensures ValidTile(TileOf(png, mask))
  {
  }

  /** Every loaded tile sits in a slot of the table and is well formed. */
  lemma {:induction false} LoadAllWellFormed(es: seq<DirEntry>)
    requires forall k :: 0 <= k < |es| ==> ValidEntry(es[k])
    ensures forall s :: s in LoadAll(es).tiles ==> InTable(s) && ValidTile(LoadAll(es).tiles[s])
  {
    if es != [] {
      var init := es[..|es| - 1];
      var e := es[|es| - 1];
      assert ValidEntry(e);
      LoadAllWellFormed(init);
      var acc := LoadAll(init);
      assert LoadAll(es) == LoadStep(acc, e);
      if acc.err.None? && TileNameSlot(e.name).Some? && TileNameSlot(e.name).value !in acc.tiles && e.png.Some? {
        TileOfValid(e.png.value, e.mask);
      }
    }
  }

  /** After a successful load, the slot of every tile file named so far is filled. */
  lemma {:induction false} LoadAllContains(es: seq<DirEntry>, i: nat)
    requires i < |es| && LoadAll(es).err.None? && TileNameSlot(es[i].name).Some?
    ensures TileNameSlot(es[i].name).value in LoadAll(es).tiles
  {
    var init := es[..|es| - 1];
    var e := es[|es| - 1];
    var acc := LoadAll(init);
    assert LoadAll(es) == LoadStep(acc, e);
    assert acc.err.None?;
    var slot := TileNameSlot(es[i].name).value;
    if i < |es| - 1 {
      assert es[i] == init[i];
      LoadAllContains(init, i);
      assert slot in acc.tiles;
      StepKeepsTiles(acc, e, slot);
    } else {
      StepAddsTile(acc, e);
    }
  }

  lemma StepKeepsTiles(acc: Load, e: DirEntry, slot: (int, int))
    requires slot in acc.tiles && LoadStep(acc, e).err.None?
    ensures slot in LoadStep(acc, e).tiles
  {
  }

  lemma StepAddsTile(acc: Load, e: DirEntry)
    requires LoadStep(acc, e).err.None? && acc.err.None? && TileNameSlot(e.name).Some?
    ensures TileNameSlot(e.name).value in LoadStep(acc, e).tiles
  {
  }

  /** A load that succeeded never saw two tile files for one slot: a second file for a slot is refused. */
  lemma {:induction false} LoadAllNoDuplicates(es: seq<DirEntry>, i: nat, j: nat)
    requires i < j < |es| && LoadAll(es).err.None? && TileNameSlot(es[i].name).Some?
    ensures TileNameSlot(es[j].name) != TileNameSlot(es[i].name)
  {
    var init := es[..|es| - 1];
    assert LoadAll(es) == LoadStep(LoadAll(init), es[|es| - 1]);
    assert es[i] == init[i];
    if j < |es| - 1 {
      assert es[j] == init[j];
      LoadAllNoDuplicates(init, i, j);
    } else {
      LoadAllContains(init, i);
    }
  }

  /** Bytes a slot holds: two per elevation sample plus the water mask rows. */
  function TileBytes(t: Option<Tile>): (b: nat)
    ensures t.None? ==> b == 0
  {
    match t
    case None => 0
    case Some(t) =>
      2 * t.w * t.h + (if t.mask.Some? then 4 * t.mask.value.strideWords * WaterMaskRes else 0)
  }

  /** Bytes of the first k slots in row-major order. */
  function BytesUpTo(g: Grid, k: int): nat
    requires g.Length0 == NumLat && g.Length1 == NumLon && 0 <= k <= NumLat * NumLon
    reads g
  {
    if k == 0 then 0 else BytesUpTo(g, k - 1) + TileBytes(g[(k - 1) / NumLon, (k - 1) % NumLon])
  }

  /** Slot (lat, lon), at row-major position k, is the one counting adds after the k slots before it. */
  lemma BytesUpToStep(g: Grid, lat: int, lon: int, k: int)
    requires g.Length0 == NumLat && g.Length1 == NumLon && 0 <= lat < NumLat && 0 <= lon < NumLon
    requires k == lat * NumLon + lon
    ensures 0 <= k < NumLat * NumLon
    ensures BytesUpTo(g, k + 1) == BytesUpTo(g, k) + TileBytes(g[lat, lon])
  {
    assert k / NumLon == lat && k % NumLon == lon;
  }

  /** The loop of `countBytes`: every slot's bytes added, row by row, into a C `int`. */
  method SumTileBytes(g: Grid) returns (bytes: int)
    requires g.Length0 == NumLat && g.Length1 == NumLon
    ensures bytes == WrapI32(BytesUpTo(g, NumLat * NumLon))
  {
    bytes := 0;
    ghost var k := 0;
    var lat := 0;
    while lat < NumLat
      invariant 0 <= lat <= NumLat && k == lat * NumLon
      invariant bytes == WrapI32(BytesUpTo(g, k))
    {
      var lon := 0;
      while lon < NumLon
        invariant 0 <= lon <= NumLon && k == lat * NumLon + lon
        invariant bytes == WrapI32(BytesUpTo(g, k))
      {
        var slot := TileBytes(g[lat, lon]);
        CountStep(g, lat, lon, k, bytes);
        bytes := WrapI32(bytes + slot);
        k := k + 1;
        lon := lon + 1;
      }
      lat := lat + 1;
    }
  }

  /** One pass of the `countBytes` loop keeps the count the wrapped sum of the slots seen. */
  lemma CountStep(g: Grid, lat: int, lon: int, k: int, bytes: int)
    requires g.Length0 == NumLat && g.Length1 == NumLon && 0 <= lat < NumLat && 0 <= lon < NumLon
    requires k == lat * NumLon + lon && 0 <= k < NumLat * NumLon
    requires bytes == WrapI32(BytesUpTo(g, k))
    ensures WrapI32(bytes + TileBytes(g[lat, lon])) == WrapI32(BytesUpTo(g, k + 1))
  {
    BytesUpToStep(g, lat, lon, k);
    WrapI32Add(BytesUpTo(g, k), TileBytes(g[lat, lon]));
  }

  /** An empty table holds no bytes. */
  lemma {:induction false} NoTilesNoBytes(g: Grid, k: int)
    requires g.Length0 == NumLat && g.Length1 == NumLon && 0 <= k <= NumLat * NumLon
    requires NoTiles(g)
    ensures BytesUpTo(g, k) == 0
  {
    if k > 0 {
      NoTilesNoBytes(g, k - 1);
    }
  }

  class RadioModelState {
    var inited: bool
    var spacing: int
    var maxPts: int
    var maxDist: int
    const tiles: Grid

    ghost predicate Valid()
      reads this, tiles
    {
      ValidGrid(tiles)
      && (inited ==> ValidConfig(Config(spacing, maxPts, maxDist)))
      && (!inited ==> spacing == 0 && maxPts == 0 && maxDist == 0 && NoTiles(tiles))
    }

    function Cfg(): Config
      reads this
    {
      Config(spacing, maxPts, maxDist)
    }

    /** The table holds exactly the tiles of `m`. */
    ghost predicate Holds(m: map<(int, int), Tile>)
      reads this, tiles
      requires tiles.Length0 == NumLat && tiles.Length1 == NumLon
    {
      forall i, j :: 0 <= i < NumLat && 0 <= j < NumLon ==>
        tiles[i, j] == (if (i, j) in m then Some(m[(i, j)]) else None)
    }

    /** The zero-initialised global. */
    constructor ()
      ensures Valid() && !inited && fresh(tiles)
    {
      inited := false;
      spacing, maxPts, maxDist := 0, 0, 0;
      tiles := new Option<Tile>[NumLat, NumLon]((i, j) => None);
    }

    /**
     * `init`: refuses a second call and bad parameters without touching the
     * state; otherwise takes the parameters, marks the model initialised and
     * loads the tile directory entry by entry, stopping at a duplicate slot
     * or an unreadable PNG with the tiles loaded so far kept. A directory
     * that cannot be opened (`dir` None) leaves the model initialised with
     * no tiles.
     */
    method Init(dir: Option<seq<DirEntry>>, spacing0: int, maxPts0: int, maxDist0: int)
      returns (err: Option<InitError>)
      requires Valid()
      requires dir.Some? ==> forall k :: 0 <= k < |dir.value| ==> ValidEntry(dir.value[k])
      modifies this, tiles
      ensures Valid()
      ensures old(inited) ==> err == Some(AlreadyInited) && unchanged(this) && unchanged(tiles)
      ensures !old(inited) && InitParams(spacing0, maxPts0, maxDist0).Err? ==>
                err == Some(InitParams(spacing0, maxPts0, maxDist0).error) && unchanged(this) && unchanged(tiles)
      ensures !old(inited) && InitParams(spacing0, maxPts0, maxDist0).Ok? ==>
                inited && Cfg() == InitParams(spacing0, maxPts0, maxDist0).value
                && (dir.None? ==> err == Some(NoDirectory) && NoTiles(tiles))
                && (dir.Some? ==> err == LoadAll(dir.value).err && Holds(LoadAll(dir.value).tiles))
    {
      if inited {
        return Some(AlreadyInited);
      }
      var params := InitParams(spacing0, maxPts0, maxDist0);
      if params.Err? {
        return Some(params.error);
      }
      // `Valid` says the state is all zeroes already, so the memset only sets the fields.
      inited := true;
      spacing, maxPts, maxDist := params.value.spacing, params.value.maxPts, params.value.maxDist;
      if dir.None? {
        return Some(NoDirectory);
      }
      err := LoadDir(dir.value);
    }

    /**
     * The directory loop of `init`: each entry that names a tile is loaded
     * into its slot; a second file for a filled slot or an unreadable PNG
     * stops the loop, keeping what was loaded before it.
     */
    method LoadDir(es: seq<DirEntry>) returns (err: Option<InitError>)
      requires ValidGrid(tiles) && NoTiles(tiles)
      requires forall k :: 0 <= k < |es| ==> ValidEntry(es[k])
      modifies tiles
      ensures ValidGrid(tiles)
      ensures err == LoadAll(es).err && Holds(LoadAll(es).tiles)
    {
      assert Holds(LoadAll(es[..0]).tiles);
      var k := 0;
      while k < |es|
        invariant 0 <= k <= |es|
        invariant LoadAll(es[..k]).err.None?
        invariant ValidGrid(tiles) && Holds(LoadAll(es[..k]).tiles)
      {
        var e := es[k];
        ghost var before := LoadAll(es[..k]);
        LoadAllSnoc(es, k);
        var slot := TileNameSlot(e.name);
        err := LoadEntry(e, slot, before);
        if err.Some? {
          LoadAllStopsAtError(es, k + 1);
          return;
        }
        k := k + 1;
      }
      assert es[..k] == es;
      return None;
    }

    /** One pass of the directory loop for entry `e`, whose name gave `slot`. */
    method LoadEntry(e: DirEntry, slot: Option<(int, int)>, ghost before: Load) returns (err: Option<InitError>)
      requires ValidGrid(tiles) && before.err.None? && Holds(before.tiles) && ValidEntry(e)
      requires slot.Some? ==> InTable(slot.value)
      modifies tiles
      ensures ValidGrid(tiles)
      ensures err == LoadStepAt(before, e, slot).err
      ensures Holds(LoadStepAt(before, e, slot).tiles)
    {
      if slot.None? {
        return None;
      }
      var i, j := slot.value.0, slot.value.1;
      assert (i, j) in before.tiles <==> tiles[i, j].Some?;
      if tiles[i, j].Some? {
        return Some(DuplicateTile(e.name));
      }
      if e.png.None? {
        return Some(PngError(e.name));
      }
      var png := e.png.value;
      var points := DecodeElevations(png);
      ghost var t := TileOf(png, e.mask);
      TileOfValid(png, e.mask);
      tiles[i, j] := Some(Tile(png.w, png.h, points, e.mask));
      ghost var m := before.tiles[(i, j) := t];
      assert LoadStepAt(before, e, slot) == Load(m, None);
      forall i', j' | 0 <= i' < NumLat && 0 <= j' < NumLon
        ensures tiles[i', j'] == (if (i', j') in m then Some(m[(i', j')]) else None)
        ensures tiles[i', j'].Some? ==> ValidTile(tiles[i', j'].value)
      {
        if (i', j') != (i, j) {
          assert tiles[i', j'] == old(tiles[i', j']);
        }
      }
      return None;
    }

    /** `fini`: a no-op unless initialised; otherwise every slot is freed and the state zeroed. */
    method Fini()
      requires Valid()
      modifies this, tiles
      ensures Valid() && !inited && NoTiles(tiles)
      ensures Cfg() == Config(0, 0, 0)
      ensures !old(inited) ==> unchanged(this) && unchanged(tiles)
    {
      if !inited {
        return;
      }
      var lat := 0;
      while lat < NumLat
        invariant 0 <= lat <= NumLat
        invariant ValidGrid(tiles)
        invariant forall i, j :: 0 <= i < lat && 0 <= j < NumLon ==> tiles[i, j].None?
      {
        var lon := 0;
        while lon < NumLon
          invariant 0 <= lon <= NumLon
          invariant ValidGrid(tiles)
          invariant forall i, j :: 0 <= i < lat && 0 <= j < NumLon ==> tiles[i, j].None?
          invariant forall j :: 0 <= j < lon ==> tiles[lat, j].None?
        {
          tiles[lat, lon] := None;
          lon := lon + 1;
        }
        lat := lat + 1;
      }
      inited := false;
      spacing, maxPts, maxDist := 0, 0, 0;
    }

    /**
     * `countBytes`: the memory the loaded tiles occupy, accumulated in a C
     * `int` and so reduced to 32 bits; 0 when not initialised.
     */
    method CountBytes() returns (bytes: int)
      requires Valid()
      ensures bytes == WrapI32(BytesUpTo(tiles, NumLat * NumLon))
      ensures BytesUpTo(tiles, NumLat * NumLon) <= I32Max ==> bytes == BytesUpTo(tiles, NumLat * NumLon)
      ensures !inited ==> bytes == 0
    {
      bytes := SumTileBytes(tiles);
      if !inited {
        NoTilesNoBytes(tiles, NumLat * NumLon);
      }
    }

    /**
     * `p2p_impl`: the received level between two stations, and (when asked
     * for) the terrain under station 1.
     */
    method P2P(l: Link, wantTerr: bool, chord: Chord, engine: ItmShim.Engine)
      returns (level: real, terr: Option<TerrOut>)
      requires Valid() && inited && OnMapLink(l)
      ensures level == P2PLevel(tiles, Cfg(), l, chord, engine)
      ensures level >= l.recvMinGain
      ensures terr.Some? <==> wantTerr
      ensures terr.Some? ==> terr.value == P2PTerrain(tiles, Cfg(), l, chord)
    {
      var c := Cfg();
      var p1, p2 := To2(l.sta1), To2(l.sta2);
      var dist := ClampReal(chord(l.sta1, l.sta2), MinDist, maxDist as real);
      if dist >= maxDist as real {
        terr := if wantTerr then Some(TerrOut(ElevAt(tiles, p1), WaterWritten(tiles, p1))) else None;
        return l.recvMinGain, terr;
      }
      var n := NumPts(c, dist);
      var elev := new real[n];
      var water := new bool[n];
      ReliefConstruct(tiles, p1, p2, elev, water, n);
      var fract := WaterFract(water);
      var params := ItmParams(l, elev[..], fract);
      var errnum, out := ItmShim.PointToPointMDH(elev, n, dist, params, engine, ItmShim.Wanted(true, false, false));
      assert elev[..n] == elev[..];
      var dbloss := out.dbloss.value;
      terr := if wantTerr then Some(TerrOut(elev[0], Some(water[0]))) else None;
      level := MaxReal(l.xmitGain - dbloss, l.recvMinGain);
    }

    /** `pointToPoint`: the argument checks, then `p2p_impl` without terrain output. */
    method PointToPoint(l: Link, chord: Chord, engine: ItmShim.Engine) returns (r: Result<real, P2PError>)
      requires Valid()
      ensures !inited ==> r == Err(NotInited)
      ensures inited && !ValidFreq(l.freqMhz) ==> r == Err(BadFreq)
      ensures inited && ValidFreq(l.freqMhz) && !ValidLink(l) ==> r == Err(BadCoords)
      ensures r.Ok? <==> inited && ValidFreq(l.freqMhz) && ValidLink(l)
      ensures r.Ok? ==> r.value == P2PLevel(tiles, Cfg(), l, chord, engine) && r.value >= l.recvMinGain
    {
      if !inited {
        return Err(NotInited);
      }
      if !ValidFreq(l.freqMhz) {
        return Err(BadFreq);
      }
      if !ValidLink(l) {
        return Err(BadCoords);
      }
      var level, _ := P2P(l, false, chord, engine);
      return Ok(level);
    }
  }
}

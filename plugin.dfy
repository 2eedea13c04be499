/**
 * The X-Plane plugin shell around the library: where it finds the
 * simulator and its own directory, and the started flag and navaid
 * database handle that loading and unloading set and clear.
 */
module Plugin {
  import opened Common
  import NavaidDb
  import Crc64

  /** The directory names of per-architecture builds, dropped from the plugin directory. */
  const ArchDirs: seq<string> := ["64", "32", "win_x64", "mac_x64", "lin_x64"]

  /** A path separator as the simulator's root path may end in one: either slash. */
  predicate IsPathSep(c: char)
  {
    c == '/' || c == '\\'
  }

  /**
   * The simulator root with at most one trailing separator removed. The
   * path the simulator reports is never empty, which the code relies on
   * when it reads the last character.
   */
  function TrimXpdir(p: string): (r: string)
    requires |p| > 0
    ensures |r| == |p| || |r| == |p| - 1
    ensures r == p[..|r|]
    ensures |r| < |p| <==> IsPathSep(p[|p| - 1])
  {
    if IsPathSep(p[|p| - 1]) then p[..|p| - 1] else p
  }

  /** Appending a separator and trimming gives the path back. */
  lemma TrimXpdirUndoesSep(q: string, c: char)
    requires IsPathSep(c)
    ensures TrimXpdir(q + [c]) == q
  {
    assert (q + [c])[..|q|] == q;
  }

  /** A path that does not end in a separator is left alone. */
  lemma TrimXpdirKeepsPlain(q: string)
    requires |q| > 0 && !IsPathSep(q[|q| - 1])
    ensures TrimXpdir(q) == q
  {
  }

  /** Only one separator goes: a doubled one leaves the path still ending in a separator. */
  lemma TrimXpdirRemovesOnlyOne(q: string)
    ensures TrimXpdir(q + "//") == q + "/"
  {
    assert (q + "//")[..|q| + 1] == q + "/";
  }

  /** `strrchr`: the position of the last `sep` in `p`, if any. */
  function LastSep(p: string, sep: char): (r: Option<nat>)
    ensures r.Some? ==> r.value < |p| && p[r.value] == sep
                        && forall j :: r.value < j < |p| ==> p[j] != sep
    ensures r.None? ==> forall j :: 0 <= j < |p| ==> p[j] != sep
  {
    if |p| == 0 then None
    else if p[|p| - 1] == sep then Some(|p| - 1)
    else LastSep(p[..|p| - 1], sep)
  }

  /** The last separator of a path joined from pieces is the one between the last two. */
  lemma {:induction false} LastSepOfJoin(b: string, sep: char, f: string)
    requires forall j :: 0 <= j < |f| ==> f[j] != sep
    ensures LastSep(b + [sep] + f, sep) == Some(|b|)
  {
    var p := b + [sep] + f;
    if |f| > 0 {
      var f' := f[..|f| - 1];
      assert p[|p| - 1] == f[|f| - 1];
      assert p[..|p| - 1] == b + [sep] + f';
      LastSepOfJoin(b, sep, f');
    }
  }

  /** Cutting off the last component: the file name of the plugin. */
  function CutLastComponent(p: string, sep: char): (r: string)
    ensures |r| <= |p| && r == p[..|r|]
  {
    match LastSep(p, sep)
    case None => p
    case Some(i) => p[..i]
  }

  /** Cutting off a last component that names an architecture directory. */
  function StripArchDir(p: string, sep: char): (r: string)
    ensures |r| <= |p| && r == p[..|r|]
  {
    match LastSep(p, sep)
    case None => p
    case Some(i) => if p[i + 1..] in ArchDirs then p[..i] else p
  }

  /** The plugin directory `XPluginStart` derives from the path of the plugin's own file. */
  function PluginDir(p: string, sep: char): (r: string)
    ensures |r| <= |p| && r == p[..|r|]
    ensures sep in p ==> |r| < |p|
    ensures sep !in p ==> r == p
  {
    StripArchDir(CutLastComponent(p, sep), sep)
  }

  /** In the layout `<dir>/<arch>/<file>` the plugin directory is `<dir>`. */
  lemma PluginDirDropsArch(dir: string, arch: string, file: string, sep: char)
    requires arch in ArchDirs && sep !in arch && sep !in file
    ensures PluginDir(dir + [sep] + arch + [sep] + file, sep) == dir
  {
    var mid := dir + [sep] + arch;
    LastSepOfJoin(mid, sep, file);
    assert (mid + [sep] + file)[..|mid|] == mid;
    LastSepOfJoin(dir, sep, arch);
    assert mid[|dir| + 1..] == arch;
    assert mid[..|dir|] == dir;
  }

  /** In the layout `<dir>/<sub>/<file>` with any other `<sub>`, the plugin directory is `<dir>/<sub>`. */
  lemma PluginDirKeepsOther(dir: string, sub: string, file: string, sep: char)
    requires sub !in ArchDirs && sep !in sub && sep !in file
    ensures PluginDir(dir + [sep] + sub + [sep] + file, sep) == dir + [sep] + sub
  {
    var mid := dir + [sep] + sub;
    LastSepOfJoin(mid, sep, file);
    assert (mid + [sep] + file)[..|mid|] == mid;
    LastSepOfJoin(dir, sep, sub);
    assert mid[|dir| + 1..] == sub;
  }

  /** The plugin's file-level state. */
  class PluginState {
    /** `inited`: between a start and the matching stop. */
    var inited: bool
    var xpdir: string
    var plugindir: string
    /** `ndb`: the navaid database, NULL when none is held. */
    var ndb: Option<NavaidDb.NavaidDbState>
    /** Whether the navigation radios are initialised. */
    var navradUp: bool
    var rng: Crc64.CrcGen?

    /** The two directories as `XPluginStart` derives them from the simulator's and the plugin's paths. */
    ghost predicate DirsFrom(systemPath: string, pluginPath: string, sep: char)
      requires |systemPath| > 0
      reads this`xpdir, this`plugindir
    {
      xpdir == TrimXpdir(systemPath) && plugindir == PluginDir(pluginPath, sep)
    }

    /** The state before the plugin is loaded. */
    constructor ()
      ensures !inited && ndb.None? && !navradUp
    {
      inited := false;
      xpdir := "";
      plugindir := "";
      ndb := None;
      navradUp := false;
      rng := null;
    }

    /**
     * `XPluginStart`: record the simulator and plugin directories, seed the
     * generator, then build the navaid database and start the radios;
     * any failure unloads again and reports failure. `cacheOk` is the
     * outcome of rebuilding the airport cache and `gpwsFound` whether the
     * terrain plugin answers, neither of which is part of this model.
     */
    method Start(systemPath: string, pluginPath: string, sep: char, seed: bv64, cacheOk: bool,
                 srcs: NavaidDb.Sources, v: NavaidDb.FreqChecks, dist: NavaidDb.Chord, gpwsFound: bool)
      returns (ok: bool)
      requires !inited && |systemPath| > 0
      modifies this
      ensures DirsFrom(systemPath, pluginPath, sep)
      ensures ok <==> cacheOk && NavaidDb.Create(srcs, v, dist).Some? && gpwsFound
      ensures ok ==> inited && navradUp && ndb.Some? && fresh(ndb.value)
                     && ndb.value.State() == NavaidDb.Create(srcs, v, dist).value
      ensures !ok ==> !inited && !navradUp && ndb.None?
    {
      inited := true;
      SetDirs(systemPath, pluginPath, sep);
      SeedRng(seed);
      ok := LoadAll(cacheOk, srcs, v, dist, gpwsFound);
    }

    /**
     * The loading sequence of `XPluginStart`: the airport cache, the navaid
     * database, the radios; the first failure unloads through `Stop`.
     */
    method LoadAll(cacheOk: bool, srcs: NavaidDb.Sources, v: NavaidDb.FreqChecks, dist: NavaidDb.Chord,
                   gpwsFound: bool) returns (ok: bool)
      requires inited
      modifies this`inited, this`navradUp, this`ndb
      ensures ok <==> cacheOk && NavaidDb.Create(srcs, v, dist).Some? && gpwsFound
      ensures ok ==> inited && navradUp && ndb.Some? && fresh(ndb.value)
                     && ndb.value.State() == NavaidDb.Create(srcs, v, dist).value
      ensures !ok ==> !inited && !navradUp && ndb.None?
    {
      ok := cacheOk;
      if ok {
        ok := OpenDb(srcs, v, dist);
      }
      if ok {
        navradUp := gpwsFound;
        ok := gpwsFound;
      }
      if !ok {
        Stop();
      }
    }

    /** `crc64_init` and `crc64_srand`: a fresh generator from `seed`. */
    method SeedRng(seed: bv64)
      modifies this`rng
      ensures rng != null && fresh(rng) && rng.Valid() && rng.seed == seed
    {
      rng := new Crc64.CrcGen(seed);
    }

    /** `ndb = navaiddb_create(...)` and its NULL test. */
    method OpenDb(srcs: NavaidDb.Sources, v: NavaidDb.FreqChecks, dist: NavaidDb.Chord) returns (ok: bool)
      modifies this`ndb
      ensures ok <==> NavaidDb.Create(srcs, v, dist).Some?
      ensures ok ==> ndb.Some? && fresh(ndb.value) && ndb.value.State() == NavaidDb.Create(srcs, v, dist).value
      ensures !ok ==> ndb.None?
    {
      ndb := NavaidDb.CreateDb(srcs, v, dist);
      ok := ndb.Some?;
    }

    /** The path handling of `XPluginStart`: both directories truncated in place. */
    method SetDirs(systemPath: string, pluginPath: string, sep: char)
      requires |systemPath| > 0
      modifies this`xpdir, this`plugindir
      ensures DirsFrom(systemPath, pluginPath, sep)
    {
      xpdir := systemPath;
      if IsPathSep(xpdir[|xpdir| - 1]) {
        xpdir := xpdir[..|xpdir| - 1];
      }
      plugindir := pluginPath;
      var p := LastSep(plugindir, sep);
      if p.Some? {
        plugindir := plugindir[..p.value];
      }
      assert plugindir == CutLastComponent(pluginPath, sep);
      p := LastSep(plugindir, sep);
      if p.Some? && plugindir[p.value + 1..] in ArchDirs {
        plugindir := plugindir[..p.value];
      }
    }

    /**
     * `XPluginStop`: nothing unless started; otherwise stop the radios,
     * destroy the navaid database and forget it, and clear the flag, so a
     * second stop does nothing.
     */
    method Stop()
      modifies this`inited, this`navradUp, this`ndb
      ensures !inited
      ensures old(inited) ==> !navradUp && ndb.None?
      ensures !old(inited) ==> ndb == old(ndb) && navradUp == old(navradUp)
    {
      if !inited {
        return;
      }
      inited := false;
      navradUp := false;
      if ndb.Some? {
        ndb := None;
      }
    }
  }
}

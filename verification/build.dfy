/** `ejdb2-sys/build.rs`: the decisions the build script makes before it
    hands over to CMake, bindgen and the linker: whether to link the
    engine statically, where the Cargo profile folder is, and which
    MinGW gcc library directory to use.

    The process environment is a map, a directory listing is a sequence
    of entries, and a path is its list of components. Printing, copying,
    patching files and running external tools are not modelled. */
module BuildScript {
  import opened Types


  /** The script's `anyhow::Result`. */
  datatype Fallible<T> = Success(value: T) | Failure(message: string)

  /** `env::var`: a value is either text or not valid Unicode (which
      `env::var` reports as an error). */
  datatype EnvValue = Text(s: string) | NotUnicode

  type Env = map<string, EnvValue>

  // ---------------------------------------------------------------------
  // Environment flags

  /** ASCII lower-casing of one character. */
  function LowerChar(c: char): (l: char)
    ensures 'A' <= c <= 'Z' ==> l as int == c as int + 32
    ensures !('A' <= c <= 'Z') ==> l == c
  {
    if 'A' <= c <= 'Z' then (c as int + 32) as char else c
  }

  /** `str::to_lowercase`, restricted to what the comparison with "true"
      can observe. */
  function ToLower(s: string): (r: string)
    ensures |r| == |s|
    ensures forall i :: 0 <= i < |s| ==> r[i] == LowerChar(s[i])
  {
    if s == [] then [] else [LowerChar(s[0])] + ToLower(s[1..])
  }

  /** "true" written in any mix of cases. */
  predicate IsTrueWord(v: string) {
    |v| == 4 && v[0] in "tT" && v[1] in "rR" && v[2] in "uU" && v[3] in "eE"
  }

  lemma LowerIsTrueIff(v: string)
    ensures ToLower(v) == "true" <==> IsTrueWord(v)
  {
    if ToLower(v) == "true" {
      assert |v| == 4;
      assert LowerChar(v[0]) == 't' && LowerChar(v[1]) == 'r' && LowerChar(v[2]) == 'u' && LowerChar(v[3]) == 'e';
    }
    if IsTrueWord(v) {
      assert ToLower(v) == [LowerChar(v[0]), LowerChar(v[1]), LowerChar(v[2]), LowerChar(v[3])];
    }
  }

  /** `get_env_bool`: unset (or not Unicode) is `None`; otherwise the value
      is true exactly when it is "1" or "true" in any case. */
  function GetEnvBool(env: Env, key: string): (r: Option<bool>)
    ensures r.Some? <==> key in env && env[key].Text?
    ensures r.Some? ==> (r.value <==> env[key].s == "1" || IsTrueWord(env[key].s))
  {
    if key in env && env[key].Text? then
      var v := env[key].s;
      LowerIsTrueIff(v);
      Some(v == "1" || ToLower(v) == "true")
    else None
  }

  /** `check_static`: `EJDB2_STATIC` decides when set, otherwise
      `EJDB2_DYNAMIC` decides (negated) when set, otherwise the target's
      `crt-static` feature. */
  function CheckStatic(env: Env, crtStatic: bool): (r: bool)
    ensures GetEnvBool(env, "EJDB2_STATIC").Some? ==> r == GetEnvBool(env, "EJDB2_STATIC").value
    ensures GetEnvBool(env, "EJDB2_STATIC").None? && GetEnvBool(env, "EJDB2_DYNAMIC").Some? ==>
      r == !GetEnvBool(env, "EJDB2_DYNAMIC").value
    ensures GetEnvBool(env, "EJDB2_STATIC").None? && GetEnvBool(env, "EJDB2_DYNAMIC").None? ==> r == crtStatic
  {
    match GetEnvBool(env, "EJDB2_STATIC")
    case Some(v) => v
    case None =>
      match GetEnvBool(env, "EJDB2_DYNAMIC")
      case Some(v) => !v
      case None => crtStatic
  }

  /** A set `EJDB2_STATIC` overrides everything below it: the other
      variables and the target feature no longer matter. */
  lemma StaticVariableWins(env: Env, dynamic: EnvValue, crtA: bool, crtB: bool)
    requires "EJDB2_STATIC" in env && env["EJDB2_STATIC"].Text?
    ensures CheckStatic(env["EJDB2_DYNAMIC" := dynamic], crtA) == CheckStatic(env, crtB)
  {
    assert env["EJDB2_DYNAMIC" := dynamic]["EJDB2_STATIC"] == env["EJDB2_STATIC"];
  }

  /** The development flag in `main` is off, so the link mode is exactly
      what `check_static` says. */
  const DEV_STATIC := false

  function LinkStatically(env: Env, crtStatic: bool): (r: bool)
    ensures r == CheckStatic(env, crtStatic)
  {
    DEV_STATIC || CheckStatic(env, crtStatic)
  }

  /** `env::var("DEBUG")` read through `get_env_bool`, defaulting to false:
      the CMake profile. */
  function CmakeProfile(env: Env): (p: string)
    ensures p == "RelWithDebInfo" <==> GetEnvBool(env, "DEBUG") == Some(true)
    ensures p == "Release" || p == "RelWithDebInfo"
  {
    if GetEnvBool(env, "DEBUG") == Some(true) then "RelWithDebInfo" else "Release"
  }

  /** The `BUILD_SHARED_LIBS` value handed to CMake. */
  function SharedLibs(isStatic: bool): (v: string)
    ensures v == "OFF" <==> isStatic
    ensures v == "ON" <==> !isStatic
  {
    if isStatic then "OFF" else "ON"
  }

  /** Where `config_and_build` takes the engine from: a prebuilt install
      when `EJDB2_INSTALL_PATH` is readable, otherwise a source build of
      `EJDB2_SOURCE`, whose absence makes the script panic. */
  datatype InstallPlan = Prebuilt(installDir: string) | FromSource(sourceDir: string) | MissingSource

  function PlanInstall(env: Env): (p: InstallPlan)
    ensures p.Prebuilt? <==> "EJDB2_INSTALL_PATH" in env && env["EJDB2_INSTALL_PATH"].Text?
    ensures p.Prebuilt? ==> p.installDir == env["EJDB2_INSTALL_PATH"].s
    ensures p.FromSource? ==> "EJDB2_SOURCE" in env && env["EJDB2_SOURCE"].Text? && p.sourceDir == env["EJDB2_SOURCE"].s
    ensures p.MissingSource? <==> !p.Prebuilt? && !("EJDB2_SOURCE" in env && env["EJDB2_SOURCE"].Text?)
  {
    if "EJDB2_INSTALL_PATH" in env && env["EJDB2_INSTALL_PATH"].Text? then Prebuilt(env["EJDB2_INSTALL_PATH"].s)
    else if "EJDB2_SOURCE" in env && env["EJDB2_SOURCE"].Text? then FromSource(env["EJDB2_SOURCE"].s)
    else MissingSource
  }

  // ---------------------------------------------------------------------
  // Paths

  /** A path: whether it starts at the root, and its components. */
  datatype Path = Path(absolute: bool, comps: seq<string>)

  /** `Path::parent`: the path without its last component; the root and
      the empty path have none. */
  function Parent(p: Path): (r: Option<Path>)
    ensures r.None? <==> p.comps == []
    ensures r.Some? ==> r.value == Path(p.absolute, p.comps[..|p.comps| - 1])
  {
    if p.comps == [] then None else Some(Path(p.absolute, p.comps[..|p.comps| - 1]))
  }

  /** `get_profile_folder`: three levels up from the build output
      directory, or an error when the path is too short. */
  method GetProfileFolder(outDir: Path) returns (r: Fallible<Path>)
    ensures r.Success? <==> |outDir.comps| >= 3
    ensures r.Success? ==> r.value == Path(outDir.absolute, outDir.comps[..|outDir.comps| - 3])
    ensures r.Failure? ==> r.message == "failed to get cargo profile folder"
  {
    var p := outDir;
    var i := 0;
    while i < 3
      invariant 0 <= i <= 3
      invariant i <= |outDir.comps|
      invariant p == Path(outDir.absolute, outDir.comps[..|outDir.comps| - i])
    {
      var up := Parent(p);
      if up.None? {
        return Failure("failed to get cargo profile folder");
      }
      p := up.value;
      i := i + 1;
    }
    return Success(p);
  }

  // ---------------------------------------------------------------------
  // Versions

  predicate IsDigit(c: char) {
    '0' <= c <= '9'
  }

  /** The number a non-empty run of decimal digits denotes. */
  function DigitsValue(s: string): nat
    requires forall i :: 0 <= i < |s| ==> IsDigit(s[i])
    decreases |s|
  {
    if s == [] then 0 else 10 * DigitsValue(s[..|s| - 1]) + DigitVal(s[|s| - 1])
  }

  function DigitVal(c: char): (d: nat)
    requires IsDigit(c)
    ensures d < 10 && d == c as int - '0' as int
  {
    c as int - '0' as int
  }

  /** A non-empty run of ASCII digits. */
  predicate IsDecimal(s: string) {
    |s| > 0 && forall i :: 0 <= i < |s| ==> IsDigit(s[i])
  }

  /** `usize::from_str`: an optional `+`, then at least one ASCII digit,
      denoting a value that fits in 64 bits. Leading zeros are allowed. */
  function ParseUsize(s: string): (r: Option<nat>)
    ensures r.Some? ==> r.value < TWO_64
    ensures r.Some? ==> |s| > 0 && (s[0] == '+' || IsDigit(s[0]))
    ensures r.Some? ==> forall i :: 1 <= i < |s| ==> IsDigit(s[i])
    ensures r.Some? && IsDigit(s[0]) ==> r.value == DigitsValue(s)
    ensures r.Some? && s[0] == '+' ==> IsDecimal(s[1..]) && r.value == DigitsValue(s[1..])
    ensures IsDecimal(s) && DigitsValue(s) < TWO_64 ==> r == Some(DigitsValue(s))
    ensures |s| > 0 && s[0] == '+' && IsDecimal(s[1..]) && DigitsValue(s[1..]) < TWO_64 ==> r == Some(DigitsValue(s[1..]))
    ensures s == [] || s == "+" ==> r.None?
  {
    var digits := if |s| > 0 && s[0] == '+' then s[1..] else s;
    if digits == [] || exists i :: 0 <= i < |digits| && !IsDigit(digits[i]) then None
    else
      var v := DigitsValue(digits);
      if v < TWO_64 then Some(v) else None
  }

  /** `str::split('.')`: the pieces between the dots, always at least
      one. */
  function Split(s: string): (parts: seq<string>)
    ensures |parts| >= 1
    ensures forall i :: 0 <= i < |parts| ==> '.' !in parts[i]
    decreases |s|
  {
    if s == [] then [[]]
    else if s[0] == '.' then [[]] + Split(s[1..])
    else
      var rest := Split(s[1..]);
      [[s[0]] + rest[0]] + rest[1..]
  }

  /** Joining pieces with dots. */
  function Join(parts: seq<string>): string
    requires |parts| >= 1
    decreases |parts|
  {
    if |parts| == 1 then parts[0] else parts[0] + "." + Join(parts[1..])
  }

  /** Splitting loses nothing: the pieces joined with dots give back the
      text. */
  lemma {:induction false} JoinSplit(s: string)
    ensures Join(Split(s)) == s
    decreases |s|
  {
    if s != [] {
      JoinSplit(s[1..]);
      var rest := Split(s[1..]);
      if s[0] == '.' {
        assert Split(s) == [[]] + rest;
        assert ([[]] + rest)[1..] == rest;
        assert s == [] + "." + s[1..];
      } else {
        if |rest| == 1 {
          assert Join(Split(s)) == [s[0]] + rest[0];
        } else {
          var parts := Split(s);
          assert parts[1..] == rest[1..];
          assert Join(rest) == rest[0] + "." + Join(rest[1..]);
          assert Join(parts) == ([s[0]] + rest[0]) + "." + Join(rest[1..]);
        }
      }
    }
  }

  /** A dot-free piece followed by a dot splits off as the first piece. */
  lemma {:induction false} SplitDotFree(a: string, rest: string)
    requires '.' !in a
    ensures Split(a + "." + rest) == [a] + Split(rest)
    decreases |a|
  {
    if a == [] {
      assert a + "." + rest == ['.'] + rest;
      assert (['.'] + rest)[1..] == rest;
    } else {
      SplitDotFree(a[1..], rest);
      assert (a + "." + rest)[1..] == a[1..] + "." + rest;
      assert [a[0]] + a[1..] == a;
    }
  }

  lemma {:induction false} SplitNoDot(a: string)
    requires '.' !in a
    ensures Split(a) == [a]
    decreases |a|
  {
    if a != [] {
      SplitNoDot(a[1..]);
      assert [a[0]] + a[1..] == a;
    }
  }

  /** `(major, minor, patch)`, compared lexicographically. */
  datatype Version = Version(major: nat, minor: nat, patch: nat)

  predicate VersionLt(a: Version, b: Version) {
    a.major < b.major
    || (a.major == b.major && a.minor < b.minor)
    || (a.major == b.major && a.minor == b.minor && a.patch < b.patch)
  }

  /** `parse_version`: the first three dot-separated pieces as numbers;
      fewer pieces, or a piece that is not a number, gives `None`, and any
      further pieces are ignored. */
  function ParseVersion(ver: string): (r: Option<Version>)
    ensures r.Some? <==> (|Split(ver)| >= 3 && ParseUsize(Split(ver)[0]).Some?
                          && ParseUsize(Split(ver)[1]).Some? && ParseUsize(Split(ver)[2]).Some?)
    ensures r.Some? ==> r.value == Version(ParseUsize(Split(ver)[0]).value, ParseUsize(Split(ver)[1]).value, ParseUsize(Split(ver)[2]).value)
  {
    var parts := Split(ver);
    if |parts| < 3 then None
    else
      match (ParseUsize(parts[0]), ParseUsize(parts[1]), ParseUsize(parts[2]))
      case (Some(major), Some(minor), Some(patch)) => Some(Version(major, minor, patch))
      case _ => None
  }

  /** The decimal digit for `d`. */
  function DigitChar(d: nat): (c: char)
    requires d < 10
    ensures IsDigit(c) && c as int - '0' as int == d
  {
    (d + '0' as int) as char
  }

  /** The decimal text of `n`, most significant digit first. */
  function ShowNat(n: nat): (s: string)
    ensures |s| >= 1 && forall i :: 0 <= i < |s| ==> IsDigit(s[i])
    decreases n
  {
    if n < 10 then [DigitChar(n)] else ShowNat(n / 10) + [DigitChar(n % 10)]
  }

  lemma {:induction false} ShowNatValue(n: nat)
    ensures DigitsValue(ShowNat(n)) == n
    decreases n
  {
    if n >= 10 {
      ShowNatValue(n / 10);
      var s := ShowNat(n);
      assert s[..|s| - 1] == ShowNat(n / 10);
    }
  }

  /** `usize::from_str` reads back every number it can hold. */
  lemma ParseShowNat(n: nat)
    requires n < TWO_64
    ensures ParseUsize(ShowNat(n)) == Some(n)
  {
    ShowNatValue(n);
  }

  /** The directory name a gcc release installs under. */
  function ShowVersion(v: Version): string {
    ShowNat(v.major) + "." + ShowNat(v.minor) + "." + ShowNat(v.patch)
  }

  /** `parse_version` reads back every version it can represent. */
  lemma ParseShowVersion(v: Version)
    requires v.major < TWO_64 && v.minor < TWO_64 && v.patch < TWO_64
    ensures ParseVersion(ShowVersion(v)) == Some(v)
  {
    var a, b, c := ShowNat(v.major), ShowNat(v.minor), ShowNat(v.patch);
    assert '.' !in a && '.' !in b && '.' !in c by {
      assert forall i :: 0 <= i < |a| ==> IsDigit(a[i]);
      assert forall i :: 0 <= i < |b| ==> IsDigit(b[i]);
      assert forall i :: 0 <= i < |c| ==> IsDigit(c[i]);
    }
    assert ShowVersion(v) == a + "." + (b + "." + c);
    SplitDotFree(a, b + "." + c);
    SplitDotFree(b, c);
    SplitNoDot(c);
    assert Split(ShowVersion(v)) == [a, b, c];
    ParseShowNat(v.major);
    ParseShowNat(v.minor);
    ParseShowNat(v.patch);
  }

  /** `usize::from_str` accepts a leading `+` and leading zeros. */
  lemma PlusAndLeadingZeros()
    ensures ParseUsize("+7") == Some(7)
    ensures ParseUsize("007") == Some(7)
    ensures ParseUsize("+") == None && ParseUsize("7a") == None
  {
    assert IsDecimal("7");
    assert "+7"[1..] == "7";
    assert "007"[..2] == "00" && "00"[..1] == "0";
    assert "7a"[1] == 'a';
  }

  lemma SplitFourPieces()
    ensures Split("10.2.0.1") == ["10", "2", "0", "1"]
  {
    SplitNoDot("1");
    SplitDotFree("0", "1");
    assert "0" + "." + "1" == "0.1";
    SplitDotFree("2", "0.1");
    assert "2" + "." + "0.1" == "2.0.1";
    SplitDotFree("10", "2.0.1");
    assert "10" + "." + "2.0.1" == "10.2.0.1";
  }

  lemma ParseSmallNumbers()
    ensures ParseUsize("10") == Some(10) && ParseUsize("2") == Some(2) && ParseUsize("0") == Some(0)
  {
    assert ShowNat(10) == "10" && ShowNat(2) == "2" && ShowNat(0) == "0";
    ParseShowNat(10);
    ParseShowNat(2);
    ParseShowNat(0);
  }

  /** A gcc directory name with a fourth piece keeps its first three
      numbers. */
  lemma FourPieceVersion()
    ensures ParseVersion("10.2.0.1") == Some(Version(10, 2, 0))
  {
    SplitFourPieces();
    ParseSmallNumbers();
  }

  /** A name with only two pieces is not a version. */
  lemma TwoPieceName()
    ensures ParseVersion("10.2") == None
  {
    SplitNoDot("2");
    SplitDotFree("10", "2");
    assert "10" + "." + "2" == "10.2";
  }

  // ---------------------------------------------------------------------
  // Finding gcc

  /** One `read_dir` item: whether it could be read, whether it is a
      directory, and its file name when that is valid UTF-8. */
  datatype DirEntry = DirEntry(readable: bool, isDir: bool, name: Option<string>)

  /** The version of an entry `find_gcc` considers: a readable directory
      whose UTF-8 name parses as a version. Every other entry is skipped. */
  function Rank(e: DirEntry): Option<Version> {
    if e.readable && e.isDir && e.name.Some? then ParseVersion(e.name.value) else None
  }

  function Ranks(entries: seq<DirEntry>): (vs: seq<Option<Version>>)
    ensures |vs| == |entries|
    ensures forall i :: 0 <= i < |entries| ==> vs[i] == Rank(entries[i])
  {
    if entries == [] then [] else [Rank(entries[0])] + Ranks(entries[1..])
  }

  /** Position `k` holds a version no other version outranks, and every
      version listed after it is strictly lower. */
  predicate IsChosen(vs: seq<Option<Version>>, k: int)
  {
    0 <= k < |vs| && vs[k].Some?
    && (forall i :: 0 <= i < |vs| && vs[i].Some? ==> !VersionLt(vs[k].value, vs[i].value))
    && (forall i :: k < i < |vs| && vs[i].Some? ==> VersionLt(vs[i].value, vs[k].value))
  }

  /** The element a stable sort by version followed by taking the last
      element selects, or -1 when there is none. */
  method PickLast(vs: seq<Option<Version>>) returns (best: int)
    ensures best == -1 <==> forall i :: 0 <= i < |vs| ==> vs[i].None?
    ensures best != -1 ==> IsChosen(vs, best)
  {
    best := -1;
    var i := 0;
    while i < |vs|
      invariant 0 <= i <= |vs|
      invariant -1 <= best < i
      invariant best == -1 <==> forall j :: 0 <= j < i ==> vs[j].None?
      invariant best >= 0 ==> IsChosen(vs[..i], best)
    {
      if vs[i].Some? && (best == -1 || !VersionLt(vs[i].value, vs[best].value)) {
        best := i;
      }
      assert vs[..i + 1][..i] == vs[..i];
      i := i + 1;
    }
    assert vs[..i] == vs;
  }

  /** The directory `find_gcc` lists: `lib/gcc/<arch>` under the MinGW
      root. */
  function GccRoot(mingw64: Path, arch: string): (root: Path)
    ensures root.absolute == mingw64.absolute
    ensures |root.comps| == |mingw64.comps| + 3
    ensures root.comps[..|mingw64.comps|] == mingw64.comps
    ensures root.comps[|mingw64.comps|..] == ["lib", "gcc", arch]
  {
    Path(mingw64.absolute, mingw64.comps + ["lib", "gcc", arch])
  }

  /** `find_gcc`: the full path, under `GccRoot`, of the highest-versioned
      candidate; among equal versions the one listed last (the sort is
      stable and the last element is taken). A listing that cannot be
      opened, or that holds no candidate, is an error. */
  method FindGcc(mingw64: Path, arch: string, listing: Fallible<seq<DirEntry>>) returns (r: Fallible<Path>)
    ensures listing.Failure? ==> r == Failure(listing.message)
    ensures listing.Success? ==> (r.Success? <==> exists i :: 0 <= i < |listing.value| && Rank(listing.value[i]).Some?)
    ensures listing.Success? && r.Failure? ==> r.message == "Failed to find gcc for mingw64"
    ensures listing.Success? && r.Success? ==>
      exists k :: IsChosen(Ranks(listing.value), k) && Parent(r.value) == Some(GccRoot(mingw64, arch))
        && r.value.comps[|r.value.comps| - 1] == listing.value[k].name.value
  {
    if listing.Failure? {
      return Failure(listing.message);
    }
    var entries := listing.value;
    var vs := Ranks(entries);
    var best := PickLast(vs);
    if best == -1 {
      return Failure("Failed to find gcc for mingw64");
    }
    assert Rank(entries[best]).Some?;
    var root := GccRoot(mingw64, arch);
    r := Success(Path(root.absolute, root.comps + [entries[best].name.value]));
    assert (root.comps + [entries[best].name.value])[..|root.comps|] == root.comps;
  }
}

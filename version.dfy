/**
 * The version checker: whether a registry's latest version is newer than the
 * installed one, and the list of outdated packages. The registry queries
 * (npm and Homebrew over HTTP, through the cache) are a parameter: a lookup
 * from source and package name to the latest version, if one was obtained.
 */
module Version {
  import opened Wrappers
  import opened Str
  import opened Model
  import SemVer

  /** The version text handed to the SemVer parser: every leading lowercase `v` removed. */
  function StripV(s: string): string
  {
    TrimStartMatches(s, "v")
  }

  /**
   * `is_newer`: by SemVer precedence when both sides parse after stripping;
   * otherwise never for an `unknown` installed version, and otherwise
   * whenever the two original strings differ.
   */
  function IsNewer(latest: string, current: string): bool
  {
    match (SemVer.Parse(StripV(latest)), SemVer.Parse(StripV(current)))
    case (Some(l), Some(c)) => SemVer.Less(c, l)
    case _ => if current == "unknown" then false else latest != current
  }

  /** No version is newer than itself. */
  lemma IsNewerIrreflexive(x: string)
    ensures !IsNewer(x, x)
  {
    if SemVer.Parse(StripV(x)).Some? {
      SemVer.LessIrreflexive(SemVer.Parse(StripV(x)).value);
    }
  }

  /** Between two parsable versions, at most one direction is newer, and exactly one when they differ in precedence. */
  lemma IsNewerSemVer(latest: string, current: string)
    requires SemVer.Parse(StripV(latest)).Some? && SemVer.Parse(StripV(current)).Some?
    ensures IsNewer(latest, current) ==> !IsNewer(current, latest)
    ensures SemVer.Parse(StripV(latest)) != SemVer.Parse(StripV(current)) ==> IsNewer(latest, current) || IsNewer(current, latest)
  {
    var l, c := SemVer.Parse(StripV(latest)).value, SemVer.Parse(StripV(current)).value;
    SemVer.LessTotal(l, c);
    if SemVer.Less(c, l) {
      SemVer.LessAsymmetric(c, l);
    }
  }

  /** Newer is transitive among parsable versions. */
  lemma IsNewerTransitive(a: string, b: string, c: string)
    requires SemVer.Parse(StripV(a)).Some? && SemVer.Parse(StripV(b)).Some? && SemVer.Parse(StripV(c)).Some?
    requires IsNewer(a, b) && IsNewer(b, c)
    ensures IsNewer(a, c)
  {
    SemVer.LessTransitive(SemVer.Parse(StripV(c)).value, SemVer.Parse(StripV(b)).value, SemVer.Parse(StripV(a)).value);
  }

  /** Whatever the latest version, an `unknown` installed version is never outdated. */
  lemma {:induction false} UnknownNeverOutdated(latest: string)
    ensures !IsNewer(latest, "unknown")
  {
    NotAVersion("unknown");
  }

  /** A string with no `.`, `-` or `+` is no SemVer version. */
  lemma NotAVersion(s: string)
    requires '.' !in s && '-' !in s && '+' !in s && |s| > 0 && s[0] != 'v'
    ensures SemVer.Parse(StripV(s)) == Option.None
  {
    assert !StartsWith(s, "v");
    SplitOnceAbsent(s, '+');
    SplitOnceAbsent(s, '-');
    SplitNoSeparator(s, '.');
  }

  /** Leading `v`s on either side are ignored for versions that parse. */
  lemma {:induction false} StripVPrefix(s: string)
    ensures StripV("v" + s) == StripV(s)
  {
    assert StartsWith("v" + s, "v");
    assert ("v" + s)[1..] == s;
  }

  /** A string that is the text of a version parses to it; the leading-`v` strip finds nothing to remove. */
  lemma ParsesAs(s: string, v: SemVer.Version)
    requires SemVer.WellFormed(v) && s == SemVer.Format(v)
    ensures SemVer.Parse(StripV(s)) == Some(v)
  {
    SemVer.ParseFormat(v);
    NatToStringDigits(v.major);
    assert !StartsWith(s, "v");
  }

  /** The text of a plain release `x.y.z` with one-digit numbers. */
  lemma ReleaseText(x: nat, y: nat, z: nat)
    requires x < 10 && y < 10 && z < 10
    ensures SemVer.Format(SemVer.Version(x, y, z, [])) == [Digit(x), '.', Digit(y), '.', Digit(z)]
  {
  }

  function Digit(n: nat): char
    requires n < 10
  {
    ('0' as int + n) as char
  }

  /** A one-digit release parses to itself. */
  lemma ReleaseParses(s: string, x: nat, y: nat, z: nat)
    requires x < 10 && y < 10 && z < 10
    requires s == [Digit(x), '.', Digit(y), '.', Digit(z)]
    ensures SemVer.Parse(StripV(s)) == Some(SemVer.Version(x, y, z, []))
  {
    ReleaseText(x, y, z);
    ParsesAs(s, SemVer.Version(x, y, z, []));
  }

  /** The release cases of the source's unit tests. */
  lemma IsNewerReleaseSamples()
    ensures IsNewer("2.0.0", "1.0.0") && IsNewer("1.1.0", "1.0.0") && IsNewer("1.0.1", "1.0.0")
    ensures !IsNewer("1.0.0", "2.0.0")
  {
    ReleaseParses("1.0.0", 1, 0, 0);
    ReleaseParses("2.0.0", 2, 0, 0);
    ReleaseParses("1.1.0", 1, 1, 0);
    ReleaseParses("1.0.1", 1, 0, 1);
  }

  /** Numbers compare by value, not as text. */
  lemma IsNewerNumericSamples()
    ensures IsNewer("10.0.0", "9.0.0")
  {
    var v10 := SemVer.Version(10, 0, 0, []);
    assert SemVer.Format(v10) == "10.0.0";
    ParsesAs("10.0.0", v10);
    ReleaseParses("9.0.0", 9, 0, 0);
  }

  lemma IsNewerMinorNumericSample()
    ensures IsNewer("1.10.0", "1.9.0")
  {
    var v110 := SemVer.Version(1, 10, 0, []);
    assert SemVer.Format(v110) == "1.10.0";
    ParsesAs("1.10.0", v110);
    ReleaseParses("1.9.0", 1, 9, 0);
  }

  /** A leading `v` on either side makes no difference. */
  lemma IsNewerPrefixSamples()
    ensures IsNewer("v2.0.0", "v1.0.0") && IsNewer("v2.0.0", "1.0.0") && IsNewer("2.0.0", "v1.0.0")
  {
    ReleaseParses("1.0.0", 1, 0, 0);
    ReleaseParses("2.0.0", 2, 0, 0);
    StripVPrefix("2.0.0");
    StripVPrefix("1.0.0");
  }

  /** On the texts of well-formed versions, `is_newer` is exactly SemVer precedence. */
  lemma IsNewerFormatted(a: SemVer.Version, b: SemVer.Version)
    requires SemVer.WellFormed(a) && SemVer.WellFormed(b)
    ensures IsNewer(SemVer.Format(a), SemVer.Format(b)) == SemVer.Less(b, a)
  {
    ParsesAs(SemVer.Format(a), a);
    ParsesAs(SemVer.Format(b), b);
  }

  /** So a release is newer than each of its pre-releases, and never the other way round. */
  lemma ReleaseNewerThanPrerelease(v: SemVer.Version)
    requires SemVer.WellFormed(v) && v.pre != []
    ensures IsNewer(SemVer.Format(v.(pre := [])), SemVer.Format(v))
    ensures !IsNewer(SemVer.Format(v), SemVer.Format(v.(pre := [])))
  {
    IsNewerFormatted(v.(pre := []), v);
    IsNewerFormatted(v, v.(pre := []));
    SemVer.ReleaseOutranksPrerelease(v);
    SemVer.LessAsymmetric(v, v.(pre := []));
  }

  /** The source's fallback tests: text that is no SemVer compares by equality. */
  lemma IsNewerFallbackSamples()
    ensures !IsNewer("2.0.0", "unknown") && !IsNewer("anything", "unknown")
    ensures !IsNewer("same", "same")
    ensures IsNewer("2024.01.15", "2024.01.14")
  {
    UnknownNeverOutdated("2.0.0");
    UnknownNeverOutdated("anything");
    IsNewerIrreflexive("same");
    LeadingZeroRejected("2024.01.15");
    LeadingZeroRejected("2024.01.14");
  }

  /** Three dot-separated parts whose middle one is no SemVer number make the text no SemVer version. */
  lemma BadMinorRejected(x: string, m: string, z: string)
    requires x != [] && x[0] != 'v' && SemVer.ParseNumber(m) == Option.None
    requires forall ch :: ch in x + m + z ==> ch != '.' && ch != '+' && ch != '-'
    ensures SemVer.Parse(StripV(x + "." + m + "." + z)) == Option.None
  {
    var s := x + "." + m + "." + z;
    assert s[0] == x[0];
    assert !StartsWith(s, "v");
    assert forall ch :: ch in s ==> ch != '+' && ch != '-' by {
      assert forall ch :: ch in s ==> ch in x + m + z || ch == '.';
    }
    SplitOnceAbsent(s, '+');
    SplitOnceAbsent(s, '-');
    assert [x, m, z][1..] == [m, z] && [m, z][1..] == [z];
    assert Join([m, z], '.') == m + "." + z;
    assert s == Join([x, m, z], '.');
    assert '.' !in x && '.' !in m && '.' !in z by {
      assert forall ch :: ch in x || ch in m || ch in z ==> ch in x + m + z;
    }
    JoinSplit([x, m, z], '.');
  }

  /** A minor number with a leading zero, as in calendar versions, makes the text no SemVer version. */
  lemma LeadingZeroRejected(s: string)
    requires s == "2024.01.15" || s == "2024.01.14"
    ensures SemVer.Parse(StripV(s)) == Option.None
  {
    var z := if s == "2024.01.15" then "15" else "14";
    assert s == "2024" + "." + "01" + "." + z;
    assert SemVer.ParseNumber("01") == Option.None;
    BadMinorRejected("2024", "01", z);
  }

  /** The latest version the registry reported; only npm and Homebrew packages are looked up. */
  function LatestFor(p: Package, registry: (Source, string) -> Option<string>): Option<string>
  {
    if p.source == Npm || p.source == Homebrew then registry(p.source, p.name) else Option.None
  }

  /** `check_package`: an outdated record exactly when a latest version came back and it is newer. */
  function CheckPackage(p: Package, registry: (Source, string) -> Option<string>): (r: Option<OutdatedInfo>)
    ensures r.Some? <==> LatestFor(p, registry).Some? && IsNewer(LatestFor(p, registry).value, p.version)
    ensures r.Some? ==>
      r.value.packageId == p.id && r.value.currentVersion == p.version && Some(r.value.latestVersion) == LatestFor(p, registry)
  {
    match LatestFor(p, registry)
    case None => Option.None
    case Some(latest) =>
      if IsNewer(latest, p.version) then Some(OutdatedInfo(p.id, p.version, latest)) else Option.None
  }

  /** The present values of a list of options, in order. */
  function Present<T>(s: seq<Option<T>>): seq<T>
  {
    if s == [] then []
    else
      var init := Present(s[..|s| - 1]);
      match s[|s| - 1]
      case None => init
      case Some(x) => init + [x]
  }

  lemma {:induction false} PresentAppend<T>(a: seq<Option<T>>, b: seq<Option<T>>)
    ensures Present(a + b) == Present(a) + Present(b)
    decreases |b|
  {
    if b == [] {
      assert a + b == a;
    } else {
      var ab := a + b;
      assert ab[..|ab| - 1] == a + b[..|b| - 1];
      assert ab[|ab| - 1] == b[|b| - 1];
      PresentAppend(a, b[..|b| - 1]);
    }
  }

  lemma {:induction false} PresentMembers<T>(s: seq<Option<T>>, x: T)
    ensures x in Present(s) <==> exists i :: 0 <= i < |s| && s[i] == Some(x)
    decreases |s|
  {
    if s != [] {
      var init := s[..|s| - 1];
      PresentMembers(init, x);
      assert forall i :: 0 <= i < |init| ==> init[i] == s[i];
      if exists i :: 0 <= i < |s| && s[i] == Some(x) {
        var i :| 0 <= i < |s| && s[i] == Some(x);
        if i < |init| {
          assert init[i] == Some(x);
        }
      }
    }
  }

  /** The check of each package, position by position. */
  function Checks(packages: seq<Package>, registry: (Source, string) -> Option<string>): (r: seq<Option<OutdatedInfo>>)
  {
    MapSeq(packages, p => CheckPackage(p, registry))
  }

  /** The outdated records of a package list, in package order. */
  function OutdatedOf(packages: seq<Package>, registry: (Source, string) -> Option<string>): seq<OutdatedInfo>
  {
    Present(Checks(packages, registry))
  }

  /** `check_outdated`: checks each package in order and keeps the records. */
  method CheckOutdated(packages: seq<Package>, registry: (Source, string) -> Option<string>) returns (outdated: seq<OutdatedInfo>)
    ensures outdated == OutdatedOf(packages, registry)
  {
    outdated := [];
    var i := 0;
    while i < |packages|
      invariant 0 <= i <= |packages|
      invariant outdated == Present(Checks(packages[..i], registry))
    {
      ChecksStep(packages, registry, i);
      var info := CheckPackage(packages[i], registry);
      if info.Some? {
        outdated := outdated + [info.value];
      }
      i := i + 1;
    }
    assert packages[..i] == packages;
  }

  lemma ChecksStep(packages: seq<Package>, registry: (Source, string) -> Option<string>, i: nat)
    requires i < |packages|
    ensures Present(Checks(packages[..i + 1], registry)) ==
      Present(Checks(packages[..i], registry)) + (if CheckPackage(packages[i], registry).Some? then [CheckPackage(packages[i], registry).value] else [])
  {
    MapSeqStep(packages, p => CheckPackage(p, registry), i);
    assert Checks(packages[..i + 1], registry) == Checks(packages[..i], registry) + [CheckPackage(packages[i], registry)];
    PresentAppend(Checks(packages[..i], registry), [CheckPackage(packages[i], registry)]);
    assert [CheckPackage(packages[i], registry)][..0] == [];
  }

  /** Checking a concatenation checks each part in turn: package order is kept. */
  lemma OutdatedOfAppend(a: seq<Package>, b: seq<Package>, registry: (Source, string) -> Option<string>)
    ensures OutdatedOf(a + b, registry) == OutdatedOf(a, registry) + OutdatedOf(b, registry)
  {
    MapSeqAppend(a, b, p => CheckPackage(p, registry));
    assert Checks(a + b, registry) == Checks(a, registry) + Checks(b, registry);
    PresentAppend(Checks(a, registry), Checks(b, registry));
  }

  /** A record is reported exactly when some package's check produces it. */
  lemma OutdatedOfMembers(packages: seq<Package>, registry: (Source, string) -> Option<string>, info: OutdatedInfo)
    ensures info in OutdatedOf(packages, registry) <==>
      exists i :: 0 <= i < |packages| && CheckPackage(packages[i], registry) == Some(info)
  {
    var checks := Checks(packages, registry);
    PresentMembers(checks, info);
    forall i | 0 <= i < |packages|
      ensures checks[i] == CheckPackage(packages[i], registry)
    {
      MapSeqAt(packages, p => CheckPackage(p, registry), i);
    }
  }
}

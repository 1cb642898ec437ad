/**
 * The terminal report: the health score, the major/minor/patch reading of
 * an update, the health bands, cell truncation, the severity order of the
 * vulnerability table and the elevated-risk extension table. Colours are
 * kept as a style tag beside the label; the escape codes are left out.
 */
module Cli {
  import opened Wrappers
  import opened Str
  import opened Model
  import ExtensionRisk
  import Version

  // ---------------------------------------------------------------------------
  // Updates

  /** The leading `.`-segment of a version, after stripping leading `v`s, read as a `u32`. */
  function MajorOf(v: string): Option<nat>
  {
    ParseU32(Split(Version.StripV(v), '.')[0])
  }

  /** The second `.`-segment read as a `u32`, when there is one. */
  function MinorOf(v: string): Option<nat>
  {
    var parts := Split(Version.StripV(v), '.');
    if |parts| >= 2 then ParseU32(parts[1]) else Option.None
  }

  /** The rule of the health score and of the summary: both majors read and the latest one is greater. */
  predicate IsMajorUpdate(current: string, latest: string)
  {
    MajorOf(current).Some? && MajorOf(latest).Some? && MajorOf(latest).value > MajorOf(current).value
  }

  /** `classify_update`: "MAJOR", "minor" or "patch". */
  function ClassifyUpdate(current: string, latest: string): string
  {
    var currentParts := Split(Version.StripV(current), '.');
    var latestParts := Split(Version.StripV(latest), '.');
    var currentMajor := ParseU32(currentParts[0]);
    var latestMajor := ParseU32(latestParts[0]);
    if currentMajor.Some? && latestMajor.Some? && latestMajor.value > currentMajor.value then "MAJOR"
    else if |currentParts| >= 2 && |latestParts| >= 2 then
      var currentMinor := ParseU32(currentParts[1]);
      var latestMinor := ParseU32(latestParts[1]);
      if currentMinor.Some? && latestMinor.Some? && currentMajor == latestMajor && latestMinor.value > currentMinor.value
      then "minor"
      else "patch"
    else "patch"
  }

  /** The table's "MAJOR" is exactly the summary's and the health score's major update. */
  lemma ClassifyMajorIff(current: string, latest: string)
    ensures ClassifyUpdate(current, latest) == "MAJOR" <==> IsMajorUpdate(current, latest)
  {
  }

  /**
   * "minor" exactly when the update is not major, both minors read, the
   * latest minor is greater, and the two majors read the same — which
   * includes both failing to read.
   */
  lemma ClassifyMinorIff(current: string, latest: string)
    ensures ClassifyUpdate(current, latest) == "minor" <==>
      && !IsMajorUpdate(current, latest)
      && MinorOf(current).Some? && MinorOf(latest).Some?
      && MajorOf(current) == MajorOf(latest)
      && MinorOf(latest).value > MinorOf(current).value
    ensures ClassifyUpdate(current, latest) in {"MAJOR", "minor", "patch"}
  {
  }

  /** Two unreadable majors count as equal, so such a pair can be a minor update. */
  lemma UnreadableMajorsQuirk()
    ensures ClassifyUpdate("x.1", "y.2") == "minor"
  {
    assert Version.StripV("x.1") == "x.1";
    assert Version.StripV("y.2") == "y.2";
    assert "x.1" == "x" + ['.'] + "1" && "y.2" == "y" + ['.'] + "2";
    SplitAt("x", '.', "1");
    SplitAt("y", '.', "2");
    SplitNoSeparator("x", '.');
    SplitNoSeparator("y", '.');
    SplitNoSeparator("1", '.');
    SplitNoSeparator("2", '.');
    assert "1"[..0] == [] && "2"[..0] == [];
  }

  // ---------------------------------------------------------------------------
  // The health score

  function VulnPenalty(s: Severity): nat
  {
    match s
    case Critical => 25
    case High => 15
    case Medium => 8
    case Low => 3
    case Unknown => 5
  }

  function OutdatedPenalty(o: OutdatedInfo): nat
  {
    if IsMajorUpdate(o.currentVersion, o.latestVersion) then 5 else 2
  }

  function VulnDeductions(vs: seq<Vulnerability>): nat
  {
    if vs == [] then 0 else VulnDeductions(vs[..|vs| - 1]) + VulnPenalty(vs[|vs| - 1].severity)
  }

  function OutdatedDeductions(os: seq<OutdatedInfo>): nat
  {
    if os == [] then 0 else OutdatedDeductions(os[..|os| - 1]) + OutdatedPenalty(os[|os| - 1])
  }

  function Clamp(x: int): (r: nat)
    ensures r <= 100
    ensures 0 <= x <= 100 ==> r == x
  {
    if x < 0 then 0 else if x > 100 then 100 else x
  }

  /** The health score: 100 for an empty scan, otherwise 100 less the deductions, clamped to 0..100. */
  function HealthScore(r: ScanResult): (s: nat)
    ensures s <= 100
    ensures r.packages == [] ==> s == 100
  {
    if r.packages == [] then 100
    else Clamp(100 - VulnDeductions(r.vulnerabilities) - OutdatedDeductions(r.outdated))
  }

  /** `calculate_health_score`: a running score lowered once per vulnerability and per outdated record. */
  method CalculateHealthScore(result: ScanResult) returns (score: nat)
    ensures score == HealthScore(result)
  {
    if result.packages == [] {
      return 100;
    }
    var s: int := 100;
    var vs := result.vulnerabilities;
    for i := 0 to |vs|
      invariant s == 100 - VulnDeductions(vs[..i])
    {
      assert vs[..i + 1][..i] == vs[..i];
      match vs[i].severity
      case Critical => s := s - 25;
      case High => s := s - 15;
      case Medium => s := s - 8;
      case Low => s := s - 3;
      case Unknown => s := s - 5;
    }
    assert vs[..|vs|] == vs;
    var os := result.outdated;
    for j := 0 to |os|
      invariant s == 100 - VulnDeductions(vs) - OutdatedDeductions(os[..j])
    {
      assert os[..j + 1][..j] == os[..j];
      var c := Version.StripV(os[j].currentVersion);
      var l := Version.StripV(os[j].latestVersion);
      var cp := Split(c, '.');
      var lp := Split(l, '.');
      var cm := ParseU32(cp[0]);
      var lm := ParseU32(lp[0]);
      var isMajor := if cm.Some? && lm.Some? then lm.value > cm.value else false;
      if isMajor {
        s := s - 5;
      } else {
        s := s - 2;
      }
    }
    assert os[..|os|] == os;
    score := Clamp(s);
  }

  lemma {:induction false} VulnDeductionsPositive(vs: seq<Vulnerability>)
    ensures VulnDeductions(vs) >= 3 * |vs|
    ensures vs == [] <==> VulnDeductions(vs) == 0
  {
    if vs != [] {
      VulnDeductionsPositive(vs[..|vs| - 1]);
    }
  }

  lemma {:induction false} OutdatedDeductionsPositive(os: seq<OutdatedInfo>)
    ensures OutdatedDeductions(os) >= 2 * |os|
    ensures os == [] <==> OutdatedDeductions(os) == 0
  {
    if os != [] {
      OutdatedDeductionsPositive(os[..|os| - 1]);
    }
  }

  /** A full score means nothing found: no packages, or neither vulnerabilities nor outdated records. */
  lemma HealthPerfectIff(r: ScanResult)
    ensures HealthScore(r) == 100 <==> r.packages == [] || (r.vulnerabilities == [] && r.outdated == [])
  {
    VulnDeductionsPositive(r.vulnerabilities);
    OutdatedDeductionsPositive(r.outdated);
  }

  /** Reporting one more vulnerability never raises the score. */
  lemma MoreVulnerabilitiesLower(r: ScanResult, v: Vulnerability)
    ensures HealthScore(r.(vulnerabilities := r.vulnerabilities + [v])) <= HealthScore(r)
  {
    var vs := r.vulnerabilities + [v];
    assert vs[..|vs| - 1] == r.vulnerabilities;
  }

  /** Reporting one more outdated record never raises the score. */
  lemma MoreOutdatedLower(r: ScanResult, o: OutdatedInfo)
    ensures HealthScore(r.(outdated := r.outdated + [o])) <= HealthScore(r)
  {
    var os := r.outdated + [o];
    assert os[..|os| - 1] == r.outdated;
  }

  /** `health_score_indicator`, over the whole `u8` range. */
  function HealthIndicator(score: nat): string
  {
    if 90 <= score <= 100 then "[Excellent]"
    else if 70 <= score <= 89 then "[Good]"
    else if 50 <= score <= 69 then "[Fair]"
    else if 25 <= score <= 49 then "[Poor]"
    else "[Critical]"
  }

  function IndicatorRank(indicator: string): nat
  {
    if indicator == "[Excellent]" then 4
    else if indicator == "[Good]" then 3
    else if indicator == "[Fair]" then 2
    else if indicator == "[Poor]" then 1
    else 0
  }

  /** Within 0..100 a higher score never gets a worse band; every health score is in that range. */
  lemma HealthIndicatorMonotone(s: nat, t: nat)
    requires s <= t <= 100
    ensures IndicatorRank(HealthIndicator(s)) <= IndicatorRank(HealthIndicator(t))
  {
  }

  // ---------------------------------------------------------------------------
  // Cells

  /**
   * `truncate`: the text when it fits, otherwise its first `maxLen - 3`
   * characters and "..."; a cut below three characters would fail.
   */
  function Truncate(s: string, maxLen: nat): (r: string)
    requires |s| <= maxLen || maxLen >= 3
    ensures |r| == if |s| <= maxLen then |s| else maxLen
    ensures |s| <= maxLen ==> r == s
    ensures |s| > maxLen ==> r[..maxLen - 3] == s[..maxLen - 3] && r[maxLen - 3..] == "..."
  {
    if |s| <= maxLen then s else s[..maxLen - 3] + "..."
  }

  /** A truncated cell fits and truncating it again changes nothing. */
  lemma TruncateIdempotent(s: string, maxLen: nat)
    requires |s| <= maxLen || maxLen >= 3
    ensures |Truncate(s, maxLen)| <= maxLen
    ensures Truncate(Truncate(s, maxLen), maxLen) == Truncate(s, maxLen)
  {
  }

  /** `format_version`: "unknown" is shown as "-". */
  function FormatVersion(v: string): (r: string)
    ensures r == "-" <==> v == "unknown" || v == "-"
    ensures v != "unknown" ==> r == v
  {
    if v == "unknown" then "-" else v
  }

  /** The colour a label is printed in. */
  datatype Style = Red | BrightRed | Yellow | Green | Plain
  datatype Styled = Styled(style: Style, text: string)

  /** `format_risk_level`: anything but critical, high or medium shows as a plain LOW. */
  function FormatRiskLevel(level: string): Styled
  {
    if level == "critical" then Styled(Red, "CRITICAL")
    else if level == "high" then Styled(BrightRed, "HIGH")
    else if level == "medium" then Styled(Yellow, "MEDIUM")
    else Styled(Plain, "LOW")
  }

  /** The label of a report's band: LOW exactly for totals up to 20, CRITICAL exactly above 300. */
  lemma RiskLevelLabels(total: nat)
    ensures FormatRiskLevel(ExtensionRisk.RiskBand(total)).text == "LOW" <==> total <= 20
    ensures FormatRiskLevel(ExtensionRisk.RiskBand(total)).text == "CRITICAL" <==> total > 300
  {
  }

  function FormatSeverity(s: Severity): Styled
  {
    match s
    case Critical => Styled(Red, "CRITICAL")
    case High => Styled(BrightRed, "HIGH")
    case Medium => Styled(Yellow, "MEDIUM")
    case Low => Styled(Green, "LOW")
    case Unknown => Styled(Plain, "UNKNOWN")
  }

  // ---------------------------------------------------------------------------
  // Severity order of the vulnerability table

  /** The sort key: Critical first, Unknown last. */
  function SeverityKey(s: Severity): nat
  {
    match s
    case Critical => 0
    case High => 1
    case Medium => 2
    case Low => 3
    case Unknown => 4
  }

  function WithSeverity(vs: seq<Vulnerability>, s: Severity): seq<Vulnerability>
  {
    if vs == [] then []
    else WithSeverity(vs[..|vs| - 1], s) + (if vs[|vs| - 1].severity == s then [vs[|vs| - 1]] else [])
  }

  /** The stable sort by severity key: each severity's records in their original order, most severe first. */
  function SortBySeverity(vs: seq<Vulnerability>): seq<Vulnerability>
  {
    WithSeverity(vs, Critical) + WithSeverity(vs, High) + WithSeverity(vs, Medium)
      + WithSeverity(vs, Low) + WithSeverity(vs, Unknown)
  }

  /** A one-element list filtered by severity. */
  lemma WithSeveritySingle(x: Vulnerability, s: Severity)
    ensures WithSeverity([x], s) == if x.severity == s then [x] else []
  {
    assert [x][..0] == [];
  }

  /** A record occurs in its own severity's list as often as in the input, and never in another's. */
  lemma {:induction false} WithSeverityCount(vs: seq<Vulnerability>, s: Severity, v: Vulnerability)
    ensures multiset(WithSeverity(vs, s))[v] == if v.severity == s then multiset(vs)[v] else 0
  {
    if vs != [] {
      var init := vs[..|vs| - 1];
      WithSeverityCount(init, s, v);
      assert vs == init + [vs[|vs| - 1]];
    }
  }

  lemma SortBySeverityPermutation(vs: seq<Vulnerability>)
    ensures multiset(SortBySeverity(vs)) == multiset(vs)
  {
    forall v
      ensures multiset(SortBySeverity(vs))[v] == multiset(vs)[v]
    {
      WithSeverityCount(vs, Critical, v);
      WithSeverityCount(vs, High, v);
      WithSeverityCount(vs, Medium, v);
      WithSeverityCount(vs, Low, v);
      WithSeverityCount(vs, Unknown, v);
    }
  }

  lemma {:induction false} WithSeverityAll(vs: seq<Vulnerability>, s: Severity)
    ensures forall i :: 0 <= i < |WithSeverity(vs, s)| ==> WithSeverity(vs, s)[i].severity == s
  {
    if vs != [] {
      WithSeverityAll(vs[..|vs| - 1], s);
    }
  }

  lemma SortBySeveritySorted(vs: seq<Vulnerability>)
    ensures var r := SortBySeverity(vs);
      forall i, j :: 0 <= i < j < |r| ==> SeverityKey(r[i].severity) <= SeverityKey(r[j].severity)
  {
    var r := SortBySeverity(vs);
    WithSeverityAll(vs, Critical);
    WithSeverityAll(vs, High);
    WithSeverityAll(vs, Medium);
    WithSeverityAll(vs, Low);
    WithSeverityAll(vs, Unknown);
    var c, h, m, l, u := WithSeverity(vs, Critical), WithSeverity(vs, High), WithSeverity(vs, Medium),
      WithSeverity(vs, Low), WithSeverity(vs, Unknown);
    forall i, j | 0 <= i < j < |r|
      ensures SeverityKey(r[i].severity) <= SeverityKey(r[j].severity)
    {
      SegmentKey(c, h, m, l, u, i);
      SegmentKey(c, h, m, l, u, j);
    }
  }

  lemma SortBySeverityStable(vs: seq<Vulnerability>, s: Severity)
    ensures WithSeverity(SortBySeverity(vs), s) == WithSeverity(vs, s)
  {
    var c, h, m, l, u := WithSeverity(vs, Critical), WithSeverity(vs, High), WithSeverity(vs, Medium),
      WithSeverity(vs, Low), WithSeverity(vs, Unknown);
    WithSeverityConcat(c, h, m, l, u, s);
    WithSeverityOf(vs, Critical, s);
    WithSeverityOf(vs, High, s);
    WithSeverityOf(vs, Medium, s);
    WithSeverityOf(vs, Low, s);
    WithSeverityOf(vs, Unknown, s);
    SelectSegment(WithSeverity(c, s), WithSeverity(h, s), WithSeverity(m, s), WithSeverity(l, s), WithSeverity(u, s), c, h, m, l, u, s);
  }

  /** The segment of five that holds one severity. */
  function Segment<T>(c: T, h: T, m: T, l: T, u: T, s: Severity): T
  {
    match s
    case Critical => c
    case High => h
    case Medium => m
    case Low => l
    case Unknown => u
  }

  /** When each filtered segment is its own or empty, their concatenation is the selected segment. */
  lemma SelectSegment(fc: seq<Vulnerability>, fh: seq<Vulnerability>, fm: seq<Vulnerability>, fl: seq<Vulnerability>, fu: seq<Vulnerability>,
                      c: seq<Vulnerability>, h: seq<Vulnerability>, m: seq<Vulnerability>, l: seq<Vulnerability>, u: seq<Vulnerability>, s: Severity)
    requires fc == if s == Critical then c else []
    requires fh == if s == High then h else []
    requires fm == if s == Medium then m else []
    requires fl == if s == Low then l else []
    requires fu == if s == Unknown then u else []
    ensures fc + fh + fm + fl + fu == Segment(c, h, m, l, u, s)
  {
    match s
    case Critical => assert fc + fh + fm + fl + fu == c;
    case High => assert fc + fh + fm + fl + fu == h;
    case Medium => assert fc + fh + fm + fl + fu == m;
    case Low => assert fc + fh + fm + fl + fu == l;
    case Unknown => assert fc + fh + fm + fl + fu == u;
  }

  /** Filtering five concatenated segments filters each in turn. */
  lemma WithSeverityConcat(c: seq<Vulnerability>, h: seq<Vulnerability>, m: seq<Vulnerability>, l: seq<Vulnerability>, u: seq<Vulnerability>, s: Severity)
    ensures WithSeverity(c + h + m + l + u, s)
      == WithSeverity(c, s) + WithSeverity(h, s) + WithSeverity(m, s) + WithSeverity(l, s) + WithSeverity(u, s)
  {
    WithSeverityAppend(c + h + m + l, u, s);
    WithSeverityAppend(c + h + m, l, s);
    WithSeverityAppend(c + h, m, s);
    WithSeverityAppend(c, h, s);
  }

  /** The table is ordered by key, holds exactly the same records, and keeps equal severities in input order. */
  lemma SortBySeveritySpec(vs: seq<Vulnerability>)
    ensures var r := SortBySeverity(vs);
      && (forall i, j :: 0 <= i < j < |r| ==> SeverityKey(r[i].severity) <= SeverityKey(r[j].severity))
      && multiset(r) == multiset(vs)
      && forall s :: WithSeverity(r, s) == WithSeverity(vs, s)
  {
    SortBySeveritySorted(vs);
    SortBySeverityPermutation(vs);
    forall s
      ensures WithSeverity(SortBySeverity(vs), s) == WithSeverity(vs, s)
    {
      SortBySeverityStable(vs, s);
    }
  }

  /** Where position `i` of the five concatenated segments falls, its key is at least the segment's. */
  lemma SegmentKey(c: seq<Vulnerability>, h: seq<Vulnerability>, m: seq<Vulnerability>, l: seq<Vulnerability>, u: seq<Vulnerability>, i: nat)
    requires forall k :: 0 <= k < |c| ==> c[k].severity == Critical
    requires forall k :: 0 <= k < |h| ==> h[k].severity == High
    requires forall k :: 0 <= k < |m| ==> m[k].severity == Medium
    requires forall k :: 0 <= k < |l| ==> l[k].severity == Low
    requires forall k :: 0 <= k < |u| ==> u[k].severity == Unknown
    requires i < |c| + |h| + |m| + |l| + |u|
    ensures var r := c + h + m + l + u;
      SeverityKey(r[i].severity) == if i < |c| then 0 else if i < |c| + |h| then 1
        else if i < |c| + |h| + |m| then 2 else if i < |c| + |h| + |m| + |l| then 3 else 4
  {
  }

  lemma {:induction false} WithSeverityAppend(a: seq<Vulnerability>, b: seq<Vulnerability>, s: Severity)
    ensures WithSeverity(a + b, s) == WithSeverity(a, s) + WithSeverity(b, s)
    decreases |b|
  {
    if b == [] {
      assert a + b == a;
    } else {
      var ab := a + b;
      assert ab[..|ab| - 1] == a + b[..|b| - 1];
      assert ab[|ab| - 1] == b[|b| - 1];
      WithSeverityAppend(a, b[..|b| - 1], s);
    }
  }

  /** Filtering a filtered list again keeps it, or empties it for another severity. */
  lemma {:induction false} WithSeverityOf(vs: seq<Vulnerability>, t: Severity, s: Severity)
    ensures WithSeverity(WithSeverity(vs, t), s) == if s == t then WithSeverity(vs, t) else []
  {
    if vs != [] {
      var init := vs[..|vs| - 1];
      WithSeverityOf(init, t, s);
      var tail := if vs[|vs| - 1].severity == t then [vs[|vs| - 1]] else [];
      WithSeverityAppend(WithSeverity(init, t), tail, s);
      if tail != [] {
        assert tail[..0] == [];
      }
    }
  }

  // ---------------------------------------------------------------------------
  // The elevated-risk extension table

  datatype RiskRow = RiskRow(name: string, riskLevel: Styled, score: nat, permissions: string, issues: nat)

  predicate IsExtensionSource(s: Source)
  {
    s == Chrome || s == Edge || s == Firefox || s == Vscode
  }

  /** A browser or editor extension with a report whose total is above 20. */
  predicate IsRisky(p: Package)
  {
    IsExtensionSource(p.source) && p.extensionRisk.Some? && p.extensionRisk.value.totalScore > 20
  }

  /** A permission the risky-extensions table lists. */
  predicate IsHighRisk(p: ExtensionRisk.PermissionRisk)
  {
    p.level == ExtensionRisk.Critical || p.level == ExtensionRisk.High
  }

  /** The names of the critical and high permissions, in report order. */
  function HighRiskNames(perms: seq<ExtensionRisk.PermissionRisk>): (r: seq<string>)
    ensures |r| <= |perms|
  {
    if perms == [] then []
    else
      var p := perms[|perms| - 1];
      HighRiskNames(perms[..|perms| - 1]) + (if IsHighRisk(p) then [p.name] else [])
  }

  /** The positions of the critical and high permissions, in increasing order. */
  ghost function HighRiskPositions(perms: seq<ExtensionRisk.PermissionRisk>): seq<nat>
  {
    if perms == [] then []
    else
      var i := |perms| - 1;
      HighRiskPositions(perms[..i]) + (if IsHighRisk(perms[i]) then [i] else [])
  }

  /**
   * The names are those of the critical and high permissions, one per such
   * permission, in the order the report lists them: the `j`-th name belongs
   * to the `j`-th such position, and the positions increase.
   */
  lemma {:induction false} HighRiskNamesPositions(perms: seq<ExtensionRisk.PermissionRisk>)
    ensures var r := HighRiskNames(perms);
      var pos := HighRiskPositions(perms);
      && |pos| == |r|
      && (forall j :: 0 <= j < |pos| ==> pos[j] < |perms| && r[j] == perms[pos[j]].name)
      && (forall a, b :: 0 <= a < b < |pos| ==> pos[a] < pos[b])
      && (forall i :: 0 <= i < |perms| ==> (i in pos <==> IsHighRisk(perms[i])))
    decreases |perms|
  {
    if perms != [] {
      var i := |perms| - 1;
      var init := perms[..i];
      HighRiskNamesPositions(init);
      var r0 := HighRiskNames(init);
      var pos0 := HighRiskPositions(init);
      var keep := IsHighRisk(perms[i]);
      var r := HighRiskNames(perms);
      var pos := HighRiskPositions(perms);
      assert r == r0 + (if keep then [perms[i].name] else []);
      assert pos == pos0 + (if keep then [i] else []);
      forall j | 0 <= j < |pos0|
        ensures pos0[j] < i && perms[pos0[j]] == init[pos0[j]]
      {
      }
      forall k | 0 <= k < i
        ensures (k in pos <==> IsHighRisk(perms[k]))
      {
        assert init[k] == perms[k];
      }
    }
  }

  /** A name is listed exactly when some critical or high permission has it. */
  lemma HighRiskNamesMember(perms: seq<ExtensionRisk.PermissionRisk>, n: string)
    ensures n in HighRiskNames(perms) <==> exists i :: 0 <= i < |perms| && IsHighRisk(perms[i]) && perms[i].name == n
  {
    HighRiskNamesPositions(perms);
    var r := HighRiskNames(perms);
    var pos := HighRiskPositions(perms);
    if n in r {
      var j :| 0 <= j < |r| && r[j] == n;
      assert pos[j] in pos;
    }
    if exists i :: 0 <= i < |perms| && IsHighRisk(perms[i]) && perms[i].name == n {
      var i :| 0 <= i < |perms| && IsHighRisk(perms[i]) && perms[i].name == n;
      var j :| 0 <= j < |pos| && pos[j] == i;
      assert r[j] == n;
    }
  }

  /** `join(sep)` with a text separator. */
  function JoinWith(parts: seq<string>, sep: string): string
  {
    if parts == [] then []
    else if |parts| == 1 then parts[0]
    else parts[0] + sep + JoinWith(parts[1..], sep)
  }

  function RowOf(name: string, report: ExtensionRisk.ExtensionRiskReport): (r: RiskRow)
    ensures r.score == report.totalScore && r.issues == |report.issues|
    ensures |r.name| <= 30 && |r.permissions| <= 35
  {
    var names := HighRiskNames(report.permissions);
    RiskRow(
      Truncate(name, 30),
      FormatRiskLevel(report.riskLevel),
      report.totalScore,
      if names == [] then "-" else Truncate(JoinWith(names, ", "), 35),
      |report.issues|)
  }

  /** One row per risky package, in package order. */
  function RiskRows(packages: seq<Package>): seq<RiskRow>
  {
    if packages == [] then []
    else
      var p := packages[|packages| - 1];
      RiskRows(packages[..|packages| - 1]) + (if IsRisky(p) then [RowOf(p.name, p.extensionRisk.value)] else [])
  }

  /** Inserts a row after every row whose score is at least its own. */
  function InsertRow(sorted: seq<RiskRow>, x: RiskRow): (r: seq<RiskRow>)
    ensures |r| == |sorted| + 1
  {
    if sorted == [] then [x]
    else if sorted[0].score < x.score then [x] + sorted
    else [sorted[0]] + InsertRow(sorted[1..], x)
  }

  /** The stable sort by descending score. */
  function SortRows(rows: seq<RiskRow>): (r: seq<RiskRow>)
    ensures |r| == |rows|
  {
    if rows == [] then []
    else InsertRow(SortRows(rows[..|rows| - 1]), rows[|rows| - 1])
  }

  lemma {:induction false} InsertRowPermutation(sorted: seq<RiskRow>, x: RiskRow)
    ensures multiset(InsertRow(sorted, x)) == multiset(sorted) + multiset{x}
    decreases |sorted|
  {
    if sorted != [] && sorted[0].score >= x.score {
      InsertRowPermutation(sorted[1..], x);
      assert sorted == [sorted[0]] + sorted[1..];
    }
  }

  lemma {:induction false} SortRowsPermutation(rows: seq<RiskRow>)
    ensures multiset(SortRows(rows)) == multiset(rows)
  {
    if rows != [] {
      var init := rows[..|rows| - 1];
      SortRowsPermutation(init);
      InsertRowPermutation(SortRows(init), rows[|rows| - 1]);
      assert rows == init + [rows[|rows| - 1]];
    }
  }

  predicate DescendingScores(rows: seq<RiskRow>)
  {
    forall i, j :: 0 <= i < j < |rows| ==> rows[i].score >= rows[j].score
  }

  lemma {:induction false} InsertRowSorted(sorted: seq<RiskRow>, x: RiskRow)
    requires DescendingScores(sorted)
    ensures DescendingScores(InsertRow(sorted, x))
    ensures InsertRow(sorted, x) != [] && (InsertRow(sorted, x)[0] == x || InsertRow(sorted, x)[0] == sorted[0])
    decreases |sorted|
  {
    if sorted != [] && sorted[0].score >= x.score {
      InsertRowSorted(sorted[1..], x);
      InsertRowPermutation(sorted[1..], x);
      var r := InsertRow(sorted, x);
      var t := InsertRow(sorted[1..], x);
      assert r == [sorted[0]] + t;
      forall j | 0 < j < |r|
        ensures r[0].score >= r[j].score
      {
        assert r[j] in multiset(t);
        assert r[j] in multiset(sorted[1..]) + multiset{x};
        if r[j] != x {
          assert r[j] in sorted[1..];
        }
      }
    }
  }

  lemma {:induction false} SortRowsSorted(rows: seq<RiskRow>)
    ensures DescendingScores(SortRows(rows))
  {
    if rows != [] {
      SortRowsSorted(rows[..|rows| - 1]);
      InsertRowSorted(SortRows(rows[..|rows| - 1]), rows[|rows| - 1]);
    }
  }

  /** The rows of one score. */
  function WithScore(rows: seq<RiskRow>, k: nat): seq<RiskRow>
  {
    if rows == [] then []
    else WithScore(rows[..|rows| - 1], k) + (if rows[|rows| - 1].score == k then [rows[|rows| - 1]] else [])
  }

  lemma {:induction false} WithScoreAppend(a: seq<RiskRow>, b: seq<RiskRow>, k: nat)
    ensures WithScore(a + b, k) == WithScore(a, k) + WithScore(b, k)
    decreases |b|
  {
    if b == [] {
      assert a + b == a;
    } else {
      var ab := a + b;
      assert ab[..|ab| - 1] == a + b[..|b| - 1];
      assert ab[|ab| - 1] == b[|b| - 1];
      WithScoreAppend(a, b[..|b| - 1], k);
    }
  }

  lemma {:induction false} WithScoreSingle(x: RiskRow, k: nat)
    ensures WithScore([x], k) == if x.score == k then [x] else []
  {
    assert [x][..0] == [];
  }

  /** An inserted row comes after the rows of its own score that were already there. */
  lemma {:induction false} InsertRowStable(sorted: seq<RiskRow>, x: RiskRow, k: nat)
    requires DescendingScores(sorted)
    ensures WithScore(InsertRow(sorted, x), k) == WithScore(sorted, k) + WithScore([x], k)
    decreases |sorted|
  {
    if sorted == [] {
      assert InsertRow(sorted, x) == [x];
      assert WithScore(sorted, k) == [];
    } else if sorted[0].score < x.score {
      InsertRowFront(sorted, x, k);
    } else {
      DescendingTail(sorted);
      InsertRowStable(sorted[1..], x, k);
      InsertRowBehind(sorted, x, k);
    }
  }

  lemma DescendingTail(rows: seq<RiskRow>)
    requires rows != [] && DescendingScores(rows)
    ensures DescendingScores(rows[1..])
  {
    forall i, j | 0 <= i < j < |rows| - 1
      ensures rows[1..][i].score >= rows[1..][j].score
    {
      assert rows[1..][i] == rows[i + 1] && rows[1..][j] == rows[j + 1];
    }
  }

  /** The case where the new row goes first: no earlier row has its score. */
  lemma InsertRowFront(sorted: seq<RiskRow>, x: RiskRow, k: nat)
    requires DescendingScores(sorted) && sorted != [] && sorted[0].score < x.score
    ensures WithScore(InsertRow(sorted, x), k) == WithScore(sorted, k) + WithScore([x], k)
  {
    assert InsertRow(sorted, x) == [x] + sorted;
    WithScoreSingle(x, k);
    WithScoreAppend([x], sorted, k);
    if x.score == k {
      // every row of `sorted` scores below x, so none has score k
      NoneWithScore(sorted, k);
    }
  }

  /** The case where the new row goes behind the first row. */
  lemma InsertRowBehind(sorted: seq<RiskRow>, x: RiskRow, k: nat)
    requires sorted != [] && sorted[0].score >= x.score
    requires WithScore(InsertRow(sorted[1..], x), k) == WithScore(sorted[1..], k) + WithScore([x], k)
    ensures WithScore(InsertRow(sorted, x), k) == WithScore(sorted, k) + WithScore([x], k)
  {
    var t := InsertRow(sorted[1..], x);
    assert InsertRow(sorted, x) == [sorted[0]] + t;
    assert sorted == [sorted[0]] + sorted[1..];
    WithScoreAppend([sorted[0]], sorted[1..], k);
    WithScoreAppend([sorted[0]], t, k);
  }

  lemma {:induction false} NoneWithScore(rows: seq<RiskRow>, k: nat)
    requires forall i :: 0 <= i < |rows| ==> rows[i].score < k
    ensures WithScore(rows, k) == []
  {
    if rows != [] {
      NoneWithScore(rows[..|rows| - 1], k);
    }
  }

  /** Sorting keeps rows of equal score in their original order. */
  lemma {:induction false} SortRowsStable(rows: seq<RiskRow>, k: nat)
    ensures WithScore(SortRows(rows), k) == WithScore(rows, k)
  {
    if rows != [] {
      var init := rows[..|rows| - 1];
      var x := rows[|rows| - 1];
      var sortedInit := SortRows(init);
      assert SortRows(rows) == InsertRow(sortedInit, x);
      SortRowsStable(init, k);
      SortRowsSorted(init);
      InsertRowStable(sortedInit, x, k);
      assert rows == init + [x];
      WithScoreAppend(init, [x], k);
    }
  }

  /** The table printed under "Extension Risk Analysis". */
  function ExtensionRiskTable(packages: seq<Package>): seq<RiskRow>
  {
    SortRows(RiskRows(packages))
  }

  /** Each printed row is the row of a risky package; the table is ordered by score, highest first, and ties keep package order. */
  lemma ExtensionRiskTableSpec(packages: seq<Package>)
    ensures var t := ExtensionRiskTable(packages);
      && DescendingScores(t)
      && multiset(t) == multiset(RiskRows(packages))
      && (forall k :: WithScore(t, k) == WithScore(RiskRows(packages), k))
      && forall row :: row in t ==> exists p :: p in packages && IsRisky(p) && row == RowOf(p.name, p.extensionRisk.value)
  {
    var t := ExtensionRiskTable(packages);
    SortRowsSorted(RiskRows(packages));
    SortRowsPermutation(RiskRows(packages));
    forall k
      ensures WithScore(t, k) == WithScore(RiskRows(packages), k)
    {
      SortRowsStable(RiskRows(packages), k);
    }
    forall row | row in t
      ensures exists p :: p in packages && IsRisky(p) && row == RowOf(p.name, p.extensionRisk.value)
    {
      assert row in multiset(RiskRows(packages));
      RiskRowsFrom(packages, row);
    }
  }

  lemma {:induction false} RiskRowsFrom(packages: seq<Package>, row: RiskRow)
    requires row in RiskRows(packages)
    ensures exists p :: p in packages && IsRisky(p) && row == RowOf(p.name, p.extensionRisk.value)
  {
    var init := packages[..|packages| - 1];
    var p := packages[|packages| - 1];
    if row in RiskRows(init) {
      RiskRowsFrom(init, row);
      var q :| q in init && IsRisky(q) && row == RowOf(q.name, q.extensionRisk.value);
      assert q in packages;
    } else {
      assert p in packages;
    }
  }

  /** Every risky package gets a row. */
  lemma {:induction false} RiskRowsCount(packages: seq<Package>)
    ensures |RiskRows(packages)| <= |packages|
    ensures forall i :: 0 <= i < |packages| && IsRisky(packages[i]) ==> RowOf(packages[i].name, packages[i].extensionRisk.value) in RiskRows(packages)
  {
    if packages != [] {
      var init := packages[..|packages| - 1];
      RiskRowsCount(init);
      assert forall i :: 0 <= i < |init| ==> packages[i] == init[i];
    }
  }

  // ---------------------------------------------------------------------------
  // The summary

  /** The number of major updates in the summary line. */
  function MajorCount(os: seq<OutdatedInfo>): (n: nat)
    ensures n <= |os|
  {
    if os == [] then 0
    else MajorCount(os[..|os| - 1]) + (if IsMajorUpdate(os[|os| - 1].currentVersion, os[|os| - 1].latestVersion) then 1 else 0)
  }

  /** The rows of the outdated table marked "MAJOR". */
  function MajorRows(os: seq<OutdatedInfo>): seq<OutdatedInfo>
  {
    if os == [] then []
    else
      var o := os[|os| - 1];
      MajorRows(os[..|os| - 1]) + (if ClassifyUpdate(o.currentVersion, o.latestVersion) == "MAJOR" then [o] else [])
  }

  /** The summary's count is the number of rows the table marks "MAJOR", and the score deducts 5 for each and 2 for the others. */
  lemma {:induction false} MajorCountMatches(os: seq<OutdatedInfo>)
    ensures MajorCount(os) == |MajorRows(os)|
    ensures OutdatedDeductions(os) == 5 * MajorCount(os) + 2 * (|os| - MajorCount(os))
  {
    if os != [] {
      var o := os[|os| - 1];
      MajorCountMatches(os[..|os| - 1]);
      ClassifyMajorIff(o.currentVersion, o.latestVersion);
    }
  }
}

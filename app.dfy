/**
 * The command-line driver's decisions: the `--fail-on` exit-code policy, the
 * `--source` parser, how flags and the configuration file combine, how
 * scanner results are gathered, and the change sets reported by watch mode.
 *
 * Scanners, the vulnerability checker and the version checker are not run
 * here: what each of them returned is an input.
 */
module App {
  import opened Wrappers
  import opened Str
  import opened Model
  import Config

  // ----- Exit codes -----

  const SUCCESS: nat := 0
  const ERROR: nat := 1
  const CRITICAL_VULN: nat := 2
  const HIGH_VULN: nat := 3
  const MEDIUM_VULN: nat := 4
  const LOW_VULN: nat := 5

  /** The `--fail-on` threshold. */
  datatype FailLevel = Critical | High | Medium | Low

  /** Some vulnerability of the result has severity `s`. */
  predicate HasSeverity(vulns: seq<Vulnerability>, s: Severity)
  {
    exists i :: 0 <= i < |vulns| && vulns[i].severity == s
  }

  /** `determine_exit_code`: the code of the worst severity present at or above the threshold, else success. */
  function DetermineExitCode(result: ScanResult, failOn: Option<FailLevel>): (code: nat)
    ensures code in {SUCCESS, CRITICAL_VULN, HIGH_VULN, MEDIUM_VULN, LOW_VULN}
  {
    match failOn
    case None => SUCCESS
    case Some(level) =>
      var v := result.vulnerabilities;
      var hasCritical := HasSeverity(v, Severity.Critical);
      var hasHigh := HasSeverity(v, Severity.High);
      var hasMedium := HasSeverity(v, Severity.Medium);
      var hasLow := HasSeverity(v, Severity.Low);
      match level
      case Critical =>
        if hasCritical then CRITICAL_VULN else SUCCESS
      case High =>
        if hasCritical then CRITICAL_VULN else if hasHigh then HIGH_VULN else SUCCESS
      case Medium =>
        if hasCritical then CRITICAL_VULN else if hasHigh then HIGH_VULN
        else if hasMedium then MEDIUM_VULN else SUCCESS
      case Low =>
        if hasCritical then CRITICAL_VULN else if hasHigh then HIGH_VULN
        else if hasMedium then MEDIUM_VULN else if hasLow then LOW_VULN else SUCCESS
  }

  /** `main`: the code of a run that finished, or the error code when the run failed. */
  function ProcessExitCode(run: Result<nat, string>): (code: nat)
    ensures run.Ok? ==> code == run.value
    ensures run.Err? ==> code == ERROR
  {
    match run
    case Ok(c) => c
    case Err(_) => ERROR
  }

  /** A failed run never shares its exit code with a finished scan, whatever `--fail-on` says. */
  lemma FailureCodeDistinct(result: ScanResult, failOn: Option<FailLevel>, message: string)
    ensures ProcessExitCode(Err(message)) != ProcessExitCode(Ok(DetermineExitCode(result, failOn)))
  {
  }

  /** How severe a severity is, Unknown lowest. */
  function Rank(s: Severity): nat
  {
    match s
    case Critical => 4
    case High => 3
    case Medium => 2
    case Low => 1
    case Unknown => 0
  }

  /** The rank a severity needs to reach a threshold. */
  function LevelRank(level: FailLevel): nat
  {
    match level
    case Critical => 4
    case High => 3
    case Medium => 2
    case Low => 1
  }

  /** The exit code reporting a severity. */
  function CodeOf(s: Severity): nat
  {
    match s
    case Critical => CRITICAL_VULN
    case High => HIGH_VULN
    case Medium => MEDIUM_VULN
    case Low => LOW_VULN
    case Unknown => SUCCESS
  }

  /** The most severe severity among the vulnerabilities; Unknown when there is none above it. */
  function Worst(vulns: seq<Vulnerability>): Severity
  {
    if HasSeverity(vulns, Severity.Critical) then Severity.Critical
    else if HasSeverity(vulns, Severity.High) then Severity.High
    else if HasSeverity(vulns, Severity.Medium) then Severity.Medium
    else if HasSeverity(vulns, Severity.Low) then Severity.Low
    else Severity.Unknown
  }

  /** `Worst` is present (unless Unknown) and no vulnerability is more severe. */
  lemma WorstSpec(vulns: seq<Vulnerability>)
    ensures Rank(Worst(vulns)) > 0 ==> HasSeverity(vulns, Worst(vulns))
    ensures forall j :: 0 <= j < |vulns| ==> Rank(vulns[j].severity) <= Rank(Worst(vulns))
  {
    forall j | 0 <= j < |vulns|
      ensures Rank(vulns[j].severity) <= Rank(Worst(vulns))
    {
      assert HasSeverity(vulns, vulns[j].severity);
    }
  }

  /** The four hand-written cascades all say: report the worst severity when it reaches the threshold. */
  lemma ExitCodeByWorst(result: ScanResult, level: FailLevel)
    ensures DetermineExitCode(result, Some(level)) ==
      if Rank(Worst(result.vulnerabilities)) >= LevelRank(level) then CodeOf(Worst(result.vulnerabilities)) else SUCCESS
  {
  }

  /**
   * The policy as a whole: without a threshold the scan succeeds; with one, it
   * fails exactly when some vulnerability reaches the threshold, and then with
   * the code of the most severe vulnerability present.
   */
  lemma ExitCodeSpec(result: ScanResult, failOn: Option<FailLevel>)
    ensures failOn.None? ==> DetermineExitCode(result, failOn) == SUCCESS
    ensures failOn.Some? ==>
      (DetermineExitCode(result, failOn) == SUCCESS <==>
        forall i :: 0 <= i < |result.vulnerabilities| ==> Rank(result.vulnerabilities[i].severity) < LevelRank(failOn.value))
    ensures DetermineExitCode(result, failOn) != SUCCESS ==>
      exists i :: 0 <= i < |result.vulnerabilities|
        && CodeOf(result.vulnerabilities[i].severity) == DetermineExitCode(result, failOn)
        && Rank(result.vulnerabilities[i].severity) >= LevelRank(failOn.value)
        && forall j :: 0 <= j < |result.vulnerabilities| ==> Rank(result.vulnerabilities[j].severity) <= Rank(result.vulnerabilities[i].severity)
  {
    var v := result.vulnerabilities;
    if failOn.Some? {
      ExitCodeByWorst(result, failOn.value);
      WorstSpec(v);
      var w := Worst(v);
      if Rank(w) >= LevelRank(failOn.value) {
        var i :| 0 <= i < |v| && v[i].severity == w;
        assert CodeOf(v[i].severity) == DetermineExitCode(result, failOn);
      }
    }
  }

  /** A Critical vulnerability fails the scan at every threshold, with code 2. */
  lemma CriticalAlwaysFails(result: ScanResult, level: FailLevel)
    requires HasSeverity(result.vulnerabilities, Severity.Critical)
    ensures DetermineExitCode(result, Some(level)) == CRITICAL_VULN
  {
  }

  /** Vulnerabilities of Unknown severity never change the exit code. */
  lemma {:induction false} UnknownIgnored(result: ScanResult, failOn: Option<FailLevel>, extra: Vulnerability)
    requires extra.severity == Severity.Unknown
    ensures DetermineExitCode(result.(vulnerabilities := result.vulnerabilities + [extra]), failOn)
         == DetermineExitCode(result, failOn)
  {
    var v := result.vulnerabilities;
    var w := v + [extra];
    forall s: Severity | s != Severity.Unknown
      ensures HasSeverity(w, s) == HasSeverity(v, s)
    {
      if HasSeverity(w, s) {
        var i :| 0 <= i < |w| && w[i].severity == s;
        assert i < |v| && v[i].severity == s;
      }
      if HasSeverity(v, s) {
        var i :| 0 <= i < |v| && v[i].severity == s;
        assert w[i].severity == s;
      }
    }
  }

  // ----- Sources -----

  /** The error text for an unrecognised `--source`. */
  function UnknownSourceMessage(s: string): string
  {
    "Unknown source: " + s + ". Use: vscode, chrome, edge, firefox, npm, homebrew"
  }

  /** `parse_source`: case-insensitive; "brew" also names Homebrew. */
  function ParseSource(s: string): (r: Result<Source, string>)
    ensures r.Ok? ==> r.value.IsListed()
    ensures r.Err? ==> r.error == UnknownSourceMessage(s)
  {
    match ToLower(s)
    case "vscode" => Ok(Vscode)
    case "chrome" => Ok(Chrome)
    case "edge" => Ok(Edge)
    case "firefox" => Ok(Firefox)
    case "npm" => Ok(Npm)
    case "homebrew" => Ok(Homebrew)
    case "brew" => Ok(Homebrew)
    case _ => Err(UnknownSourceMessage(s))
  }

  /** Every listed source's identifier parses back to that source; so every id `list-sources` shows parses. */
  lemma ParseSourceRoundTrip(src: Source)
    requires src.IsListed()
    ensures ParseSource(src.AsStr()) == Ok(src)
  {
    ListedSourceLowercase(src);
    match src
    case Vscode => assert ToLower("vscode") == "vscode";
    case Chrome => assert ToLower("chrome") == "chrome";
    case Edge => assert ToLower("edge") == "edge";
    case Firefox => assert ToLower("firefox") == "firefox";
    case Npm => assert ToLower("npm") == "npm";
    case Homebrew => assert ToLower("homebrew") == "homebrew";
  }

  /** The alias "brew" and any capitalisation of an identifier are accepted. */
  lemma ParseSourceCaseInsensitive(s: string)
    ensures ParseSource(s).Ok? <==> ParseSource(ToLower(s)).Ok?
    ensures ParseSource(s).Ok? ==> ParseSource(s) == ParseSource(ToLower(s))
    ensures ParseSource("brew") == Ok(Homebrew)
  {
    ToLowerIdempotent(s);
    assert ToLower("brew") == "brew";
  }

  // ----- Flags and configuration -----

  /** What `scan` runs with, once flags and configuration are combined. */
  datatype ScanSettings = ScanSettings(format: string, skipVuln: bool, checkOutdated: bool)

  /** The `scan` command's flags and the configuration file combined: a flag can only turn a check off. */
  function CombineFlags(format: Option<string>, noVulnCheck: bool, noOutdatedCheck: bool, config: Config.Config): (r: ScanSettings)
    ensures r.skipVuln <==> noVulnCheck || config.skipVulnCheck
    ensures r.checkOutdated <==> !noOutdatedCheck && config.checkOutdated
    ensures format.Some? ==> r.format == format.value
    ensures format.None? ==> r.format == config.defaultFormat
  {
    ScanSettings(format.UnwrapOr(config.defaultFormat), noVulnCheck || config.skipVulnCheck, !noOutdatedCheck && config.checkOutdated)
  }

  /** With no flags and the default configuration: table output, both checks run. */
  lemma DefaultSettings()
    ensures CombineFlags(None, false, false, Config.DefaultConfig()) == ScanSettings("table", false, true)
  {
  }

  // ----- Gathering packages -----

  /** What one scanner produced: it may not apply to this platform, fail, or list packages. */
  datatype ScanOutcome = Unsupported | Failed | Found(packages: seq<Package>)

  /** A scanner's contribution: nothing unless it listed packages. */
  function Contribution(o: ScanOutcome): seq<Package>
  {
    if o.Found? then o.packages else []
  }

  /** `scan_concurrent`: every scanner's results, an unsupported or failed scanner giving none, flattened in scanner order. */
  function Gathered(outcomes: seq<ScanOutcome>): (r: seq<Package>)
    decreases |outcomes|
  {
    if outcomes == [] then []
    else Gathered(outcomes[..|outcomes| - 1]) + Contribution(outcomes[|outcomes| - 1])
  }

  /** Each gathered package comes from a scanner that listed it, and every listed package is gathered. */
  lemma {:induction false} GatheredMembers(outcomes: seq<ScanOutcome>, p: Package)
    ensures p in Gathered(outcomes) <==> exists k :: 0 <= k < |outcomes| && outcomes[k].Found? && p in outcomes[k].packages
    decreases |outcomes|
  {
    if outcomes != [] {
      var init := outcomes[..|outcomes| - 1];
      GatheredMembers(init, p);
      if exists k :: 0 <= k < |outcomes| && outcomes[k].Found? && p in outcomes[k].packages {
        var k :| 0 <= k < |outcomes| && outcomes[k].Found? && p in outcomes[k].packages;
        if k < |init| {
          assert init[k] == outcomes[k];
        }
      }
      if p in Gathered(init) {
        var k :| 0 <= k < |init| && init[k].Found? && p in init[k].packages;
        assert outcomes[k] == init[k];
      }
    }
  }

  /** `scan_sequential`: the scanners in turn, extending the list with each one's packages. */
  method ScanSequential(outcomes: seq<ScanOutcome>) returns (all: seq<Package>)
    ensures all == Gathered(outcomes)
  {
    all := [];
    for k := 0 to |outcomes|
      invariant all == Gathered(outcomes[..k])
    {
      assert outcomes[..k + 1][..k] == outcomes[..k];
      match outcomes[k]
      case Unsupported =>
      case Failed =>
      case Found(packages) =>
        all := all + packages;
    }
    assert outcomes[..|outcomes|] == outcomes;
  }

  /** `run_scan` gathers packages sequentially unless it runs several scanners in parallel; both give the same list. */
  method GatherPackages(outcomes: seq<ScanOutcome>, parallel: bool) returns (all: seq<Package>)
    ensures all == Gathered(outcomes)
  {
    if parallel && |outcomes| > 1 {
      all := Gathered(outcomes);
    } else {
      all := ScanSequential(outcomes);
    }
  }

  /**
   * The checks `run_scan` applies to the gathered packages: each runs only when
   * enabled and there are packages, and a failed check leaves its list empty.
   */
  function ApplyChecks(packages: seq<Package>, settings: ScanSettings,
                       vulns: Result<seq<Vulnerability>, string>,
                       outdated: Result<seq<OutdatedInfo>, string>): (r: ScanResult)
    ensures r.packages == packages
    ensures r.vulnerabilities != [] ==> !settings.skipVuln && packages != [] && vulns == Ok(r.vulnerabilities)
    ensures !settings.skipVuln && packages != [] && vulns.Ok? ==> r.vulnerabilities == vulns.value
    ensures r.outdated != [] ==> settings.checkOutdated && packages != [] && outdated == Ok(r.outdated)
    ensures settings.checkOutdated && packages != [] && outdated.Ok? ==> r.outdated == outdated.value
  {
    var v := if !settings.skipVuln && packages != [] && vulns.Ok? then vulns.value else [];
    var o := if settings.checkOutdated && packages != [] && outdated.Ok? then outdated.value else [];
    ScanResult(packages, v, o)
  }

  // ----- Watch mode -----

  /** A package as watch mode tracks it: `id@version`. */
  function PackageKey(p: Package): string
  {
    p.id + "@" + p.version
  }

  /** A vulnerability as watch mode tracks it: `package_id/id`. */
  function VulnKey(v: Vulnerability): string
  {
    v.packageId + "/" + v.id
  }

  function PackageKeys(packages: seq<Package>): (r: set<string>)
    ensures forall k :: k in r <==> exists i :: 0 <= i < |packages| && PackageKey(packages[i]) == k
  {
    set i | 0 <= i < |packages| :: PackageKey(packages[i])
  }

  function VulnKeys(vulns: seq<Vulnerability>): (r: set<string>)
    ensures forall k :: k in r <==> exists i :: 0 <= i < |vulns| && VulnKey(vulns[i]) == k
  {
    set i | 0 <= i < |vulns| :: VulnKey(vulns[i])
  }

  /** What one round of watch mode reports. */
  datatype WatchReport =
    | Summary(packages: nat, vulnerabilities: nat, outdated: nat)
    | NoChanges
    | Changes(newPackages: set<string>, removedPackages: set<string>, newVulns: set<string>, resolvedVulns: set<string>)

  /** The keys remembered from the previous round. */
  datatype WatchState = WatchState(firstRun: bool, prevPackages: set<string>, prevVulns: set<string>)

  /** One round of `run_watch` on a scan result: the report, and the keys to compare the next round against. */
  function WatchStep(state: WatchState, result: ScanResult): (r: (WatchReport, WatchState))
    ensures r.1 == WatchState(false, PackageKeys(result.packages), VulnKeys(result.vulnerabilities))
    ensures state.firstRun ==> r.0 == Summary(|result.packages|, |result.vulnerabilities|, |result.outdated|)
    ensures !state.firstRun && r.0.NoChanges? ==>
      PackageKeys(result.packages) == state.prevPackages && VulnKeys(result.vulnerabilities) == state.prevVulns
    ensures !state.firstRun && r.0.Changes? ==>
      r.0.newPackages == PackageKeys(result.packages) - state.prevPackages
      && r.0.removedPackages == state.prevPackages - PackageKeys(result.packages)
      && r.0.newVulns == VulnKeys(result.vulnerabilities) - state.prevVulns
      && r.0.resolvedVulns == state.prevVulns - VulnKeys(result.vulnerabilities)
  {
    var curr := PackageKeys(result.packages);
    var currV := VulnKeys(result.vulnerabilities);
    var next := WatchState(false, curr, currV);
    if state.firstRun then (Summary(|result.packages|, |result.vulnerabilities|, |result.outdated|), next)
    else
      var added := curr - state.prevPackages;
      var removed := state.prevPackages - curr;
      var newV := currV - state.prevVulns;
      var resolved := state.prevVulns - currV;
      if added == {} && removed == {} && newV == {} && resolved == {} then (NoChanges, next)
      else (Changes(added, removed, newV, resolved), next)
  }

  /** After the first round, "no changes" is reported exactly when both key sets are the same as last round. */
  lemma NoChangesIff(state: WatchState, result: ScanResult)
    requires !state.firstRun
    ensures WatchStep(state, result).0.NoChanges? <==>
      PackageKeys(result.packages) == state.prevPackages && VulnKeys(result.vulnerabilities) == state.prevVulns
  {
    var curr := PackageKeys(result.packages);
    var currV := VulnKeys(result.vulnerabilities);
    if curr == state.prevPackages && currV == state.prevVulns {
      assert curr - state.prevPackages == {};
    }
  }

  /** Scanning the same result twice in a row reports no changes. */
  lemma RescanUnchanged(state: WatchState, result: ScanResult)
    ensures WatchStep(WatchStep(state, result).1, result).0 == NoChanges
  {
    NoChangesIff(WatchStep(state, result).1, result);
  }
}

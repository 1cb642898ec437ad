/**
 * The scanner's data model: the sources packages come from, the package
 * record with its by-value builders, and the vulnerability, outdated and
 * scan-result records the checkers and formatters exchange.
 */
module Model {
  import opened Wrappers
  import opened Str
  import ExtensionRisk

  /** Where a package was found: an editor, a browser or a package manager. */
  datatype Source =
    | Vscode | Chrome | Edge | Firefox | Npm | Homebrew
    | Brave | Arc | Opera | Vivaldi | Chromium
  {
    /** The lowercase identifier of the source. */
    function AsStr(): string
    {
      match this
      case Vscode => "vscode"
      case Chrome => "chrome"
      case Edge => "edge"
      case Firefox => "firefox"
      case Npm => "npm"
      case Homebrew => "homebrew"
      case Brave => "brave"
      case Arc => "arc"
      case Opera => "opera"
      case Vivaldi => "vivaldi"
      case Chromium => "chromium"
    }

    /** The name shown to people; formatting a source writes this name. */
    function DisplayName(): string
    {
      match this
      case Vscode => "VSCode"
      case Chrome => "Chrome"
      case Edge => "Edge"
      case Firefox => "Firefox"
      case Npm => "NPM"
      case Homebrew => "Homebrew"
      case Brave => "Brave"
      case Arc => "Arc"
      case Opera => "Opera"
      case Vivaldi => "Vivaldi"
      case Chromium => "Chromium"
    }

    /** The six sources the package module itself lists. */
    predicate IsListed()
    {
      Vscode? || Chrome? || Edge? || Firefox? || Npm? || Homebrew?
    }
  }

  predicate IsLowerAscii(s: string)
  {
    forall i :: 0 <= i < |s| ==> 'a' <= s[i] <= 'z'
  }

  /** For the six listed sources, distinct sources have distinct identifiers and display names. */
  lemma ListedSourcesDistinct(a: Source, b: Source)
    requires a.IsListed() && b.IsListed() && a != b
    ensures a.AsStr() != b.AsStr()
    ensures a.DisplayName() != b.DisplayName()
  {
  }

  /** Each listed identifier is a lowercase word: the display name in lower case. */
  lemma ListedSourceLowercase(a: Source)
    requires a.IsListed()
    ensures IsLowerAscii(a.AsStr())
    ensures ToLower(a.DisplayName()) == a.AsStr()
  {
    DisplayNameLowercase(a);
  }

  lemma DisplayNameLowercase(a: Source)
    requires a.IsListed()
    ensures ToLower(a.DisplayName()) == a.AsStr()
  {
    match a
    case Vscode => assert ToLower("VSCode") == "vscode";
    case Chrome => assert ToLower("Chrome") == "chrome";
    case Edge => assert ToLower("Edge") == "edge";
    case Firefox => assert ToLower("Firefox") == "firefox";
    case Npm => assert ToLower("NPM") == "npm";
    case Homebrew => assert ToLower("Homebrew") == "homebrew";
  }

  /** The two examples of the source's documentation. */
  lemma SourceNameSamples()
    ensures Npm.AsStr() == "npm" && Vscode.AsStr() == "vscode"
    ensures Npm.DisplayName() == "NPM" && Vscode.DisplayName() == "VSCode"
  {
  }

  datatype Platform = Linux | MacOS | Windows

  /** Optional descriptive fields; all absent by default. */
  datatype PackageMetadata = PackageMetadata(
    description: Option<string>,
    publisher: Option<string>,
    homepage: Option<string>,
    repository: Option<string>,
    license: Option<string>)

  const DefaultMetadata := PackageMetadata(Option.None, Option.None, Option.None, Option.None, Option.None)

  /** One installed package or extension; paths are strings. */
  datatype Package = Package(
    id: string,
    name: string,
    version: string,
    source: Source,
    installPath: Option<string>,
    metadata: PackageMetadata,
    extensionRisk: Option<ExtensionRisk.ExtensionRiskReport>)
  {
    /** Sets the install path, leaving everything else as it was. */
    function WithPath(path: string): (r: Package)
      ensures r.installPath == Some(path)
      ensures r.(installPath := installPath) == this
    {
      this.(installPath := Some(path))
    }

    /** Replaces the metadata, leaving everything else as it was. */
    function WithMetadata(m: PackageMetadata): (r: Package)
      ensures r.metadata == m
      ensures r.(metadata := metadata) == this
    {
      this.(metadata := m)
    }

    /** Attaches a risk report, leaving everything else as it was. */
    function WithExtensionRisk(report: ExtensionRisk.ExtensionRiskReport): (r: Package)
      ensures r.extensionRisk == Some(report)
      ensures r.(extensionRisk := extensionRisk) == this
    {
      this.(extensionRisk := Some(report))
    }
  }

  /** `Package::new`: identity as given, no path, empty metadata, no report. */
  function NewPackage(id: string, name: string, version: string, source: Source): (p: Package)
    ensures p.id == id && p.name == name && p.version == version && p.source == source
    ensures p.installPath.None? && p.extensionRisk.None?
    ensures p.metadata.description.None? && p.metadata.publisher.None? && p.metadata.homepage.None?
    ensures p.metadata.repository.None? && p.metadata.license.None?
  {
    Package(id, name, version, source, Option.None, DefaultMetadata, Option.None)
  }

  /**
   * The builders touch disjoint fields, so their order does not matter, and a
   * second call of the same builder overrides the first.
   */
  lemma BuildersCommute(p: Package, path: string, m: PackageMetadata, report: ExtensionRisk.ExtensionRiskReport)
    ensures p.WithPath(path).WithMetadata(m) == p.WithMetadata(m).WithPath(path)
    ensures p.WithMetadata(m).WithExtensionRisk(report) == p.WithExtensionRisk(report).WithMetadata(m)
    ensures p.WithPath(path).WithExtensionRisk(report) == p.WithExtensionRisk(report).WithPath(path)
  {
  }

  lemma BuildersOverride(p: Package, path1: string, path2: string, m1: PackageMetadata, m2: PackageMetadata)
    ensures p.WithPath(path1).WithPath(path2) == p.WithPath(path2)
    ensures p.WithMetadata(m1).WithMetadata(m2) == p.WithMetadata(m2)
  {
  }

  /** Vulnerability severity, most severe first. */
  datatype Severity = Critical | High | Medium | Low | Unknown
  {
    function AsStr(): string
    {
      match this
      case Critical => "critical"
      case High => "high"
      case Medium => "medium"
      case Low => "low"
      case Unknown => "unknown"
    }
  }

  datatype Vulnerability = Vulnerability(
    id: string,
    packageId: string,
    severity: Severity,
    title: string,
    description: Option<string>,
    fixedVersion: Option<string>,
    referenceUrl: Option<string>)

  datatype OutdatedInfo = OutdatedInfo(packageId: string, currentVersion: string, latestVersion: string)

  /** The result of one scan; the scan time is left out. */
  datatype ScanResult = ScanResult(packages: seq<Package>, vulnerabilities: seq<Vulnerability>, outdated: seq<OutdatedInfo>)
}

/**
 * The SARIF report: one rule and one result per vulnerability, with the
 * result levels of section 3.27.10 of the OASIS SARIF Version 2.1.0 standard
 * ("error", "warning", "note").
 *
 * The JSON text is not modelled, only the report's structure; the tool's own
 * version, a build-time constant, is a parameter.
 */
module Sarif {
  import opened Wrappers
  import opened Str
  import opened Model
  import Cli

  const SCHEMA: string := "https://raw.githubusercontent.com/oasis-tcs/sarif-spec/master/Schemata/sarif-schema-2.1.0.json"
  const SARIF_VERSION: string := "2.1.0"
  const TOOL_NAME: string := "extenscan"
  const INFORMATION_URI: string := "https://github.com/haasonsaas/extenscan"

  /** `severity_to_sarif_level`. */
  function SarifLevel(s: Severity): (level: string)
    ensures level == "error" <==> s == Severity.Critical || s == Severity.High
    ensures level == "warning" <==> s == Severity.Medium
    ensures level == "note" <==> s == Severity.Low || s == Severity.Unknown
  {
    match s
    case Critical => "error"
    case High => "error"
    case Medium => "warning"
    case Low => "note"
    case Unknown => "note"
  }

  /** How strong a SARIF level is. */
  function LevelStrength(level: string): nat
  {
    if level == "error" then 2 else if level == "warning" then 1 else 0
  }

  /** A more severe vulnerability never gets a weaker level than a less severe one. */
  lemma SarifLevelMonotone(a: Severity, b: Severity)
    requires Cli.SeverityKey(a) <= Cli.SeverityKey(b)
    ensures LevelStrength(SarifLevel(a)) >= LevelStrength(SarifLevel(b))
  {
  }

  datatype SarifRule = SarifRule(
    id: string,
    name: string,
    shortDescription: string,
    fullDescription: Option<string>,
    helpUri: Option<string>,
    level: string)

  datatype SarifResult = SarifResult(ruleId: string, level: string, message: string, uri: string, uriBaseId: Option<string>)

  datatype SarifRun = SarifRun(toolName: string, toolVersion: string, informationUri: string, rules: seq<SarifRule>, results: seq<SarifResult>)

  datatype SarifReport = SarifReport(schema: string, version: string, runs: seq<SarifRun>)

  /** `packages.iter().find(|p| p.id == id)`. */
  function FindPackage(packages: seq<Package>, id: string): (r: Option<Package>)
    ensures r.Some? ==> r.value.id == id && r.value in packages
    ensures r.None? ==> forall k :: 0 <= k < |packages| ==> packages[k].id != id
    ensures r.Some? ==> exists k :: 0 <= k < |packages| && packages[k] == r.value && forall m :: 0 <= m < k ==> packages[m].id != id
    decreases |packages|
  {
    if packages == [] then Option.None
    else if packages[0].id == id then Some(packages[0])
    else
      var rest := FindPackage(packages[1..], id);
      if rest.Some? then
        var k :| 0 <= k < |packages[1..]| && packages[1..][k] == rest.value && forall m :: 0 <= m < k ==> packages[1..][m].id != id;
        assert packages[k + 1] == rest.value;
        rest
      else rest
  }

  /** The location of a result: the install path of the first package with the vulnerability's package id, else that id. */
  function LocationUri(packages: seq<Package>, v: Vulnerability): (uri: string)
    ensures (forall k :: 0 <= k < |packages| ==> packages[k].id != v.packageId) ==> uri == v.packageId
    ensures FindPackage(packages, v.packageId).Some? && FindPackage(packages, v.packageId).value.installPath.Some? ==>
      uri == FindPackage(packages, v.packageId).value.installPath.value
    ensures FindPackage(packages, v.packageId).Some? && FindPackage(packages, v.packageId).value.installPath.None? ==>
      uri == v.packageId
  {
    var p := FindPackage(packages, v.packageId);
    if p.Some? && p.value.installPath.Some? then p.value.installPath.value else v.packageId
  }

  /** " (fixed in v)" when a fixed version is known. */
  function FixedSuffix(fixed: Option<string>): string
  {
    if fixed.Some? then " (fixed in " + fixed.value + ")" else ""
  }

  /** The result text: severity, package, title, and the fixed version when there is one. */
  function ResultMessage(v: Vulnerability): string
  {
    v.severity.AsStr() + " vulnerability in " + v.packageId + ": " + v.title + FixedSuffix(v.fixedVersion)
  }

  /** The message names the package and the title, and ends with the fix when one is known. */
  lemma ResultMessageSpec(v: Vulnerability)
    ensures Contains(ResultMessage(v), v.packageId)
    ensures Contains(ResultMessage(v), v.title)
    ensures StartsWith(ResultMessage(v), v.severity.AsStr() + " vulnerability in ")
    ensures v.fixedVersion.Some? ==> EndsWith(ResultMessage(v), " (fixed in " + v.fixedVersion.value + ")")
    ensures v.fixedVersion.None? ==> EndsWith(ResultMessage(v), v.title)
  {
    MessagePieces(v.severity.AsStr() + " vulnerability in ", v.packageId, ": ", v.title, FixedSuffix(v.fixedVersion));
  }

  /** The pieces of a message `head + id + sep + title + suffix` are where they were put. */
  lemma MessagePieces(head: string, id: string, sep: string, title: string, suffix: string)
    ensures var m := head + id + sep + title + suffix;
      && Contains(m, id) && Contains(m, title) && StartsWith(m, head) && EndsWith(m, suffix)
      && (suffix == [] ==> EndsWith(m, title))
  {
    var m := head + id + sep + title + suffix;
    assert m == head + id + (sep + title + suffix);
    ContainsMiddle(head, id, sep + title + suffix);
    assert m == (head + id + sep) + title + suffix;
    ContainsMiddle(head + id + sep, title, suffix);
    StartsWithIff(m, head);
    assert m[..|head|] == head;
    EndsWithIff(m, suffix);
    assert m[|m| - |suffix|..] == suffix;
    if suffix == [] {
      EndsWithIff(m, title);
      assert m[|m| - |title|..] == title;
    }
  }

  /** The rule for one vulnerability. */
  function RuleOf(v: Vulnerability): SarifRule
  {
    SarifRule(v.id, v.title, v.title, v.description, v.referenceUrl, SarifLevel(v.severity))
  }

  /** The result for one vulnerability. */
  function ResultOf(packages: seq<Package>, v: Vulnerability): SarifResult
  {
    SarifResult(v.id, SarifLevel(v.severity), ResultMessage(v), LocationUri(packages, v), Option.None)
  }

  /** The report a scan result gives. */
  function ReportOf(result: ScanResult, toolVersion: string): SarifReport
  {
    var vs := result.vulnerabilities;
    var rules := seq(|vs|, i requires 0 <= i < |vs| => RuleOf(vs[i]));
    var results := seq(|vs|, i requires 0 <= i < |vs| => ResultOf(result.packages, vs[i]));
    SarifReport(SCHEMA, SARIF_VERSION, [SarifRun(TOOL_NAME, toolVersion, INFORMATION_URI, rules, results)])
  }

  /**
   * `print_sarif` and `generate_sarif_string` build the same report the same
   * way: a rule and a result pushed for each vulnerability in turn.
   */
  method BuildSarif(result: ScanResult, toolVersion: string) returns (report: SarifReport)
    ensures report == ReportOf(result, toolVersion)
  {
    var rules: seq<SarifRule> := [];
    var results: seq<SarifResult> := [];
    var vs := result.vulnerabilities;
    for i := 0 to |vs|
      invariant |rules| == i && |results| == i
      invariant forall k :: 0 <= k < i ==> rules[k] == RuleOf(vs[k])
      invariant forall k :: 0 <= k < i ==> results[k] == ResultOf(result.packages, vs[k])
    {
      var v := vs[i];
      var uri := LocationUri(result.packages, v);
      rules := rules + [SarifRule(v.id, v.title, v.title, v.description, v.referenceUrl, SarifLevel(v.severity))];
      results := results + [SarifResult(v.id, SarifLevel(v.severity), ResultMessage(v), uri, Option.None)];
    }
    assert rules == seq(|vs|, i requires 0 <= i < |vs| => RuleOf(vs[i]));
    assert results == seq(|vs|, i requires 0 <= i < |vs| => ResultOf(result.packages, vs[i]));
    report := SarifReport(SCHEMA, SARIF_VERSION, [SarifRun(TOOL_NAME, toolVersion, INFORMATION_URI, rules, results)]);
  }

  /**
   * One run; as many rules and results as vulnerabilities, in order and
   * without merging repeats; each rule, its result and the vulnerability share
   * the id, and the rule's and result's levels agree.
   */
  lemma ReportSpec(result: ScanResult, toolVersion: string)
    ensures var r := ReportOf(result, toolVersion);
      && r.version == "2.1.0" && |r.runs| == 1 && r.runs[0].toolName == "extenscan"
      && |r.runs[0].rules| == |result.vulnerabilities| && |r.runs[0].results| == |result.vulnerabilities|
      && forall i :: 0 <= i < |result.vulnerabilities| ==>
           r.runs[0].rules[i].id == result.vulnerabilities[i].id
           && r.runs[0].results[i].ruleId == result.vulnerabilities[i].id
           && r.runs[0].rules[i].level == r.runs[0].results[i].level == SarifLevel(result.vulnerabilities[i].severity)
  {
  }
}

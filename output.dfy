/**
 * The output formats: parsing a format name, and which document each format
 * prints and writes to a file.
 *
 * A document is named by the structure it renders (the scan result itself
 * for the table, JSON and HTML views, the SARIF report and the CycloneDX bill
 * of materials); the text of each rendering is not modelled.
 */
module Output {
  import opened Wrappers
  import opened Str
  import opened Model
  import Sarif
  import CycloneDx

  datatype OutputFormat = Table | Json | Sarif | CycloneDx | Html

  /** The name `from_str` accepts for each format, as the error message lists them. */
  function FormatName(f: OutputFormat): string
  {
    match f
    case Table => "table"
    case Json => "json"
    case Sarif => "sarif"
    case CycloneDx => "cyclonedx"
    case Html => "html"
  }

  function UnknownFormatMessage(s: string): string
  {
    "Unknown format: " + s + ". Use 'table', 'json', 'sarif', 'cyclonedx', or 'html'"
  }

  /** The lowercase names and aliases that are accepted. */
  predicate IsFormatName(name: string)
  {
    name in {"table", "json", "sarif", "cyclonedx", "cdx", "sbom", "html"}
  }

  /**
   * `OutputFormat::from_str`: the lowercased text names a format, `cdx` and
   * `sbom` being aliases of CycloneDX; anything else is an error quoting the
   * text as given.
   */
  function ParseFormat(s: string): (r: Result<OutputFormat, string>)
    ensures r.Ok? <==> IsFormatName(ToLower(s))
    ensures r.Err? ==> r.error == UnknownFormatMessage(s)
    ensures r.Ok? && r.value != OutputFormat.CycloneDx ==> ToLower(s) == FormatName(r.value)
    ensures r.Ok? && r.value == OutputFormat.CycloneDx ==> ToLower(s) in {"cyclonedx", "cdx", "sbom"}
  {
    match ToLower(s)
    case "table" => Ok(OutputFormat.Table)
    case "json" => Ok(OutputFormat.Json)
    case "sarif" => Ok(OutputFormat.Sarif)
    case "cyclonedx" => Ok(OutputFormat.CycloneDx)
    case "cdx" => Ok(OutputFormat.CycloneDx)
    case "sbom" => Ok(OutputFormat.CycloneDx)
    case "html" => Ok(OutputFormat.Html)
    case _ => Err(UnknownFormatMessage(s))
  }

  /** Every format's listed name parses back to it. */
  lemma ParseFormatName(f: OutputFormat)
    ensures ParseFormat(FormatName(f)) == Ok(f)
  {
    var n := FormatName(f);
    assert ToLower(n) == n;
  }

  /** Case does not matter: a text parses as its lowercase form does. */
  lemma ParseFormatCaseInsensitive(s: string)
    ensures ParseFormat(s).Ok? <==> ParseFormat(ToLower(s)).Ok?
    ensures ParseFormat(s).Ok? ==> ParseFormat(s) == ParseFormat(ToLower(s))
  {
    ToLowerIdempotent(s);
  }

  /** The two aliases, in any case, select CycloneDX. */
  lemma ParseFormatAliases(s: string)
    requires ToLower(s) == "cdx" || ToLower(s) == "sbom"
    ensures ParseFormat(s) == Ok(OutputFormat.CycloneDx)
  {
  }

  /** What a format renders. */
  datatype Document =
    | TableView(result: ScanResult)
    | JsonDocument(result: ScanResult)
    | HtmlPage(result: ScanResult)
    | SarifDocument(report: Sarif.SarifReport)
    | BomDocument(bom: CycloneDx.Bom)

  /**
   * `format_result_to_string`: the document written to a file. The table
   * format has no file form and writes the JSON document. The clock reading
   * and timestamp feed the CycloneDX serial number and metadata.
   */
  function FileOutput(result: ScanResult, format: OutputFormat, toolVersion: string, now: CycloneDx.Nanos, timestamp: string): Document
  {
    match format
    case Json => JsonDocument(result)
    case Html => HtmlPage(result)
    case Sarif => SarifDocument(Sarif.ReportOf(result, toolVersion))
    case CycloneDx => BomDocument(CycloneDx.BomOf(result, toolVersion, now, timestamp))
    case Table => JsonDocument(result)
  }

  /** `print_result`: the document printed to the console. */
  function ConsoleOutput(result: ScanResult, format: OutputFormat, toolVersion: string, now: CycloneDx.Nanos, timestamp: string): Document
  {
    match format
    case Table => TableView(result)
    case Json => JsonDocument(result)
    case Sarif => SarifDocument(Sarif.ReportOf(result, toolVersion))
    case CycloneDx => BomDocument(CycloneDx.BomOf(result, toolVersion, now, timestamp))
    case Html => HtmlPage(result)
  }

  /**
   * The console and the file get the same document for every format but the
   * table, whose file form is the JSON document.
   */
  lemma ConsoleMatchesFile(result: ScanResult, format: OutputFormat, toolVersion: string, now: CycloneDx.Nanos, timestamp: string)
    ensures format != OutputFormat.Table <==>
      ConsoleOutput(result, format, toolVersion, now, timestamp) == FileOutput(result, format, toolVersion, now, timestamp)
    ensures FileOutput(result, OutputFormat.Table, toolVersion, now, timestamp) == FileOutput(result, OutputFormat.Json, toolVersion, now, timestamp)
  {
  }

  /** Two formats write the same file iff they are the same format, or the table and JSON formats. */
  lemma FileOutputDistinct(result: ScanResult, f: OutputFormat, g: OutputFormat, toolVersion: string, now: CycloneDx.Nanos, timestamp: string)
    requires f != g && {f, g} != {OutputFormat.Table, OutputFormat.Json}
    ensures FileOutput(result, f, toolVersion, now, timestamp) != FileOutput(result, g, toolVersion, now, timestamp)
  {
  }
}

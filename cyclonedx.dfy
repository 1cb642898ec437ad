/**
 * The CycloneDX 1.5 bill of materials: one component per package, one
 * vulnerability entry per vulnerability, and a serial number built from the
 * clock in the bit layout of a version-4 UUID (section 4.1 of RFC 4122).
 *
 * The structure of the document is modelled, and of its JSON only which keys
 * are written; the clock reading, the RFC 3339 timestamp and the tool's own
 * version are parameters.
 */
module CycloneDx {
  import opened Wrappers
  import opened Str
  import opened Model

  /** `source_to_purl_type`: the package-URL type of a source. */
  function PurlType(source: Source): (t: string)
    ensures IsLowerAscii(t)
    ensures source != Source.Homebrew ==> t == source.AsStr()
    ensures source == Source.Homebrew ==> t == "brew" && t != source.AsStr()
  {
    match source
    case Npm => "npm"
    case Homebrew => "brew"
    case Vscode => "vscode"
    case Chrome => "chrome"
    case Edge => "edge"
    case Firefox => "firefox"
    case Brave => "brave"
    case Arc => "arc"
    case Opera => "opera"
    case Vivaldi => "vivaldi"
    case Chromium => "chromium"
  }

  /** `severity_to_cyclonedx`: the rating name is the severity's own lowercase name. */
  function SeverityName(severity: Severity): (name: string)
    ensures name == severity.AsStr()
    ensures IsLowerAscii(name)
  {
    match severity
    case Critical => "critical"
    case High => "high"
    case Medium => "medium"
    case Low => "low"
    case Unknown => "unknown"
  }

  // ---------------------------------------------------------------------------
  // Components

  datatype ExternalRef = ExternalRef(refType: string, url: string)

  datatype Component = Component(
    componentType: string,
    bomRef: string,
    name: string,
    version: string,
    purl: Option<string>,
    description: Option<string>,
    publisher: Option<string>,
    licenses: seq<string>,
    externalReferences: seq<ExternalRef>)

  /** The package URL `pkg:{type}/{id}@{version}`, with nothing percent-encoded. */
  function Purl(p: Package): string
  {
    "pkg:" + PurlType(p.source) + "/" + p.id + "@" + p.version
  }

  /** The homepage as a website reference, then the repository as a vcs reference. */
  function ExternalRefs(m: PackageMetadata): seq<ExternalRef>
  {
    (if m.homepage.Some? then [ExternalRef("website", m.homepage.value)] else [])
    + (if m.repository.Some? then [ExternalRef("vcs", m.repository.value)] else [])
  }

  /** The license as a one-entry list, or no entry. */
  function Licenses(m: PackageMetadata): seq<string>
  {
    if m.license.Some? then [m.license.value] else []
  }

  /** The component of one package. */
  function ComponentOf(p: Package): Component
  {
    Component("library", p.id, p.name, p.version, Some(Purl(p)), p.metadata.description,
      p.metadata.publisher, Licenses(p.metadata), ExternalRefs(p.metadata))
  }

  /** The components of the packages, in package order. */
  function Components(ps: seq<Package>): seq<Component>
  {
    MapSeq(ps, ComponentOf)
  }

  /**
   * The components loop: for each package in turn, the references are pushed
   * one by one and the component is pushed after them.
   */
  method BuildComponents(packages: seq<Package>) returns (components: seq<Component>)
    ensures components == Components(packages)
  {
    components := [];
    for i := 0 to |packages|
      invariant components == MapSeq(packages[..i], ComponentOf)
    {
      assert packages[..i + 1][..i] == packages[..i];
      var c := BuildComponent(packages[i]);
      components := components + [c];
    }
    assert packages[..|packages|] == packages;
  }

  /** One iteration: the references pushed one by one, then the component. */
  method BuildComponent(p: Package) returns (c: Component)
    ensures c == ComponentOf(p)
  {
    var purl := "pkg:" + PurlType(p.source) + "/" + p.id + "@" + p.version;
    var refs: seq<ExternalRef> := [];
    if p.metadata.homepage.Some? {
      refs := refs + [ExternalRef("website", p.metadata.homepage.value)];
    }
    if p.metadata.repository.Some? {
      refs := refs + [ExternalRef("vcs", p.metadata.repository.value)];
    }
    var licenses := if p.metadata.license.Some? then [p.metadata.license.value] else [];
    assert refs == ExternalRefs(p.metadata);
    c := Component("library", p.id, p.name, p.version, Some(purl), p.metadata.description,
      p.metadata.publisher, licenses, refs);
  }

  /**
   * There is a website reference iff there is a homepage, a vcs reference iff
   * there is a repository, nothing else, and the website comes first.
   */
  lemma ExternalRefsSpec(m: PackageMetadata)
    ensures var refs := ExternalRefs(m);
      && |refs| <= 2
      && ((exists k :: 0 <= k < |refs| && refs[k].refType == "website") <==> m.homepage.Some?)
      && ((exists k :: 0 <= k < |refs| && refs[k].refType == "vcs") <==> m.repository.Some?)
      && (forall k :: 0 <= k < |refs| && refs[k].refType == "website" ==> k == 0 && refs[k].url == m.homepage.value)
      && (forall k :: 0 <= k < |refs| && refs[k].refType == "vcs" ==> k == |refs| - 1 && refs[k].url == m.repository.value)
  {
    var refs := ExternalRefs(m);
    if m.homepage.Some? {
      assert refs[0].refType == "website";
    }
    if m.repository.Some? {
      assert refs[|refs| - 1].refType == "vcs";
    }
  }

  /** A component has exactly one license entry iff the package has a license, and it is that license. */
  lemma LicensesSpec(m: PackageMetadata)
    ensures |Licenses(m)| == 1 <==> m.license.Some?
    ensures |Licenses(m)| == 0 <==> m.license.None?
    ensures m.license.Some? ==> Licenses(m)[0] == m.license.value
  {
  }

  /** The purl starts with the scheme and type, ends with the version and holds the id verbatim. */
  lemma PurlSpec(p: Package)
    ensures StartsWith(Purl(p), "pkg:" + PurlType(p.source) + "/")
    ensures EndsWith(Purl(p), "@" + p.version)
    ensures Contains(Purl(p), p.id)
  {
    PurlPieces("pkg:" + PurlType(p.source) + "/", p.id, p.version);
  }

  lemma PurlPieces(head: string, id: string, version: string)
    ensures var u := head + id + "@" + version;
      StartsWith(u, head) && EndsWith(u, "@" + version) && Contains(u, id)
  {
    var u := head + id + "@" + version;
    StartsWithIff(u, head);
    assert u[..|head|] == head;
    EndsWithIff(u, "@" + version);
    assert u == head + id + ("@" + version);
    assert u[|u| - |"@" + version|..] == "@" + version;
    ContainsMiddle(head, id, "@" + version);
  }

  /**
   * Without percent-encoding the purl does not determine the package: an id
   * holding `@` and a version can give the purl of another id and version.
   */
  lemma PurlAmbiguous(p: Package, q: Package, x: string)
    requires p.source == q.source && p.id == q.id + "@" + x && q.version == x + "@" + p.version
    ensures Purl(p) == Purl(q) && p.id != q.id
  {
    var head := "pkg:" + PurlType(p.source) + "/";
    assert Purl(p) == head + q.id + "@" + x + "@" + p.version;
    assert Purl(q) == head + q.id + "@" + x + "@" + p.version;
  }

  // ---------------------------------------------------------------------------
  // Vulnerabilities

  datatype Rating = Rating(severity: string, ratingMethod: string)

  datatype CdxVulnerability = CdxVulnerability(
    bomRef: string,
    id: string,
    description: Option<string>,
    recommendation: Option<string>,
    ratings: seq<Rating>,
    affects: seq<string>)

  /** The entry of one vulnerability. */
  function VulnerabilityOf(v: Vulnerability): CdxVulnerability
  {
    var recommendation := if v.fixedVersion.Some? then Some("Upgrade to version " + v.fixedVersion.value) else Option.None;
    var description := if v.description.Some? then v.description else Some(v.title);
    CdxVulnerability("vuln-" + v.id, v.id, description, recommendation,
      [Rating(SeverityName(v.severity), "other")], [v.packageId])
  }

  /**
   * An entry always has a description (the title when there is none), a
   * recommendation iff a fixed version is known, one rating with method
   * "other", and affects exactly the vulnerability's package.
   */
  lemma VulnerabilitySpec(v: Vulnerability)
    ensures var e := VulnerabilityOf(v);
      && e.id == v.id
      && StartsWith(e.bomRef, "vuln-") && e.bomRef[|"vuln-"|..] == v.id
      && e.description.Some?
      && (v.description.Some? ==> e.description == v.description)
      && (v.description.None? ==> e.description == Some(v.title))
      && (e.recommendation.Some? <==> v.fixedVersion.Some?)
      && (v.fixedVersion.Some? ==> EndsWith(e.recommendation.value, v.fixedVersion.value))
      && |e.ratings| == 1 && e.ratings[0].ratingMethod == "other" && e.ratings[0].severity == v.severity.AsStr()
      && e.affects == [v.packageId]
  {
    var e := VulnerabilityOf(v);
    StartsWithIff(e.bomRef, "vuln-");
    assert e.bomRef[..|"vuln-"|] == "vuln-";
    if v.fixedVersion.Some? {
      var r := e.recommendation.value;
      EndsWithIff(r, v.fixedVersion.value);
      assert r[|r| - |v.fixedVersion.value|..] == v.fixedVersion.value;
    }
  }

  // ---------------------------------------------------------------------------
  // Serial number

  const NANOS_LIMIT: nat := 0x1_0000_0000_0000_0000_0000_0000_0000_0000

  /** A clock reading in nanoseconds, as the 128-bit `as_nanos` gives it. */
  type Nanos = n: nat | n < NANOS_LIMIT

  predicate IsLowerHex(ch: char)
  {
    ('0' <= ch <= '9') || ('a' <= ch <= 'f')
  }

  function HexChar(d: nat): (ch: char)
    requires d < 16
    ensures IsLowerHex(ch)
  {
    if d < 10 then ('0' as int + d) as char else ('a' as int + d - 10) as char
  }

  function HexCharValue(ch: char): (d: nat)
    requires IsLowerHex(ch)
    ensures d < 16
  {
    if ch <= '9' then ch as int - '0' as int else ch as int - 'a' as int + 10
  }

  function Pow16(w: nat): (r: nat)
    ensures r >= 1
  {
    if w == 0 then 1 else 16 * Pow16(w - 1)
  }

  lemma Pow16Values()
    ensures Pow16(3) == 0x1000 && Pow16(4) == 0x1_0000
    ensures Pow16(8) == 0x1_0000_0000 && Pow16(12) == 0x1_0000_0000_0000
  {
    assert Pow16(4) == 0x1_0000;
    assert Pow16(8) == Pow16(4) * Pow16(4) by { Pow16Add(4, 4); }
    assert Pow16(12) == Pow16(8) * Pow16(4) by { Pow16Add(8, 4); }
  }

  lemma {:induction false} Pow16Add(a: nat, b: nat)
    ensures Pow16(a + b) == Pow16(a) * Pow16(b)
  {
    if b > 0 {
      Pow16Add(a, b - 1);
    }
  }

  /** `{:0Nx}` of a value with at most `width` hex digits: exactly `width` lowercase digits. */
  function Hex(n: nat, width: nat): (r: string)
    requires n < Pow16(width)
    ensures |r| == width
    ensures forall i :: 0 <= i < |r| ==> IsLowerHex(r[i])
  {
    if width == 0 then [] else Hex(n / 16, width - 1) + [HexChar(n % 16)]
  }

  predicate AllLowerHex(s: string)
  {
    forall i :: 0 <= i < |s| ==> IsLowerHex(s[i])
  }

  /** The value of a string of hex digits, most significant first. */
  function HexValue(s: string): nat
    requires AllLowerHex(s)
  {
    if s == [] then 0 else HexValue(s[..|s| - 1]) * 16 + HexCharValue(s[|s| - 1])
  }

  /** The digits are worth the number they render. */
  lemma {:induction false} HexValueOfHex(n: nat, width: nat)
    requires n < Pow16(width)
    ensures HexValue(Hex(n, width)) == n
  {
    if width > 0 {
      var r := Hex(n, width);
      assert r[..|r| - 1] == Hex(n / 16, width - 1);
      HexValueOfHex(n / 16, width - 1);
      assert HexCharValue(HexChar(n % 16)) == n % 16;
    }
  }

  /** The five fields of `uuid_v4`, taken from the clock reading as the casts and masks do. */
  function TimeHigh(now: Nanos): (f: nat)
    ensures f < 0x1_0000_0000
  {
    (now / 0x1_0000_0000_0000_0000_0000_0000) % 0x1_0000_0000
  }

  function TimeMid(now: Nanos): (f: nat)
    ensures f < 0x1_0000
  {
    (now / 0x1_0000_0000_0000_0000_0000) % 0x1_0000
  }

  /** `(now >> 68) as u16 & 0x0fff`, the mask written as the remainder it is (see `MasksAreRemainders`). */
  function TimeLow(now: Nanos): (f: nat)
    ensures f < 0x1000
  {
    ((now / 0x10_0000_0000_0000_0000) % 0x1_0000) % 0x1000
  }

  /** `((now >> 52) as u16 & 0x3fff) | 0x8000`, written arithmetically (see `MasksAreRemainders`). */
  function ClockSeq(now: Nanos): (f: nat)
    ensures 0x8000 <= f <= 0xBFFF
  {
    ((now / 0x10_0000_0000_0000) % 0x1_0000) % 0x4000 + 0x8000
  }

  /** On 16-bit words the masks of `uuid_v4` are remainders and the `| 0x8000` an addition. */
  lemma MasksAreRemainders(w: bv16)
    ensures w & 0x0fff == w % 0x1000
    ensures (w & 0x3fff) | 0x8000 == w % 0x4000 + 0x8000
    ensures w % 0x4000 + 0x8000 >= 0x8000 && w % 0x4000 + 0x8000 <= 0xBFFF
  {
  }

  /** `now as u64 & 0xffffffffffff`. */
  function Node(now: Nanos): (f: nat)
    ensures f < 0x1_0000_0000_0000
  {
    (now % 0x1_0000_0000_0000_0000) % 0x1_0000_0000_0000
  }

  /** `uuid_v4`: the groups 8-4-4-4-12, the third starting with the version digit `4`. */
  function Uuid(now: Nanos): string
  {
    Pow16Values();
    Hex(TimeHigh(now), 8) + "-" + Hex(TimeMid(now), 4) + "-4" + Hex(TimeLow(now), 3)
      + "-" + Hex(ClockSeq(now), 4) + "-" + Hex(Node(now), 12)
  }

  /** Where the pieces of a five-group UUID text lie. */
  lemma UuidPieces(a: string, b: string, c: string, d: string, e: string)
    requires |a| == 8 && |b| == 4 && |c| == 3 && |d| == 4 && |e| == 12
    ensures var u := a + "-" + b + "-4" + c + "-" + d + "-" + e;
      && |u| == 36
      && u[..8] == a && u[9..13] == b && u[15..18] == c && u[19..23] == d && u[24..] == e
      && u[8] == '-' && u[13] == '-' && u[14] == '4' && u[18] == '-' && u[23] == '-'
  {
    var u := a + "-" + b + "-4" + c + "-" + d + "-" + e;
    assert u[..8] == a;
    assert u[9..13] == b;
    assert u[15..18] == c;
    assert u[19..23] == d;
    assert u[24..] == e;
  }

  /**
   * The serial is 36 characters: lowercase hex digits with dashes at 8, 13, 18
   * and 23, the version digit `4` at 14, and a fourth group worth 0x8000 to
   * 0xBFFF (the RFC 4122 variant), i.e. starting with 8, 9, a or b.
   */
  lemma UuidSpec(now: Nanos)
    ensures var u := Uuid(now);
      && |u| == 36
      && u[8] == '-' && u[13] == '-' && u[18] == '-' && u[23] == '-' && u[14] == '4'
      && (forall i :: 0 <= i < 36 && i != 8 && i != 13 && i != 18 && i != 23 ==> IsLowerHex(u[i]))
      && AllLowerHex(u[19..23]) && 0x8000 <= HexValue(u[19..23]) <= 0xBFFF
      && u[19] in "89ab"
  {
    Pow16Values();
    var a, b, c, d, e := Hex(TimeHigh(now), 8), Hex(TimeMid(now), 4), Hex(TimeLow(now), 3), Hex(ClockSeq(now), 4), Hex(Node(now), 12);
    UuidPieces(a, b, c, d, e);
    var u := Uuid(now);
    assert u == a + "-" + b + "-4" + c + "-" + d + "-" + e;
    forall i | 0 <= i < 36 && i != 8 && i != 13 && i != 18 && i != 23
      ensures IsLowerHex(u[i])
    {
      if i < 8 { assert u[i] == a[i]; }
      else if i < 13 { assert u[i] == u[9..13][i - 9]; }
      else if i == 14 { }
      else if i < 18 { assert u[i] == u[15..18][i - 15]; }
      else if i < 23 { assert u[i] == u[19..23][i - 19]; }
      else { assert u[i] == u[24..][i - 24]; }
    }
    HexValueOfHex(ClockSeq(now), 4);
    LeadingHexDigit(d);
  }

  /** Each group of the serial renders its field of the clock reading. */
  lemma UuidFields(now: Nanos)
    ensures var u := Uuid(now);
      && |u| == 36 && AllLowerHex(u[..8]) && AllLowerHex(u[9..13]) && AllLowerHex(u[15..18])
      && AllLowerHex(u[19..23]) && AllLowerHex(u[24..])
      && HexValue(u[..8]) == TimeHigh(now) && HexValue(u[9..13]) == TimeMid(now)
      && HexValue(u[15..18]) == TimeLow(now) && HexValue(u[19..23]) == ClockSeq(now)
      && HexValue(u[24..]) == Node(now)
  {
    Pow16Values();
    var a, b, c, d, e := Hex(TimeHigh(now), 8), Hex(TimeMid(now), 4), Hex(TimeLow(now), 3), Hex(ClockSeq(now), 4), Hex(Node(now), 12);
    UuidPieces(a, b, c, d, e);
    HexValueOfHex(TimeHigh(now), 8);
    HexValueOfHex(TimeMid(now), 4);
    HexValueOfHex(TimeLow(now), 3);
    HexValueOfHex(ClockSeq(now), 4);
    HexValueOfHex(Node(now), 12);
  }

  /** A four-digit group worth 0x8000 to 0xBFFF starts with 8, 9, a or b. */
  lemma LeadingHexDigit(d: string)
    requires |d| == 4 && AllLowerHex(d) && 0x8000 <= HexValue(d) <= 0xBFFF
    ensures d[0] in "89ab"
  {
    assert HexValue(d) == HexValue(d[..3]) * 16 + HexCharValue(d[3]);
    assert d[..3][..2] == d[..2];
    assert HexValue(d[..3]) == HexValue(d[..2]) * 16 + HexCharValue(d[2]);
    assert d[..2][..1] == d[..1];
    assert HexValue(d[..2]) == HexValue(d[..1]) * 16 + HexCharValue(d[1]);
    assert d[..1][..0] == [];
    var v0 := HexCharValue(d[0]);
    assert HexValue(d[..1]) == v0;
    assert 8 <= v0 <= 11;
  }

  // ---------------------------------------------------------------------------
  // The document

  datatype Tool = Tool(vendor: string, name: string, version: string)

  datatype Bom = Bom(
    bomFormat: string,
    specVersion: string,
    version: nat,
    serialNumber: string,
    timestamp: string,
    tools: seq<Tool>,
    components: seq<Component>,
    vulnerabilities: seq<CdxVulnerability>)

  /** The document a scan result gives at clock reading `now`. */
  function BomOf(result: ScanResult, toolVersion: string, now: Nanos, timestamp: string): Bom
  {
    BomWithSerial(result, toolVersion, "urn:uuid:" + Uuid(now), timestamp)
  }

  /** The document with a given serial number. */
  function BomWithSerial(result: ScanResult, toolVersion: string, serial: string, timestamp: string): Bom
  {
    var ps := result.packages;
    var vs := result.vulnerabilities;
    Bom("CycloneDX", "1.5", 1, serial, timestamp,
      [Tool("extenscan", "extenscan", toolVersion)],
      Components(ps),
      seq(|vs|, i requires 0 <= i < |vs| => VulnerabilityOf(vs[i])))
  }

  /**
   * `print_cyclonedx` and `generate_cyclonedx_string` build the same document:
   * the components loop, then the vulnerabilities mapped in order.
   */
  method BuildBom(result: ScanResult, toolVersion: string, now: Nanos, timestamp: string) returns (bom: Bom)
    ensures bom == BomOf(result, toolVersion, now, timestamp)
  {
    var components := BuildComponents(result.packages);
    var vs := result.vulnerabilities;
    var vulnerabilities := seq(|vs|, i requires 0 <= i < |vs| => VulnerabilityOf(vs[i]));
    bom := Bom("CycloneDX", "1.5", 1, "urn:uuid:" + Uuid(now), timestamp,
      [Tool("extenscan", "extenscan", toolVersion)], components, vulnerabilities);
  }

  /** The top-level JSON keys, in order; the vulnerabilities are skipped when there are none. */
  function BomKeys(bom: Bom): seq<string>
  {
    ["bomFormat", "specVersion", "version", "serialNumber", "metadata", "components"]
      + (if bom.vulnerabilities == [] then [] else ["vulnerabilities"])
  }

  /** The JSON keys of a component: the optional ones only when present or non-empty. */
  function ComponentKeys(c: Component): seq<string>
  {
    ["type", "bom-ref", "name", "version"]
      + (if c.purl.Some? then ["purl"] else [])
      + (if c.description.Some? then ["description"] else [])
      + (if c.publisher.Some? then ["publisher"] else [])
      + (if c.licenses != [] then ["licenses"] else [])
      + (if c.externalReferences != [] then ["externalReferences"] else [])
  }

  /** The fixed header, and a serial number of the form `urn:uuid:` and 36 characters. */
  lemma BomHeader(result: ScanResult, toolVersion: string, now: Nanos, timestamp: string)
    ensures var bom := BomOf(result, toolVersion, now, timestamp);
      && bom.bomFormat == "CycloneDX" && bom.specVersion == "1.5" && bom.version == 1
      && StartsWith(bom.serialNumber, "urn:uuid:") && |bom.serialNumber| == 9 + 36
      && bom.serialNumber[9..] == Uuid(now)
  {
    var serial := "urn:uuid:" + Uuid(now);
    UuidLength(now);
    StartsWithIff(serial, "urn:uuid:");
    assert serial[..9] == "urn:uuid:";
    assert serial[9..] == Uuid(now);
  }

  lemma UuidLength(now: Nanos)
    ensures |Uuid(now)| == 36
  {
    Pow16Values();
  }

  /**
   * One component per package and one entry per vulnerability, in order, each
   * component written with its purl; the vulnerabilities key is written iff
   * there are vulnerabilities.
   */
  lemma BomSpec(result: ScanResult, toolVersion: string, serial: string, timestamp: string)
    ensures var bom := BomWithSerial(result, toolVersion, serial, timestamp);
      && |bom.components| == |result.packages| && |bom.vulnerabilities| == |result.vulnerabilities|
      && (forall i :: 0 <= i < |result.packages| ==>
            bom.components[i].bomRef == result.packages[i].id && bom.components[i].componentType == "library"
            && "purl" in ComponentKeys(bom.components[i]))
      && (forall j :: 0 <= j < |result.vulnerabilities| ==> bom.vulnerabilities[j].id == result.vulnerabilities[j].id)
      && ("vulnerabilities" in BomKeys(bom) <==> result.vulnerabilities != [])
  {
    var bom := BomWithSerial(result, toolVersion, serial, timestamp);
    forall i | 0 <= i < |result.packages|
      ensures bom.components[i].bomRef == result.packages[i].id && bom.components[i].componentType == "library"
      ensures "purl" in ComponentKeys(bom.components[i])
    {
      MapSeqAt(result.packages, ComponentOf, i);
      PurlKeyWritten(bom.components[i]);
    }
    VulnerabilitiesKey(bom);
  }

  lemma PurlKeyWritten(c: Component)
    requires c.purl.Some?
    ensures "purl" in ComponentKeys(c)
  {
    assert ComponentKeys(c)[4] == "purl";
  }

  lemma VulnerabilitiesKey(bom: Bom)
    ensures "vulnerabilities" in BomKeys(bom) <==> bom.vulnerabilities != []
  {
    if bom.vulnerabilities == [] {
      assert BomKeys(bom) == ["bomFormat", "specVersion", "version", "serialNumber", "metadata", "components"];
    } else {
      assert BomKeys(bom)[6] == "vulnerabilities";
    }
  }

  /**
   * Every entry's affected reference is the bom-ref of a component whenever
   * the vulnerability's package is among the scanned packages.
   */
  lemma AffectsResolve(result: ScanResult, toolVersion: string, serial: string, timestamp: string, j: nat, k: nat)
    requires j < |result.vulnerabilities| && k < |result.packages|
    requires result.packages[k].id == result.vulnerabilities[j].packageId
    ensures var bom := BomWithSerial(result, toolVersion, serial, timestamp);
      bom.components[k].bomRef == bom.vulnerabilities[j].affects[0]
  {
    MapSeqAt(result.packages, ComponentOf, k);
  }
}

/**
 * The OSV.dev vulnerability checker: which packages are queried, how the
 * batch answers are attached to packages, and how the severity, fixed
 * version and reference of each reported vulnerability are read. The HTTP
 * round trip is a parameter: a server that answers a batch of queries with
 * one result per query, or fails.
 */
module Osv {
  import opened Wrappers
  import opened Str
  import opened Model

  // ---------------------------------------------------------------------------
  // The records of the OSV.dev batch API

  datatype OsvSeverity = OsvSeverity(severityType: Option<string>, score: Option<string>)
  datatype OsvEvent = OsvEvent(fixed: Option<string>)
  datatype OsvRange = OsvRange(events: Option<seq<OsvEvent>>)
  datatype OsvAffected = OsvAffected(ranges: Option<seq<OsvRange>>)
  datatype OsvReference = OsvReference(url: Option<string>)

  datatype OsvVuln = OsvVuln(
    id: string,
    summary: Option<string>,
    details: Option<string>,
    severity: Option<seq<OsvSeverity>>,
    affected: Option<seq<OsvAffected>>,
    references: Option<seq<OsvReference>>)

  datatype Query = Query(name: string, ecosystem: string, version: string)
  datatype BatchResult = BatchResult(vulns: Option<seq<OsvVuln>>)

  /** Packages per batch request. */
  const BATCH_SIZE: nat := 100

  // ---------------------------------------------------------------------------
  // CVSS scores

  /** A parsed `f32`, without rounding: a finite value, an infinity, or NaN. */
  datatype Float = Finite(r: real) | Infinite(negative: bool) | NaN

  function Pow10(n: nat): (r: real)
    ensures r >= 1.0
  {
    if n == 0 then 1.0 else 10.0 * Pow10(n - 1)
  }

  /** An exponent: an optional sign and at least one digit. */
  function ParseExponent(e: string): Option<int>
  {
    var (neg, digits) := if e != [] && (e[0] == '+' || e[0] == '-') then (e[0] == '-', e[1..]) else (false, e);
    if digits != [] && AllDigits(digits) then
      var magnitude: int := DigitsValue(digits);
      Some(if neg then -magnitude else magnitude)
    else None
  }

  /**
   * A lowercased unsigned decimal: digits with an optional fraction, at least
   * one digit in all, then an optional exponent.
   */
  function ParseDecimal(t: string): Option<real>
  {
    var (mantissa, exponent) := SplitOnce(t, 'e');
    var (whole, fraction) := SplitOnce(mantissa, '.');
    var frac := fraction.UnwrapOr([]);
    if !AllDigits(whole) || !AllDigits(frac) || |whole| + |frac| == 0 then None
    else
      var m := MantissaValue(whole, frac);
      match exponent
      case None => Some(m)
      case Some(e) =>
        match ParseExponent(e)
        case None => None
        case Some(k) => Some(Scaled(m, k))
  }

  /** The value of the digits before and after the point. */
  function MantissaValue(whole: string, frac: string): real
    requires AllDigits(whole) && AllDigits(frac)
  {
    DigitsValue(whole) as real + DigitsValue(frac) as real / Pow10(|frac|)
  }

  /** A mantissa times ten to the power `k`. */
  function Scaled(m: real, k: int): real
  {
    if k >= 0 then m * Pow10(k) else m / Pow10(-k)
  }

  /**
   * `str::parse::<f32>`: an optional sign, then `inf`, `infinity` or `nan` in
   * any case, or a decimal number; no surrounding spaces.
   */
  function ParseFloat(s: string): Option<Float>
  {
    var (neg, body) := if s != [] && (s[0] == '+' || s[0] == '-') then (s[0] == '-', s[1..]) else (false, s);
    ParseUnsigned(neg, ToLower(body))
  }

  /** The text after the sign, lowercased. */
  function ParseUnsigned(neg: bool, lower: string): Option<Float>
  {
    if lower == "inf" || lower == "infinity" then Some(Infinite(neg))
    else if lower == "nan" then Some(NaN)
    else
      match ParseDecimal(lower)
      case None => None
      case Some(r) => Some(Finite(if neg then -r else r))
  }

  /** The severity bands of a numeric score; comparisons with NaN are all false. */
  function NumericSeverity(f: Float): Severity
  {
    match f
    case Finite(r) =>
      if r >= 9.0 then Critical
      else if r >= 7.0 then High
      else if r >= 4.0 then Medium
      else if r > 0.0 then Low
      else Unknown
    case Infinite(negative) => if negative then Unknown else Critical
    case NaN => Unknown
  }

  /** The impact-based reading of a CVSS vector. */
  function VectorSeverity(score: string): Severity
  {
    if Contains(score, "/C:H") || Contains(score, "/I:H") || Contains(score, "/A:H") then High
    else if Contains(score, "/C:L") || Contains(score, "/I:L") || Contains(score, "/A:L") then Medium
    else Low
  }

  /** `parse_cvss_score`: a number first, then a vector, otherwise unknown. */
  function ParseCvssScore(score: string): Severity
  {
    match ParseFloat(score)
    case Some(f) => NumericSeverity(f)
    case None => if Contains(score, "CVSS:") then VectorSeverity(score) else Unknown
  }

  /**
   * The bands of a finite score: critical from 9, high from 7, medium from 4,
   * low above 0, unknown at 0 and below.
   */
  lemma NumericBands(score: string, r: real)
    requires ParseFloat(score) == Some(Finite(r))
    ensures ParseCvssScore(score) == Critical <==> r >= 9.0
    ensures ParseCvssScore(score) == High <==> 7.0 <= r < 9.0
    ensures ParseCvssScore(score) == Medium <==> 4.0 <= r < 7.0
    ensures ParseCvssScore(score) == Low <==> 0.0 < r < 4.0
    ensures ParseCvssScore(score) == Unknown <==> r <= 0.0
  {
  }

  /**
   * A vector is high when some impact is high, otherwise medium when some
   * impact is low, otherwise low; never critical or unknown.
   */
  lemma VectorBands(score: string)
    requires ParseFloat(score).None? && Contains(score, "CVSS:")
    ensures ParseCvssScore(score) == High <==> Contains(score, "/C:H") || Contains(score, "/I:H") || Contains(score, "/A:H")
    ensures ParseCvssScore(score) == Medium <==>
      !(Contains(score, "/C:H") || Contains(score, "/I:H") || Contains(score, "/A:H"))
      && (Contains(score, "/C:L") || Contains(score, "/I:L") || Contains(score, "/A:L"))
    ensures ParseCvssScore(score) != Critical && ParseCvssScore(score) != Unknown
  {
  }

  /** Anything that is neither a number nor a vector is unknown. */
  lemma OtherUnknown(score: string)
    requires ParseFloat(score).None? && !Contains(score, "CVSS:")
    ensures ParseCvssScore(score) == Unknown
  {
  }

  /** The characters a float text can hold. */
  predicate IsFloatChar(ch: char)
  {
    IsDigit(ch) || ch in "+-.eEiInNfFtTyYaA"
  }

  lemma {:induction false} LowerKeepsFloatChars(s: string)
    requires forall i :: 0 <= i < |ToLower(s)| ==> IsFloatChar(ToLower(s)[i])
    ensures forall i :: 0 <= i < |s| ==> IsFloatChar(s[i])
  {
    forall i | 0 <= i < |s|
      ensures IsFloatChar(s[i])
    {
      assert IsFloatChar(ToLower(s)[i]);
    }
  }

  lemma ExponentChars(e: string)
    requires ParseExponent(e).Some?
    ensures forall i :: 0 <= i < |e| ==> IsFloatChar(e[i])
  {
    if e != [] && (e[0] == '+' || e[0] == '-') {
      assert forall i :: 1 <= i < |e| ==> e[i] == e[1..][i - 1];
    }
  }

  lemma DecimalChars(t: string)
    requires ParseDecimal(t).Some?
    ensures forall i :: 0 <= i < |t| ==> IsFloatChar(t[i])
  {
    var (mantissa, exponent) := SplitOnce(t, 'e');
    var (whole, fraction) := SplitOnce(mantissa, '.');
    SplitOnceSpec(t, 'e');
    SplitOnceSpec(mantissa, '.');
    if exponent.Some? {
      ExponentChars(exponent.value);
    }
  }

  lemma UnsignedChars(neg: bool, lower: string)
    requires ParseUnsigned(neg, lower).Some?
    ensures forall i :: 0 <= i < |lower| ==> IsFloatChar(lower[i])
  {
    if lower != "inf" && lower != "infinity" && lower != "nan" {
      DecimalChars(lower);
    }
  }

  /** Whatever parses as a float is made of digits, signs, points, exponents and the letters of `inf`, `infinity`, `nan`. */
  lemma FloatTextChars(s: string)
    requires ParseFloat(s).Some?
    ensures forall i :: 0 <= i < |s| ==> IsFloatChar(s[i])
  {
    var signed := s != [] && (s[0] == '+' || s[0] == '-');
    var body := if signed then s[1..] else s;
    UnsignedChars(signed && s[0] == '-', ToLower(body));
    LowerKeepsFloatChars(body);
    if signed {
      assert forall i :: 1 <= i < |s| ==> s[i] == body[i - 1];
    }
  }

  /** A CVSS vector is never read as a number, so the order of the two checks does not matter for it. */
  lemma VectorIsNoNumber(score: string)
    requires Contains(score, "CVSS:")
    ensures ParseFloat(score).None?
  {
    ContainsIff(score, "CVSS:");
    var k :| OccursAt(score, "CVSS:", k);
    assert score[k + 4] == "CVSS:"[4];
    assert !IsFloatChar(score[k + 4]);
    if ParseFloat(score).Some? {
      FloatTextChars(score);
      assert false;
    }
  }

  /** The value of a digit. */
  function DigitValue(c: char): real
  {
    (c as int - '0' as int) as real
  }

  /** A decimal with a point: the whole digits plus the fraction digits over their power of ten. */
  lemma PointDecimal(w: string, f: string)
    requires w != [] && AllDigits(w) && AllDigits(f)
    ensures ParseDecimal(w + ['.'] + f) == Some(MantissaValue(w, f))
  {
    var t := w + ['.'] + f;
    NoExponentMark(w, f);
    SplitOnceAbsent(t, 'e');
    assert '.' !in w by {
      assert forall i :: 0 <= i < |w| ==> IsDigit(w[i]);
    }
    SplitOnceAt(w, '.', f);
    assert SplitOnce(t, 'e') == (t, None) && SplitOnce(t, '.') == (w, Some(f));
    DecimalOfParts(t, w, f);
  }

  lemma DecimalOfParts(t: string, w: string, f: string)
    requires SplitOnce(t, 'e') == (t, None) && SplitOnce(t, '.') == (w, Some(f))
    requires w != [] && AllDigits(w) && AllDigits(f)
    ensures ParseDecimal(t) == Some(MantissaValue(w, f))
  {
  }

  lemma NoExponentMark(w: string, f: string)
    requires AllDigits(w) && AllDigits(f)
    ensures 'e' !in w + ['.'] + f
  {
    var t := w + ['.'] + f;
    forall i | 0 <= i < |t|
      ensures t[i] != 'e'
    {
      if i < |w| {
        assert t[i] == w[i];
      } else if i > |w| {
        assert t[i] == f[i - |w| - 1];
      }
    }
  }

  /** A lowercase text that starts with a digit is read as a decimal. */
  lemma DigitFloat(s: string)
    requires s != [] && IsDigit(s[0]) && ToLower(s) == s && ParseDecimal(s).Some?
    ensures ParseFloat(s) == Some(Finite(ParseDecimal(s).value))
  {
    assert "inf"[0] == 'i' && "infinity"[0] == 'i' && "nan"[0] == 'n';
  }

  /** A score of one digit, a point and one digit. */
  lemma OneDecimalText(s: string, a: char, b: char)
    requires IsDigit(a) && IsDigit(b) && s == [a, '.', b]
    ensures ParseFloat(s) == Some(Finite(DigitValue(a) + DigitValue(b) / 10.0))
  {
    assert ToLower(s) == s;
    assert s == [a] + ['.'] + [b];
    PointDecimal([a], [b]);
    assert [a][..0] == [] && [b][..0] == [];
    assert DigitsValue([a]) as real == DigitValue(a) && DigitsValue([b]) as real == DigitValue(b);
    assert Pow10(1) == 10.0;
    DigitFloat(s);
  }

  /** The numeric cases of the source's unit tests. */
  lemma HighSamples()
    ensures ParseCvssScore("9.0") == Critical && ParseCvssScore("9.8") == Critical
    ensures ParseCvssScore("7.0") == High && ParseCvssScore("8.5") == High && ParseCvssScore("7.9") == High
  {
    OneDecimalText("9.0", '9', '0');
    OneDecimalText("9.8", '9', '8');
    OneDecimalText("7.0", '7', '0');
    OneDecimalText("8.5", '8', '5');
    OneDecimalText("7.9", '7', '9');
  }

  lemma MediumSamples()
    ensures ParseCvssScore("4.0") == Medium && ParseCvssScore("5.5") == Medium && ParseCvssScore("6.9") == Medium
  {
    OneDecimalText("4.0", '4', '0');
    OneDecimalText("5.5", '5', '5');
    OneDecimalText("6.9", '6', '9');
  }

  lemma LowSamples()
    ensures ParseCvssScore("0.1") == Low && ParseCvssScore("1.0") == Low && ParseCvssScore("3.9") == Low
  {
    OneDecimalText("0.1", '0', '1');
    OneDecimalText("1.0", '1', '0');
    OneDecimalText("3.9", '3', '9');
  }

  lemma ZeroSample()
    ensures ParseCvssScore("0.0") == Unknown
  {
    OneDecimalText("0.0", '0', '0');
  }

  lemma TwoDigitSample()
    ensures ParseCvssScore("10.0") == Critical
  {
    var s := "10.0";
    assert ToLower(s) == s;
    assert s == "10" + ['.'] + "0";
    PointDecimal("10", "0");
    assert "10"[..1] == "1" && "1"[..0] == [] && "0"[..0] == [];
    assert DigitsValue("10") == 10;
    assert Pow10(1) == 10.0;
    DigitFloat(s);
  }

  lemma NegativeSample()
    ensures ParseCvssScore("-1.0") == Unknown
  {
    OneDecimalText("1.0", '1', '0');
    assert "-1.0"[1..] == "1.0";
  }

  /** A text that holds a character no float text can hold is no number. */
  lemma NoFloatChar(s: string, i: nat)
    requires i < |s| && !IsFloatChar(s[i])
    ensures ParseFloat(s).None?
  {
    if ParseFloat(s).Some? {
      FloatTextChars(s);
      assert false;
    }
  }

  /** A text without the first character of `p` does not contain `p`. */
  lemma MissingFirstChar(s: string, p: string)
    requires |p| > 0 && forall i :: 0 <= i < |s| ==> s[i] != p[0]
    ensures !Contains(s, p)
  {
    ContainsIff(s, p);
  }

  lemma TextSample()
    ensures ParseCvssScore("not a number") == Unknown
  {
    NoFloatChar("not a number", 1);
    MissingFirstChar("not a number", "CVSS:");
  }

  /** A vector with a high impact is high. */
  lemma VectorHigh(s: string, a: string, impact: string, c: string)
    requires Contains(s, "CVSS:") && impact in {"/C:H", "/I:H", "/A:H"} && s == a + impact + c
    ensures ParseCvssScore(s) == High
  {
    ContainsMiddle(a, impact, c);
    VectorIsNoNumber(s);
  }

  // ---------------------------------------------------------------------------
  // Severity, fixed version and reference of one vulnerability

  /** The severity one entry gives: that of its score, unknown when it has none. */
  function EntrySeverity(e: OsvSeverity): Severity
  {
    if e.score.Some? then ParseCvssScore(e.score.value) else Unknown
  }

  /** The first severity other than unknown that `classify` gives an entry, in order. */
  function FirstKnown(entries: seq<OsvSeverity>, classify: OsvSeverity -> Severity): Severity
  {
    if entries == [] then Unknown
    else if classify(entries[0]) != Unknown then classify(entries[0])
    else FirstKnown(entries[1..], classify)
  }

  /** The first known severity among the scores present, in order. */
  function FirstKnownSeverity(severities: seq<OsvSeverity>): Severity
  {
    FirstKnown(severities, EntrySeverity)
  }

  function SeverityOf(vuln: OsvVuln): Severity
  {
    match vuln.severity
    case None => Unknown
    case Some(severities) => FirstKnownSeverity(severities)
  }

  /** `parse_severity`: scans the scores and returns at the first one that classifies. */
  method ParseSeverity(vuln: OsvVuln) returns (severity: Severity)
    ensures severity == SeverityOf(vuln)
  {
    if vuln.severity.Some? {
      var severities := vuln.severity.value;
      var i := 0;
      while i < |severities|
        invariant 0 <= i <= |severities|
        invariant FirstKnownSeverity(severities) == FirstKnownSeverity(severities[i..])
      {
        assert severities[i..][1..] == severities[i + 1..];
        var score := severities[i].score;
        if score.Some? {
          var s := ParseCvssScore(score.value);
          if s != Unknown {
            return s;
          }
        }
        i := i + 1;
      }
    }
    return Unknown;
  }

  /**
   * The severity is that of the first score present that classifies, with
   * every earlier entry absent or unknown; it is unknown exactly when no
   * score classifies.
   */
  lemma FirstKnownSeveritySpec(severities: seq<OsvSeverity>)
    ensures var r := FirstKnownSeverity(severities);
      && (r == Unknown <==> forall i :: 0 <= i < |severities| ==> EntrySeverity(severities[i]) == Unknown)
      && (r != Unknown ==>
            exists i :: (0 <= i < |severities| && EntrySeverity(severities[i]) == r
              && forall j :: 0 <= j < i ==> EntrySeverity(severities[j]) == Unknown))
  {
    FirstKnownSpec(severities, EntrySeverity);
  }

  lemma {:induction false} FirstKnownSpec(entries: seq<OsvSeverity>, classify: OsvSeverity -> Severity)
    ensures var r := FirstKnown(entries, classify);
      && (r == Unknown <==> forall i :: 0 <= i < |entries| ==> classify(entries[i]) == Unknown)
      && (r != Unknown ==>
            exists i :: (0 <= i < |entries| && classify(entries[i]) == r
              && forall j :: 0 <= j < i ==> classify(entries[j]) == Unknown))
    decreases |entries|
  {
    if entries != [] {
      var tail := entries[1..];
      FirstKnownSpec(tail, classify);
      assert forall i :: 1 <= i < |entries| ==> entries[i] == tail[i - 1];
      if classify(entries[0]) == Unknown {
        var r := FirstKnown(tail, classify);
        if r != Unknown {
          var i :| 0 <= i < |tail| && classify(tail[i]) == r && forall j :: 0 <= j < i ==> classify(tail[j]) == Unknown;
          assert entries[i + 1] == tail[i];
          forall j | 0 <= j < i + 1
            ensures classify(entries[j]) == Unknown
          {
            if j > 0 {
              assert entries[j] == tail[j - 1];
            }
          }
        }
      }
    }
  }

  /** The first `fixed` event of a list of events. */
  function FixedInEvents(events: seq<OsvEvent>): Option<string>
  {
    if events == [] then None
    else if events[0].fixed.Some? then events[0].fixed
    else FixedInEvents(events[1..])
  }

  function FixedInRanges(ranges: seq<OsvRange>): Option<string>
  {
    if ranges == [] then None
    else
      match (if ranges[0].events.Some? then FixedInEvents(ranges[0].events.value) else None)
      case Some(v) => Some(v)
      case None => FixedInRanges(ranges[1..])
  }

  function FixedInAffected(affected: seq<OsvAffected>): Option<string>
  {
    if affected == [] then None
    else
      match (if affected[0].ranges.Some? then FixedInRanges(affected[0].ranges.value) else None)
      case Some(v) => Some(v)
      case None => FixedInAffected(affected[1..])
  }

  /** `extract_fixed_version`: the nested `find_map` over affected, ranges and events. */
  function ExtractFixedVersion(vuln: OsvVuln): Option<string>
  {
    if vuln.affected.Some? then FixedInAffected(vuln.affected.value) else None
  }

  /** Reference definition: every `fixed` value, flattened in affected, range, event order. */
  function AllFixedEvents(events: seq<OsvEvent>): seq<string>
  {
    if events == [] then []
    else (if events[0].fixed.Some? then [events[0].fixed.value] else []) + AllFixedEvents(events[1..])
  }

  function AllFixedRanges(ranges: seq<OsvRange>): seq<string>
  {
    if ranges == [] then []
    else (if ranges[0].events.Some? then AllFixedEvents(ranges[0].events.value) else []) + AllFixedRanges(ranges[1..])
  }

  function AllFixedAffected(affected: seq<OsvAffected>): seq<string>
  {
    if affected == [] then []
    else (if affected[0].ranges.Some? then AllFixedRanges(affected[0].ranges.value) else []) + AllFixedAffected(affected[1..])
  }

  function AllFixed(vuln: OsvVuln): seq<string>
  {
    if vuln.affected.Some? then AllFixedAffected(vuln.affected.value) else []
  }

  function Head(s: seq<string>): Option<string>
  {
    if s == [] then None else Some(s[0])
  }

  lemma HeadAppend(a: seq<string>, b: seq<string>)
    ensures Head(a + b) == if a == [] then Head(b) else Head(a)
  {
    if a == [] {
      assert a + b == b;
    }
  }

  lemma {:induction false} FixedInEventsFirst(events: seq<OsvEvent>)
    ensures FixedInEvents(events) == Head(AllFixedEvents(events))
    decreases |events|
  {
    if events != [] {
      FixedInEventsFirst(events[1..]);
      HeadAppend(if events[0].fixed.Some? then [events[0].fixed.value] else [], AllFixedEvents(events[1..]));
    }
  }

  lemma {:induction false} FixedInRangesFirst(ranges: seq<OsvRange>)
    ensures FixedInRanges(ranges) == Head(AllFixedRanges(ranges))
    decreases |ranges|
  {
    if ranges != [] {
      FixedInRangesFirst(ranges[1..]);
      if ranges[0].events.Some? {
        FixedInEventsFirst(ranges[0].events.value);
      }
      HeadAppend(if ranges[0].events.Some? then AllFixedEvents(ranges[0].events.value) else [], AllFixedRanges(ranges[1..]));
    }
  }

  lemma {:induction false} FixedInAffectedFirst(affected: seq<OsvAffected>)
    ensures FixedInAffected(affected) == Head(AllFixedAffected(affected))
    decreases |affected|
  {
    if affected != [] {
      FixedInAffectedFirst(affected[1..]);
      if affected[0].ranges.Some? {
        FixedInRangesFirst(affected[0].ranges.value);
      }
      HeadAppend(if affected[0].ranges.Some? then AllFixedRanges(affected[0].ranges.value) else [], AllFixedAffected(affected[1..]));
    }
  }

  /** The fixed version is the first of all `fixed` values in document order, and none when there are none. */
  lemma ExtractFixedVersionFirst(vuln: OsvVuln)
    ensures ExtractFixedVersion(vuln) == Head(AllFixed(vuln))
  {
    if vuln.affected.Some? {
      FixedInAffectedFirst(vuln.affected.value);
    }
  }

  /** The first reference that carries a url. */
  function FirstUrl(refs: seq<OsvReference>): (r: Option<string>)
    ensures r.Some? ==> exists i :: 0 <= i < |refs| && refs[i].url == r && forall j :: 0 <= j < i ==> refs[j].url.None?
    ensures r.None? ==> forall i :: 0 <= i < |refs| ==> refs[i].url.None?
  {
    if refs == [] then None
    else if refs[0].url.Some? then refs[0].url
    else
      var r := FirstUrl(refs[1..]);
      assert forall i :: 1 <= i < |refs| ==> refs[i] == refs[1..][i - 1];
      if r.Some? then
        var i :| 0 <= i < |refs[1..]| && refs[1..][i].url == r && forall j :: 0 <= j < i ==> refs[1..][j].url.None?;
        assert refs[i + 1].url == r;
        r
      else r
  }

  function ReferenceUrl(vuln: OsvVuln): Option<string>
  {
    if vuln.references.Some? then FirstUrl(vuln.references.value) else None
  }

  /** The vulnerability record for one OSV entry reported against a package. */
  function ToVulnerability(package: Package, vuln: OsvVuln): (v: Vulnerability)
    ensures v.id == vuln.id && v.packageId == package.id
    ensures v.title == (if vuln.summary.Some? then vuln.summary.value else "Unknown vulnerability")
    ensures v.description == vuln.details
  {
    Vulnerability(vuln.id, package.id, SeverityOf(vuln), vuln.summary.UnwrapOr("Unknown vulnerability"),
      vuln.details, ExtractFixedVersion(vuln), ReferenceUrl(vuln))
  }

  // ---------------------------------------------------------------------------
  // Ecosystems, batches and the whole check

  /** `get_ecosystem`: only npm and Homebrew packages have an OSV ecosystem. */
  function GetEcosystem(source: Source): (r: Option<string>)
    ensures r.Some? <==> source == Npm || source == Homebrew
    ensures source == Npm ==> r == Some("npm")
    ensures source == Homebrew ==> r == Some("Homebrew")
  {
    match source
    case Npm => Some("npm")
    case Homebrew => Some("Homebrew")
    case _ => None
  }

  /** The packages that have an ecosystem, with their positions in the input. */
  function Checkable(packages: seq<Package>): (r: seq<(nat, Package)>)
    ensures forall k :: 0 <= k < |r| ==> r[k].0 < |packages| && packages[r[k].0] == r[k].1 && GetEcosystem(r[k].1.source).Some?
  {
    if packages == [] then []
    else
      var init := Checkable(packages[..|packages| - 1]);
      var last := |packages| - 1;
      assert forall k :: 0 <= k < |init| ==> packages[init[k].0] == packages[..last][init[k].0];
      if GetEcosystem(packages[last].source).Some? then init + [(last, packages[last])] else init
  }

  /** Every package that has an ecosystem is checkable, and positions increase. */
  lemma {:induction false} CheckableComplete(packages: seq<Package>)
    ensures var r := Checkable(packages);
      && (forall k :: 0 <= k < |packages| && GetEcosystem(packages[k].source).Some? ==> (k, packages[k]) in r)
      && Increasing(r)
    decreases |packages|
  {
    if packages != [] {
      var last := |packages| - 1;
      var pre := packages[..last];
      CheckableComplete(pre);
      var init := Checkable(pre);
      var keep := GetEcosystem(packages[last].source).Some?;
      var r := Checkable(packages);
      assert r == if keep then init + [(last, packages[last])] else init;
      forall k | 0 <= k < last && GetEcosystem(packages[k].source).Some?
        ensures (k, packages[k]) in r
      {
        assert pre[k] == packages[k];
        assert (k, pre[k]) in init;
      }
    }
  }

  /** Positions strictly increase along the list. */
  predicate Increasing<T>(s: seq<(nat, T)>)
  {
    forall a, b :: 0 <= a < b < |s| ==> s[a].0 < s[b].0
  }

  /** `chunks(n)`: consecutive pieces of `n` elements, the last possibly shorter; none for an empty input. */
  function Chunks<T>(s: seq<T>, n: nat): (r: seq<seq<T>>)
    requires n > 0
    ensures forall k :: 0 <= k < |r| ==> 0 < |r[k]| <= n
    ensures forall k :: 0 <= k < |r| - 1 ==> |r[k]| == n
    decreases |s|
  {
    if s == [] then []
    else if |s| <= n then [s]
    else [s[..n]] + Chunks(s[n..], n)
  }

  function Flatten<T>(ss: seq<seq<T>>): seq<T>
  {
    if ss == [] then [] else ss[0] + Flatten(ss[1..])
  }

  lemma FlattenCons<T>(a: seq<T>, ss: seq<seq<T>>)
    ensures Flatten([a] + ss) == a + Flatten(ss)
  {
    assert ([a] + ss)[0] == a && ([a] + ss)[1..] == ss;
  }

  /** The chunks make up the input again, so every checkable package is in exactly one batch. */
  lemma {:induction false} ChunksFlatten<T>(s: seq<T>, n: nat)
    requires n > 0
    ensures Flatten(Chunks(s, n)) == s
    decreases |s|
  {
    if s != [] && |s| > n {
      ChunksFlatten(s[n..], n);
      var rest := Chunks(s[n..], n);
      assert Chunks(s, n) == [s[..n]] + rest;
      FlattenCons(s[..n], rest);
      assert s[..n] + s[n..] == s;
    } else if s != [] {
      assert Chunks(s, n) == [s];
      FlattenCons(s, []);
      assert s + [] == s;
    }
  }

  /** Every chunk of a list with increasing positions has increasing positions. */
  lemma {:induction false} ChunksIncreasing<T>(s: seq<(nat, T)>, n: nat)
    requires n > 0 && Increasing(s)
    ensures forall c :: 0 <= c < |Chunks(s, n)| ==> Increasing(Chunks(s, n)[c])
    decreases |s|
  {
    if s != [] && |s| > n {
      ChunksIncreasing(s[n..], n);
      assert Chunks(s, n) == [s[..n]] + Chunks(s[n..], n);
    }
  }

  /** The query sent for each package that has an ecosystem. */
  function QueriesOf(chunk: seq<(nat, Package)>): seq<Query>
  {
    if chunk == [] then []
    else
      var p := chunk[0].1;
      (match GetEcosystem(p.source)
       case Some(e) => [Query(p.id, e, p.version)]
       case None => []) + QueriesOf(chunk[1..])
  }

  /** The answers paired back with package positions: result `i` belongs to chunk entry `i`; absent or empty answers are dropped. */
  function BatchPairs(chunk: seq<(nat, Package)>, results: seq<BatchResult>): (r: seq<(nat, seq<OsvVuln>)>)
    ensures forall k :: 0 <= k < |r| ==> exists i :: (0 <= i < |chunk| && i < |results| && r[k].0 == chunk[i].0
      && results[i].vulns == Some(r[k].1) && r[k].1 != [])
    decreases |results|
  {
    if results == [] then []
    else
      var init := BatchPairs(chunk, results[..|results| - 1]);
      var i := |results| - 1;
      assert forall k :: 0 <= k < |init| ==> exists j :: (0 <= j < |chunk| && j < |results[..i]| && init[k].0 == chunk[j].0
        && results[..i][j].vulns == Some(init[k].1) && init[k].1 != []);
      if i < |chunk| && results[i].vulns.Some? && results[i].vulns.value != [] then init + [(chunk[i].0, results[i].vulns.value)]
      else init
  }

  /** Every non-empty answer at a position of the batch yields its pair. */
  lemma {:induction false} BatchPairsComplete(chunk: seq<(nat, Package)>, results: seq<BatchResult>)
    ensures forall i :: 0 <= i < |chunk| && i < |results| && results[i].vulns.Some? && results[i].vulns.value != [] ==>
      (chunk[i].0, results[i].vulns.value) in BatchPairs(chunk, results)
    decreases |results|
  {
    if results != [] {
      var i := |results| - 1;
      var pre := results[..i];
      BatchPairsComplete(chunk, pre);
      var init := BatchPairs(chunk, pre);
      var keep := i < |chunk| && results[i].vulns.Some? && results[i].vulns.value != [];
      var r := BatchPairs(chunk, results);
      assert r == if keep then init + [(chunk[i].0, results[i].vulns.value)] else init;
      forall j | 0 <= j < |chunk| && j < |results| && results[j].vulns.Some? && results[j].vulns.value != []
        ensures (chunk[j].0, results[j].vulns.value) in r
      {
        if j < i {
          assert pre[j] == results[j];
          assert (chunk[j].0, results[j].vulns.value) in init;
        }
      }
    }
  }

  /** The pairs follow the batch's order. */
  lemma {:induction false} BatchPairsOrdered(chunk: seq<(nat, Package)>, results: seq<BatchResult>)
    requires Increasing(chunk)
    ensures Increasing(BatchPairs(chunk, results))
    decreases |results|
  {
    if results != [] {
      var i := |results| - 1;
      var pre := results[..i];
      BatchPairsOrdered(chunk, pre);
      var init := BatchPairs(chunk, pre);
      var keep := i < |chunk| && results[i].vulns.Some? && results[i].vulns.value != [];
      var r := BatchPairs(chunk, results);
      assert r == if keep then init + [(chunk[i].0, results[i].vulns.value)] else init;
      if keep {
        forall k | 0 <= k < |init|
          ensures init[k].0 < chunk[i].0
        {
          var j :| 0 <= j < |chunk| && j < |pre| && init[k].0 == chunk[j].0 && pre[j].vulns == Some(init[k].1) && init[k].1 != [];
        }
        assert Increasing(r);
      }
    }
  }

  /** `batch_query`: nothing to ask for an empty batch; `None` when the request fails. */
  function BatchQuery(chunk: seq<(nat, Package)>, server: seq<Query> -> Option<seq<BatchResult>>): Option<seq<(nat, seq<OsvVuln>)>>
  {
    if chunk == [] then Some([])
    else
      var queries := QueriesOf(chunk);
      if queries == [] then Some([])
      else
        match server(queries)
        case None => None
        case Some(results) => Some(BatchPairs(chunk, results))
  }

  /** Positions below `bound`. */
  predicate InRange(pairs: seq<(nat, seq<OsvVuln>)>, bound: nat)
  {
    forall k :: 0 <= k < |pairs| ==> pairs[k].0 < bound
  }

  lemma BatchQueryInRange(packages: seq<Package>, chunk: seq<(nat, Package)>, server: seq<Query> -> Option<seq<BatchResult>>)
    requires EntriesInRange(chunk, |packages|)
    requires BatchQuery(chunk, server).Some?
    ensures InRange(BatchQuery(chunk, server).value, |packages|)
  {
  }

  /** The records for one package's reported entries, in answer order. */
  function EntryVulns(package: Package, vulns: seq<OsvVuln>): (r: seq<Vulnerability>)
    ensures |r| == |vulns|
    ensures forall k :: 0 <= k < |vulns| ==> r[k] == ToVulnerability(package, vulns[k])
  {
    seq(|vulns|, k requires 0 <= k < |vulns| => ToVulnerability(package, vulns[k]))
  }

  function PairsVulns(packages: seq<Package>, pairs: seq<(nat, seq<OsvVuln>)>): seq<Vulnerability>
    requires InRange(pairs, |packages|)
  {
    if pairs == [] then []
    else PairsVulns(packages, pairs[..|pairs| - 1]) + EntryVulns(packages[pairs[|pairs| - 1].0], pairs[|pairs| - 1].1)
  }

  /** The records from one batch; a failed batch contributes none. */
  function ChunkVulns(packages: seq<Package>, chunk: seq<(nat, Package)>, server: seq<Query> -> Option<seq<BatchResult>>): (r: seq<Vulnerability>)
    requires EntriesInRange(chunk, |packages|)
    ensures BatchQuery(chunk, server).None? ==> r == []
  {
    match BatchQuery(chunk, server)
    case None => []
    case Some(pairs) =>
      BatchQueryInRange(packages, chunk, server);
      PairsVulns(packages, pairs)
  }

  /** Every entry of the chunk points into `packages`. */
  predicate EntriesInRange(chunk: seq<(nat, Package)>, bound: nat)
  {
    forall k :: 0 <= k < |chunk| ==> chunk[k].0 < bound
  }

  function ChunksVulns(packages: seq<Package>, chunks: seq<seq<(nat, Package)>>, server: seq<Query> -> Option<seq<BatchResult>>): seq<Vulnerability>
    requires forall c :: 0 <= c < |chunks| ==> EntriesInRange(chunks[c], |packages|)
  {
    if chunks == [] then []
    else
      var last := |chunks| - 1;
      ChunksVulns(packages, chunks[..last], server) + ChunkVulns(packages, chunks[last], server)
  }

  lemma {:induction false} FlattenMember<T>(ss: seq<seq<T>>, c: nat, k: nat)
    requires c < |ss| && k < |ss[c]|
    ensures ss[c][k] in Flatten(ss)
    decreases c
  {
    if c > 0 {
      FlattenMember(ss[1..], c - 1, k);
    }
  }

  /** The batches of checkable packages, 100 to a batch. */
  function Batches(packages: seq<Package>): (r: seq<seq<(nat, Package)>>)
    ensures Flatten(r) == Checkable(packages)
    ensures forall c :: 0 <= c < |r| ==> EntriesInRange(r[c], |packages|)
  {
    var checkable := Checkable(packages);
    var chunks := Chunks(checkable, BATCH_SIZE);
    ChunksFlatten(checkable, BATCH_SIZE);
    assert forall c, k :: 0 <= c < |chunks| && 0 <= k < |chunks[c]| ==> chunks[c][k].0 < |packages| by {
      forall c, k | 0 <= c < |chunks| && 0 <= k < |chunks[c]|
        ensures chunks[c][k].0 < |packages|
      {
        FlattenMember(chunks, c, k);
      }
    }
    chunks
  }

  /** Every batch entry is a checkable package at its position, and each batch keeps the input order. */
  lemma BatchesSpec(packages: seq<Package>)
    ensures var bs := Batches(packages);
      && (forall c, k :: 0 <= c < |bs| && 0 <= k < |bs[c]| ==>
            packages[bs[c][k].0] == bs[c][k].1 && GetEcosystem(bs[c][k].1.source).Some?)
      && (forall c :: 0 <= c < |bs| ==> bs[c] != [] && Increasing(bs[c]))
  {
    var checkable := Checkable(packages);
    var bs: seq<seq<(nat, Package)>> := Batches(packages);
    forall c: int, k: int | 0 <= c < |bs| && 0 <= k < |bs[c]|
      ensures packages[bs[c][k].0] == bs[c][k].1 && GetEcosystem(bs[c][k].1.source).Some?
    {
      FlattenMember(bs, c, k);
      var m :| 0 <= m < |checkable| && checkable[m] == bs[c][k];
    }
    CheckableComplete(packages);
    ChunksIncreasing(checkable, BATCH_SIZE);
  }

  /** The parts of a list of lists, joined in order. */
  function Joined<T>(parts: seq<seq<T>>): seq<T>
  {
    if parts == [] then [] else Joined(parts[..|parts| - 1]) + parts[|parts| - 1]
  }

  /** An element of one part is an element of the joined parts. */
  lemma {:induction false} JoinedMember<T>(parts: seq<seq<T>>, c: nat, x: T)
    requires c < |parts| && x in parts[c]
    ensures x in Joined(parts)
    decreases |parts|
  {
    var last := |parts| - 1;
    if c < last {
      assert parts[..last][c] == parts[c];
      JoinedMember(parts[..last], c, x);
    }
  }

  /** The records of each batch, batch by batch. */
  function BatchRecords(packages: seq<Package>, chunks: seq<seq<(nat, Package)>>, server: seq<Query> -> Option<seq<BatchResult>>): (r: seq<seq<Vulnerability>>)
    requires forall c :: 0 <= c < |chunks| ==> EntriesInRange(chunks[c], |packages|)
    ensures |r| == |chunks| && forall c :: 0 <= c < |chunks| ==> r[c] == ChunkVulns(packages, chunks[c], server)
  {
    seq(|chunks|, c requires 0 <= c < |chunks| => ChunkVulns(packages, chunks[c], server))
  }

  /** The check's records are the batches' records joined in order. */
  lemma {:induction false} ChunksVulnsJoined(packages: seq<Package>, chunks: seq<seq<(nat, Package)>>, server: seq<Query> -> Option<seq<BatchResult>>)
    requires forall c :: 0 <= c < |chunks| ==> EntriesInRange(chunks[c], |packages|)
    ensures ChunksVulns(packages, chunks, server) == Joined(BatchRecords(packages, chunks, server))
    decreases |chunks|
  {
    if chunks != [] {
      var last := |chunks| - 1;
      ChunksVulnsJoined(packages, chunks[..last], server);
      assert BatchRecords(packages, chunks, server)[..last] == BatchRecords(packages, chunks[..last], server);
    }
  }

  /** A record of one batch is a record of the check. */
  lemma ChunksVulnsMember(packages: seq<Package>, chunks: seq<seq<(nat, Package)>>, c: nat, v: Vulnerability, server: seq<Query> -> Option<seq<BatchResult>>)
    requires forall i :: 0 <= i < |chunks| ==> EntriesInRange(chunks[i], |packages|)
    requires c < |chunks| && v in ChunkVulns(packages, chunks[c], server)
    ensures v in ChunksVulns(packages, chunks, server)
  {
    ChunksVulnsJoined(packages, chunks, server);
    JoinedMember(BatchRecords(packages, chunks, server), c, v);
  }

  /** A record of the check is a record of some batch. */
  lemma {:induction false} ChunksVulnsFrom(packages: seq<Package>, chunks: seq<seq<(nat, Package)>>, v: Vulnerability, server: seq<Query> -> Option<seq<BatchResult>>)
    requires forall i :: 0 <= i < |chunks| ==> EntriesInRange(chunks[i], |packages|)
    requires v in ChunksVulns(packages, chunks, server)
    ensures exists c :: 0 <= c < |chunks| && v in ChunkVulns(packages, chunks[c], server)
    decreases |chunks|
  {
    var last := |chunks| - 1;
    if v !in ChunkVulns(packages, chunks[last], server) {
      ChunksVulnsFrom(packages, chunks[..last], v, server);
      var c :| 0 <= c < last && v in ChunkVulns(packages, chunks[..last][c], server);
      assert chunks[..last][c] == chunks[c];
    }
  }

  /** Each entry of each pair gives its record. */
  lemma {:induction false} PairsVulnsMember(packages: seq<Package>, pairs: seq<(nat, seq<OsvVuln>)>, p: nat, k: nat)
    requires InRange(pairs, |packages|)
    requires p < |pairs| && k < |pairs[p].1|
    ensures ToVulnerability(packages[pairs[p].0], pairs[p].1[k]) in PairsVulns(packages, pairs)
    decreases |pairs|
  {
    var last := |pairs| - 1;
    var init := pairs[..last];
    var tail := EntryVulns(packages[pairs[last].0], pairs[last].1);
    assert PairsVulns(packages, pairs) == PairsVulns(packages, init) + tail;
    if p < last {
      assert init[p] == pairs[p];
      PairsVulnsMember(packages, init, p, k);
    } else {
      assert tail[k] == ToVulnerability(packages[pairs[p].0], pairs[p].1[k]);
    }
  }

  /** Each record of the pairs comes from an entry of a pair. */
  lemma {:induction false} PairsVulnsFrom(packages: seq<Package>, pairs: seq<(nat, seq<OsvVuln>)>, v: Vulnerability)
    requires InRange(pairs, |packages|)
    requires v in PairsVulns(packages, pairs)
    ensures exists p, k :: 0 <= p < |pairs| && 0 <= k < |pairs[p].1| && v == ToVulnerability(packages[pairs[p].0], pairs[p].1[k])
    decreases |pairs|
  {
    var last := |pairs| - 1;
    var tail := EntryVulns(packages[pairs[last].0], pairs[last].1);
    if v in tail {
      var k :| 0 <= k < |tail| && tail[k] == v;
    } else {
      PairsVulnsFrom(packages, pairs[..last], v);
      var p, k :| 0 <= p < last && 0 <= k < |pairs[..last][p].1| && v == ToVulnerability(packages[pairs[..last][p].0], pairs[..last][p].1[k]);
      assert pairs[..last][p] == pairs[p];
    }
  }

  /** A record of one batch comes from an entry of the batch's answer. */
  lemma ChunkVulnsPair(packages: seq<Package>, chunk: seq<(nat, Package)>, server: seq<Query> -> Option<seq<BatchResult>>, v: Vulnerability)
    requires EntriesInRange(chunk, |packages|)
    requires v in ChunkVulns(packages, chunk, server)
    ensures BatchQuery(chunk, server).Some? && InRange(BatchQuery(chunk, server).value, |packages|)
    ensures var pairs := BatchQuery(chunk, server).value;
      exists p, k :: 0 <= p < |pairs| && 0 <= k < |pairs[p].1| && v == ToVulnerability(packages[pairs[p].0], pairs[p].1[k])
  {
    assert BatchQuery(chunk, server).Some?;
    BatchQueryInRange(packages, chunk, server);
    PairsVulnsFrom(packages, BatchQuery(chunk, server).value, v);
  }

  /** Every record of one batch is about a package of the batch. */
  lemma ChunkVulnsFrom(packages: seq<Package>, chunk: seq<(nat, Package)>, server: seq<Query> -> Option<seq<BatchResult>>, v: Vulnerability)
    requires EntriesInRange(chunk, |packages|)
    requires forall k :: 0 <= k < |chunk| ==> packages[chunk[k].0] == chunk[k].1
    requires v in ChunkVulns(packages, chunk, server)
    ensures exists i :: 0 <= i < |chunk| && chunk[i].1.id == v.packageId
  {
    ChunkVulnsPair(packages, chunk, server, v);
    var pairs := BatchQuery(chunk, server).value;
    var p, k :| 0 <= p < |pairs| && 0 <= k < |pairs[p].1| && v == ToVulnerability(packages[pairs[p].0], pairs[p].1[k]);
    assert chunk != [] && QueriesOf(chunk) != [];
    var results := server(QueriesOf(chunk)).value;
    assert pairs == BatchPairs(chunk, results);
    var i :| 0 <= i < |chunk| && i < |results| && pairs[p].0 == chunk[i].0 && results[i].vulns == Some(pairs[p].1) && pairs[p].1 != [];
    assert v.packageId == chunk[i].1.id;
  }

  /** Every record of the check is about a scanned package that has an OSV ecosystem. */
  lemma CheckSpecSound(packages: seq<Package>, server: seq<Query> -> Option<seq<BatchResult>>, v: Vulnerability)
    requires v in CheckSpec(packages, server)
    ensures exists j :: 0 <= j < |packages| && packages[j].id == v.packageId && GetEcosystem(packages[j].source).Some?
  {
    var bs := Batches(packages);
    BatchesSpec(packages);
    ChunksVulnsFrom(packages, bs, v, server);
    var c :| 0 <= c < |bs| && v in ChunkVulns(packages, bs[c], server);
    ChunkVulnsFrom(packages, bs[c], server, v);
    var i :| 0 <= i < |bs[c]| && bs[c][i].1.id == v.packageId;
    assert packages[bs[c][i].0] == bs[c][i].1;
  }

  /** Every entry a batch's answer reports against one of its packages is a record of the batch. */
  lemma ChunkVulnsComplete(packages: seq<Package>, chunk: seq<(nat, Package)>, server: seq<Query> -> Option<seq<BatchResult>>, i: nat, k: nat)
    requires EntriesInRange(chunk, |packages|)
    requires forall j :: 0 <= j < |chunk| ==> packages[chunk[j].0] == chunk[j].1 && GetEcosystem(chunk[j].1.source).Some?
    requires server(QueriesOf(chunk)).Some?
    requires var results := server(QueriesOf(chunk)).value;
      i < |chunk| && i < |results| && results[i].vulns.Some? && k < |results[i].vulns.value|
    ensures var results := server(QueriesOf(chunk)).value;
      ToVulnerability(chunk[i].1, results[i].vulns.value[k]) in ChunkVulns(packages, chunk, server)
  {
    var results := server(QueriesOf(chunk)).value;
    assert QueriesOf(chunk) != [] by {
      assert GetEcosystem(chunk[0].1.source).Some?;
    }
    var pairs := BatchPairs(chunk, results);
    assert BatchQuery(chunk, server) == Some(pairs);
    BatchPairsComplete(chunk, results);
    var vs := results[i].vulns.value;
    var p :| 0 <= p < |pairs| && pairs[p] == (chunk[i].0, vs);
    BatchQueryInRange(packages, chunk, server);
    PairsVulnsMember(packages, pairs, p, k);
  }

  /**
   * Every entry a batch's answer reports against a checkable package becomes a
   * record of the check, for that package.
   */
  lemma CheckSpecComplete(packages: seq<Package>, server: seq<Query> -> Option<seq<BatchResult>>, c: nat, i: nat, k: nat)
    requires c < |Batches(packages)|
    requires server(QueriesOf(Batches(packages)[c])).Some?
    requires var results := server(QueriesOf(Batches(packages)[c])).value;
      i < |Batches(packages)[c]| && i < |results| && results[i].vulns.Some? && k < |results[i].vulns.value|
    ensures var results := server(QueriesOf(Batches(packages)[c])).value;
      ToVulnerability(Batches(packages)[c][i].1, results[i].vulns.value[k]) in CheckSpec(packages, server)
  {
    var bs := Batches(packages);
    BatchesSpec(packages);
    var results := server(QueriesOf(bs[c])).value;
    ChunkVulnsComplete(packages, bs[c], server, i, k);
    ChunksVulnsMember(packages, bs, c, ToVulnerability(bs[c][i].1, results[i].vulns.value[k]), server);
  }

  /** The whole check: the records of every batch, batch by batch. */
  function CheckSpec(packages: seq<Package>, server: seq<Query> -> Option<seq<BatchResult>>): seq<Vulnerability>
  {
    ChunksVulns(packages, Batches(packages), server)
  }

  /** The records of one package's entries, pushed one by one. */
  method PushEntries(acc: seq<Vulnerability>, package: Package, vulns: seq<OsvVuln>) returns (r: seq<Vulnerability>)
    ensures r == acc + EntryVulns(package, vulns)
  {
    r := acc;
    var i := 0;
    while i < |vulns|
      invariant 0 <= i <= |vulns|
      invariant r == acc + EntryVulns(package, vulns[..i])
    {
      assert EntryVulns(package, vulns[..i + 1]) == EntryVulns(package, vulns[..i]) + [ToVulnerability(package, vulns[i])];
      r := r + [ToVulnerability(package, vulns[i])];
      i := i + 1;
    }
    assert vulns[..i] == vulns;
  }

  /** One batch's answers, attached to the packages at their positions. */
  method PushPairs(acc: seq<Vulnerability>, packages: seq<Package>, pairs: seq<(nat, seq<OsvVuln>)>) returns (r: seq<Vulnerability>)
    requires InRange(pairs, |packages|)
    ensures r == acc + PairsVulns(packages, pairs)
  {
    r := acc;
    var j := 0;
    while j < |pairs|
      invariant 0 <= j <= |pairs|
      invariant r == acc + PairsVulns(packages, pairs[..j])
    {
      assert pairs[..j + 1][..j] == pairs[..j];
      var (index, vulns) := pairs[j];
      r := PushEntries(r, packages[index], vulns);
      j := j + 1;
    }
    assert pairs[..j] == pairs;
  }

  /** `check`: queries the checkable packages 100 at a time and skips any batch whose request fails. */
  method Check(packages: seq<Package>, server: seq<Query> -> Option<seq<BatchResult>>) returns (vulnerabilities: seq<Vulnerability>)
    ensures vulnerabilities == CheckSpec(packages, server)
  {
    vulnerabilities := [];
    var chunks := Batches(packages);
    var c := 0;
    while c < |chunks|
      invariant 0 <= c <= |chunks|
      invariant vulnerabilities == ChunksVulns(packages, chunks[..c], server)
    {
      ChunksVulnsStep(packages, chunks, c, server);
      var batch := BatchQuery(chunks[c], server);
      if batch.Some? {
        BatchQueryInRange(packages, chunks[c], server);
        vulnerabilities := PushPairs(vulnerabilities, packages, batch.value);
      }
      c := c + 1;
    }
    assert chunks[..c] == chunks;
  }

  /** One more batch adds its own records behind those of the batches before it. */
  lemma ChunksVulnsStep(packages: seq<Package>, chunks: seq<seq<(nat, Package)>>, c: nat, server: seq<Query> -> Option<seq<BatchResult>>)
    requires c < |chunks| && forall i :: 0 <= i < |chunks| ==> EntriesInRange(chunks[i], |packages|)
    ensures ChunksVulns(packages, chunks[..c + 1], server) == ChunksVulns(packages, chunks[..c], server) + ChunkVulns(packages, chunks[c], server)
    ensures BatchQuery(chunks[c], server).Some? ==>
      InRange(BatchQuery(chunks[c], server).value, |packages|)
      && ChunkVulns(packages, chunks[c], server) == PairsVulns(packages, BatchQuery(chunks[c], server).value)
  {
    assert chunks[..c + 1][..c] == chunks[..c];
    if BatchQuery(chunks[c], server).Some? {
      BatchQueryInRange(packages, chunks[c], server);
    }
  }
}

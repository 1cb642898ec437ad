/**
 * Semantic Versioning 2.0.0: the strict `MAJOR.MINOR.PATCH[-PRE][+BUILD]`
 * grammar of section 2, 9 and 10, and the precedence order of section 11.
 * Build metadata is checked by the parser but plays no part in precedence,
 * so it is not kept.
 */
module SemVer {
  import opened Wrappers
  import opened Str

  const U64_MAX: nat := 0xFFFF_FFFF_FFFF_FFFF

  /** A pre-release identifier: numeric, or alphanumeric with at least one non-digit. */
  datatype Identifier = Num(n: nat) | Alpha(s: string)

  datatype Version = Version(major: nat, minor: nat, patch: nat, pre: seq<Identifier>)

  /** Characters allowed in identifiers: ASCII letters, digits and hyphen. */
  predicate IsIdentChar(ch: char)
  {
    IsAlphanumeric(ch) || ch == '-'
  }

  predicate IsIdentText(t: string)
  {
    t != [] && forall i :: 0 <= i < |t| ==> IsIdentChar(t[i])
  }

  /** `0` or a digit string without a leading zero. */
  predicate IsNumericText(t: string)
  {
    t != [] && AllDigits(t) && (|t| > 1 ==> t[0] != '0')
  }

  /** A major, minor or patch number: numeric text within 64 bits. */
  function ParseNumber(t: string): (r: Option<nat>)
    ensures r.Some? ==> r.value <= U64_MAX
  {
    if IsNumericText(t) && DigitsValue(t) <= U64_MAX then Some(DigitsValue(t)) else None
  }

  /** One pre-release identifier; numeric ones may not have leading zeros. */
  function ParseIdentifier(t: string): Option<Identifier>
  {
    if !IsIdentText(t) then None
    else if AllDigits(t) then (if IsNumericText(t) then Some(Num(DigitsValue(t))) else None)
    else Some(Alpha(t))
  }

  function ParseIdentifiers(parts: seq<string>): (r: Option<seq<Identifier>>)
    ensures r.Some? ==> |r.value| == |parts|
  {
    if parts == [] then Some([])
    else
      match (ParseIdentifier(parts[0]), ParseIdentifiers(parts[1..]))
      case (Some(x), Some(xs)) => Some([x] + xs)
      case _ => None
  }

  predicate ValidBuild(parts: seq<string>)
  {
    forall i :: 0 <= i < |parts| ==> IsIdentText(parts[i])
  }

  /** Parses a version string; anything outside the grammar, including surrounding spaces, is rejected. */
  function Parse(s: string): Option<Version>
  {
    var (main, build) := SplitOnce(s, '+');
    if build.Some? && !ValidBuild(Split(build.value, '.')) then None else ParseMain(main)
  }

  /** The version without its build metadata: the core, then the pre-release after the first `-`. */
  function ParseMain(main: string): Option<Version>
  {
    var (core, pre) := SplitOnce(main, '-');
    match ParseCore(core)
    case None => None
    case Some((x, y, z)) =>
      match pre
      case None => Some(Version(x, y, z, []))
      case Some(p) =>
        match ParseIdentifiers(Split(p, '.'))
        case Some(ids) => Some(Version(x, y, z, ids))
        case None => None
  }

  /** Exactly three dot-separated numbers. */
  function ParseCore(core: string): Option<(nat, nat, nat)>
  {
    var nums := Split(core, '.');
    if |nums| != 3 then None
    else
      match (ParseNumber(nums[0]), ParseNumber(nums[1]), ParseNumber(nums[2]))
      case (Some(x), Some(y), Some(z)) => Some((x, y, z))
      case _ => None
  }

  // ---------------------------------------------------------------------------
  // Precedence (section 11)

  /** Lexicographic order on strings by character code, a proper prefix first. */
  predicate TextLess(a: string, b: string)
    decreases |a|
  {
    b != [] && (a == [] || a[0] < b[0] || (a[0] == b[0] && TextLess(a[1..], b[1..])))
  }

  /** Numeric identifiers by value, below alphanumeric ones, which compare as text. */
  predicate IdentifierLess(a: Identifier, b: Identifier)
  {
    match (a, b)
    case (Num(x), Num(y)) => x < y
    case (Num(_), Alpha(_)) => true
    case (Alpha(_), Num(_)) => false
    case (Alpha(x), Alpha(y)) => TextLess(x, y)
  }

  /** Identifier lists field by field, a proper prefix first. */
  predicate IdentifiersLess(a: seq<Identifier>, b: seq<Identifier>)
    decreases |a|
  {
    b != [] && (a == [] || IdentifierLess(a[0], b[0]) || (a[0] == b[0] && IdentifiersLess(a[1..], b[1..])))
  }

  /** Among equal cores, a pre-release precedes the release. */
  predicate PreLess(a: seq<Identifier>, b: seq<Identifier>)
  {
    a != [] && (b == [] || IdentifiersLess(a, b))
  }

  /** `a` has lower precedence than `b`. */
  predicate Less(a: Version, b: Version)
  {
    a.major < b.major
    || (a.major == b.major && (a.minor < b.minor
    || (a.minor == b.minor && (a.patch < b.patch
    || (a.patch == b.patch && PreLess(a.pre, b.pre))))))
  }

  lemma {:induction false} TextLessIrreflexive(a: string)
    ensures !TextLess(a, a)
    decreases |a|
  {
    if a != [] {
      TextLessIrreflexive(a[1..]);
    }
  }

  lemma {:induction false} TextLessTransitive(a: string, b: string, c: string)
    requires TextLess(a, b) && TextLess(b, c)
    ensures TextLess(a, c)
    decreases |a|
  {
    if a != [] && a[0] == b[0] && b[0] == c[0] {
      TextLessTransitive(a[1..], b[1..], c[1..]);
    }
  }

  lemma {:induction false} TextLessTotal(a: string, b: string)
    ensures a == b || TextLess(a, b) || TextLess(b, a)
    decreases |a|
  {
    if a != [] && b != [] && a[0] == b[0] {
      TextLessTotal(a[1..], b[1..]);
      assert a == [a[0]] + a[1..] && b == [b[0]] + b[1..];
    }
  }

  lemma IdentifierLessIrreflexive(a: Identifier)
    ensures !IdentifierLess(a, a)
  {
    if a.Alpha? {
      TextLessIrreflexive(a.s);
    }
  }

  lemma IdentifierLessTransitive(a: Identifier, b: Identifier, c: Identifier)
    requires IdentifierLess(a, b) && IdentifierLess(b, c)
    ensures IdentifierLess(a, c)
  {
    if a.Alpha? && b.Alpha? && c.Alpha? {
      TextLessTransitive(a.s, b.s, c.s);
    }
  }

  lemma IdentifierLessTotal(a: Identifier, b: Identifier)
    ensures a == b || IdentifierLess(a, b) || IdentifierLess(b, a)
  {
    if a.Alpha? && b.Alpha? {
      TextLessTotal(a.s, b.s);
    }
  }

  lemma {:induction false} IdentifiersLessIrreflexive(a: seq<Identifier>)
    ensures !IdentifiersLess(a, a)
    decreases |a|
  {
    if a != [] {
      IdentifierLessIrreflexive(a[0]);
      IdentifiersLessIrreflexive(a[1..]);
    }
  }

  lemma {:induction false} IdentifiersLessTransitive(a: seq<Identifier>, b: seq<Identifier>, c: seq<Identifier>)
    requires IdentifiersLess(a, b) && IdentifiersLess(b, c)
    ensures IdentifiersLess(a, c)
    decreases |a|
  {
    if a != [] {
      if IdentifierLess(a[0], b[0]) && IdentifierLess(b[0], c[0]) {
        IdentifierLessTransitive(a[0], b[0], c[0]);
      } else if a[0] == b[0] && b[0] == c[0] {
        IdentifiersLessTransitive(a[1..], b[1..], c[1..]);
      }
    }
  }

  lemma {:induction false} IdentifiersLessTotal(a: seq<Identifier>, b: seq<Identifier>)
    ensures a == b || IdentifiersLess(a, b) || IdentifiersLess(b, a)
    decreases |a|
  {
    if a != [] && b != [] {
      IdentifierLessTotal(a[0], b[0]);
      if a[0] == b[0] {
        IdentifiersLessTotal(a[1..], b[1..]);
        assert a == [a[0]] + a[1..] && b == [b[0]] + b[1..];
      }
    }
  }

  /** Precedence is a strict order ... */
  lemma LessIrreflexive(a: Version)
    ensures !Less(a, a)
  {
    IdentifiersLessIrreflexive(a.pre);
  }

  lemma LessTransitive(a: Version, b: Version, c: Version)
    requires Less(a, b) && Less(b, c)
    ensures Less(a, c)
  {
    if a.pre != [] && b.pre != [] && c.pre != [] && IdentifiersLess(a.pre, b.pre) && IdentifiersLess(b.pre, c.pre) {
      IdentifiersLessTransitive(a.pre, b.pre, c.pre);
    }
  }

  /** ... and a total one: any two distinct versions are ordered one way or the other. */
  lemma LessTotal(a: Version, b: Version)
    ensures a == b || Less(a, b) || Less(b, a)
  {
    IdentifiersLessTotal(a.pre, b.pre);
  }

  lemma LessAsymmetric(a: Version, b: Version)
    requires Less(a, b)
    ensures !Less(b, a)
  {
    if Less(b, a) {
      LessTransitive(a, b, a);
      LessIrreflexive(a);
    }
  }

  /** A release outranks each of its pre-releases. */
  lemma ReleaseOutranksPrerelease(v: Version)
    requires v.pre != []
    ensures Less(v, v.(pre := []))
  {
  }

  // ---------------------------------------------------------------------------
  // Formatting, the partner of parsing

  function FormatIdentifier(x: Identifier): string
  {
    match x
    case Num(n) => NatToString(n)
    case Alpha(t) => t
  }

  function FormatIdentifiers(ids: seq<Identifier>): (r: seq<string>)
    ensures |r| == |ids|
    ensures forall i :: 0 <= i < |ids| ==> r[i] == FormatIdentifier(ids[i])
  {
    if ids == [] then [] else [FormatIdentifier(ids[0])] + FormatIdentifiers(ids[1..])
  }

  function CoreText(x: nat, y: nat, z: nat): string
  {
    NatToString(x) + "." + NatToString(y) + "." + NatToString(z)
  }

  /** `MAJOR.MINOR.PATCH`, then `-` and the dot-joined identifiers when there are any. */
  function Format(v: Version): string
  {
    var core := CoreText(v.major, v.minor, v.patch);
    if v.pre == [] then core else core + "-" + Join(FormatIdentifiers(v.pre), '.')
  }

  /** A version the grammar can express: 64-bit numbers and well-formed alphanumeric identifiers. */
  predicate WellFormed(v: Version)
  {
    v.major <= U64_MAX && v.minor <= U64_MAX && v.patch <= U64_MAX
    && forall i :: 0 <= i < |v.pre| ==> WellFormedIdentifier(v.pre[i])
  }

  predicate WellFormedIdentifier(x: Identifier)
  {
    match x
    case Num(_) => true
    case Alpha(t) => IsIdentText(t) && !AllDigits(t)
  }

  lemma NumericTextOf(n: nat)
    ensures IsNumericText(NatToString(n)) && DigitsValue(NatToString(n)) == n
    ensures '.' !in NatToString(n) && '-' !in NatToString(n) && '+' !in NatToString(n)
  {
    NatToStringDigits(n);
  }

  lemma ParseIdentifierFormat(x: Identifier)
    requires WellFormedIdentifier(x)
    ensures ParseIdentifier(FormatIdentifier(x)) == Some(x)
    ensures '.' !in FormatIdentifier(x) && '+' !in FormatIdentifier(x)
  {
    match x
    case Num(n) =>
      NumericTextOf(n);
      var t := NatToString(n);
      assert forall i :: 0 <= i < |t| ==> IsIdentChar(t[i]);
    case Alpha(t) =>
      assert forall i :: 0 <= i < |t| ==> t[i] != '.' && t[i] != '+';
  }

  lemma {:induction false} ParseIdentifiersFormat(ids: seq<Identifier>)
    requires forall i :: 0 <= i < |ids| ==> WellFormedIdentifier(ids[i])
    ensures ParseIdentifiers(FormatIdentifiers(ids)) == Some(ids)
    decreases |ids|
  {
    if ids != [] {
      var fs := FormatIdentifiers(ids);
      var rest := ids[1..];
      assert fs == [FormatIdentifier(ids[0])] + FormatIdentifiers(rest);
      ParseIdentifierFormat(ids[0]);
      WellFormedTail(ids);
      ParseIdentifiersFormat(rest);
      ParseIdentifiersCons(FormatIdentifier(ids[0]), FormatIdentifiers(rest), ids[0], rest);
      assert [ids[0]] + rest == ids;
    }
  }

  lemma WellFormedTail(ids: seq<Identifier>)
    requires ids != [] && forall i :: 0 <= i < |ids| ==> WellFormedIdentifier(ids[i])
    ensures forall i :: 0 <= i < |ids[1..]| ==> WellFormedIdentifier(ids[1..][i])
  {
    forall i | 0 <= i < |ids[1..]|
      ensures WellFormedIdentifier(ids[1..][i])
    {
      assert ids[1..][i] == ids[i + 1];
    }
  }

  lemma ParseIdentifiersCons(t: string, parts: seq<string>, x: Identifier, xs: seq<Identifier>)
    requires ParseIdentifier(t) == Some(x) && ParseIdentifiers(parts) == Some(xs)
    ensures ParseIdentifiers([t] + parts) == Some([x] + xs)
  {
    var ps := [t] + parts;
    assert ps[0] == t && ps[1..] == parts;
  }

  lemma {:induction false} JoinFree(parts: seq<string>, c: char, d: char)
    requires forall i :: 0 <= i < |parts| ==> d !in parts[i]
    requires c != d
    ensures d !in Join(parts, c)
    decreases |parts|
  {
    if |parts| > 1 {
      JoinFree(parts[1..], c, d);
    }
  }

  lemma ParseCoreText(x: nat, y: nat, z: nat)
    requires x <= U64_MAX && y <= U64_MAX && z <= U64_MAX
    ensures ParseCore(CoreText(x, y, z)) == Some((x, y, z))
    ensures '-' !in CoreText(x, y, z) && '+' !in CoreText(x, y, z)
  {
    var a, b, c := NatToString(x), NatToString(y), NatToString(z);
    NumericTextOf(x);
    NumericTextOf(y);
    NumericTextOf(z);
    assert [a, b, c][1..] == [b, c] && [b, c][1..] == [c];
    assert Join([b, c], '.') == b + "." + c;
    assert CoreText(x, y, z) == a + "." + (b + "." + c);
    assert CoreText(x, y, z) == Join([a, b, c], '.');
    JoinSplit([a, b, c], '.');
  }

  /** The pre-release text: no `+`, and it splits back into the formatted identifiers. */
  lemma PreText(ids: seq<Identifier>)
    requires ids != []
    requires forall i :: 0 <= i < |ids| ==> WellFormedIdentifier(ids[i])
    ensures '+' !in Join(FormatIdentifiers(ids), '.')
    ensures ParseIdentifiers(Split(Join(FormatIdentifiers(ids), '.'), '.')) == Some(ids)
  {
    var parts := FormatIdentifiers(ids);
    forall i | 0 <= i < |parts|
      ensures '.' !in parts[i] && '+' !in parts[i]
    {
      ParseIdentifierFormat(ids[i]);
    }
    JoinFree(parts, '.', '+');
    JoinSplit(parts, '.');
    ParseIdentifiersFormat(ids);
  }

  lemma ParseMainFormat(v: Version)
    requires WellFormed(v)
    ensures ParseMain(Format(v)) == Some(v)
    ensures '+' !in Format(v)
  {
    var core := CoreText(v.major, v.minor, v.patch);
    ParseCoreText(v.major, v.minor, v.patch);
    if v.pre == [] {
      SplitOnceAbsent(core, '-');
    } else {
      var pre := Join(FormatIdentifiers(v.pre), '.');
      PreText(v.pre);
      assert Format(v) == core + ['-'] + pre;
      SplitOnceAt(core, '-', pre);
    }
  }

  /** Parsing a formatted well-formed version gives it back. */
  lemma ParseFormat(v: Version)
    requires WellFormed(v)
    ensures Parse(Format(v)) == Some(v)
  {
    ParseMainFormat(v);
    SplitOnceAbsent(Format(v), '+');
  }

  /** What parses is well formed, so precedence and formatting apply to it. */
  lemma ParseWellFormed(s: string)
    requires Parse(s).Some?
    ensures WellFormed(Parse(s).value)
  {
    var (main, build) := SplitOnce(s, '+');
    var (core, pre) := SplitOnce(main, '-');
    if pre.Some? && ParseCore(core).Some? {
      ParseIdentifiersWellFormed(Split(pre.value, '.'));
    }
  }

  lemma {:induction false} ParseIdentifiersWellFormed(parts: seq<string>)
    requires ParseIdentifiers(parts).Some?
    ensures forall i :: 0 <= i < |parts| ==> WellFormedIdentifier(ParseIdentifiers(parts).value[i])
    decreases |parts|
  {
    if parts != [] {
      ParseIdentifiersWellFormed(parts[1..]);
      var ids := ParseIdentifiers(parts).value;
      assert ids[1..] == ParseIdentifiers(parts[1..]).value;
    }
  }
}

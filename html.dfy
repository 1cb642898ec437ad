/**
 * The HTML report: escaping of every text cell, the CSS classes chosen for
 * the health score, the update kind and the severity, the version cell and
 * the number of distinct sources. The report's health score, update
 * classification and severity order are the same code as the terminal
 * report's and use the members of the Cli module; the page template and the
 * string buffer it is written into are left out.
 */
module Html {
  import opened Wrappers
  import opened Str
  import opened Model
  import Cli

  // ---------------------------------------------------------------------------
  // Escaping

  /** `s.replace(c, rep)` for a single character. */
  function ReplaceChar(s: string, c: char, rep: string): string
  {
    if s == [] then [] else (if s[0] == c then rep else [s[0]]) + ReplaceChar(s[1..], c, rep)
  }

  /** `html_escape`: four passes, `&` first so that no entity is escaped twice. */
  function HtmlEscape(s: string): string
  {
    ReplaceChar(ReplaceChar(ReplaceChar(ReplaceChar(s, '&', "&amp;"), '<', "&lt;"), '>', "&gt;"), '"', "&quot;")
  }

  /** Reference definition: one character at a time. */
  function EscapeChar(ch: char): string
  {
    if ch == '&' then "&amp;"
    else if ch == '<' then "&lt;"
    else if ch == '>' then "&gt;"
    else if ch == '"' then "&quot;"
    else [ch]
  }

  function EscapeEach(s: string): string
  {
    if s == [] then [] else EscapeChar(s[0]) + EscapeEach(s[1..])
  }

  lemma {:induction false} ReplaceCharAppend(a: string, b: string, c: char, rep: string)
    ensures ReplaceChar(a + b, c, rep) == ReplaceChar(a, c, rep) + ReplaceChar(b, c, rep)
    decreases |a|
  {
    if a != [] {
      assert (a + b)[1..] == a[1..] + b;
      ReplaceCharAppend(a[1..], b, c, rep);
    } else {
      assert a + b == b;
    }
  }

  lemma HtmlEscapeAppend(a: string, b: string)
    ensures HtmlEscape(a + b) == HtmlEscape(a) + HtmlEscape(b)
  {
    var a1, b1 := ReplaceChar(a, '&', "&amp;"), ReplaceChar(b, '&', "&amp;");
    var a2, b2 := ReplaceChar(a1, '<', "&lt;"), ReplaceChar(b1, '<', "&lt;");
    var a3, b3 := ReplaceChar(a2, '>', "&gt;"), ReplaceChar(b2, '>', "&gt;");
    ReplaceCharAppend(a, b, '&', "&amp;");
    ReplaceCharAppend(a1, b1, '<', "&lt;");
    ReplaceCharAppend(a2, b2, '>', "&gt;");
    ReplaceCharAppend(a3, b3, '"', "&quot;");
  }

  lemma ReplaceCharSingle(ch: char, c: char, rep: string)
    ensures ReplaceChar([ch], c, rep) == if ch == c then rep else [ch]
  {
    assert [ch][1..] == [];
  }

  /** A text free of `c` is left alone. */
  lemma {:induction false} ReplaceCharAbsent(s: string, c: char, rep: string)
    requires c !in s
    ensures ReplaceChar(s, c, rep) == s
    decreases |s|
  {
    if s != [] {
      ReplaceCharAbsent(s[1..], c, rep);
    }
  }

  lemma HtmlEscapeChar(ch: char)
    ensures HtmlEscape([ch]) == EscapeChar(ch)
  {
    var p1 := ReplaceChar([ch], '&', "&amp;");
    ReplaceCharSingle(ch, '&', "&amp;");
    if ch == '&' {
      LastThreePasses("&amp;");
    } else {
      assert p1 == [ch];
      ReplaceCharSingle(ch, '<', "&lt;");
      if ch == '<' {
        LastTwoPasses("&lt;");
      } else {
        ReplaceCharSingle(ch, '>', "&gt;");
        if ch == '>' {
          ReplaceCharAbsent("&gt;", '"', "&quot;");
        } else {
          ReplaceCharSingle(ch, '"', "&quot;");
        }
      }
    }
  }

  /** An entity without `<`, `>` and `"` passes the last three replacements unchanged. */
  lemma LastThreePasses(x: string)
    requires '<' !in x && '>' !in x && '"' !in x
    ensures ReplaceChar(ReplaceChar(ReplaceChar(x, '<', "&lt;"), '>', "&gt;"), '"', "&quot;") == x
  {
    ReplaceCharAbsent(x, '<', "&lt;");
    LastTwoPasses(x);
  }

  /** An entity without `>` and `"` passes the last two replacements unchanged. */
  lemma LastTwoPasses(x: string)
    requires '>' !in x && '"' !in x
    ensures ReplaceChar(ReplaceChar(x, '>', "&gt;"), '"', "&quot;") == x
  {
    ReplaceCharAbsent(x, '>', "&gt;");
    ReplaceCharAbsent(x, '"', "&quot;");
  }

  /** The four passes escape each character on its own. */
  lemma {:induction false} HtmlEscapeEach(s: string)
    ensures HtmlEscape(s) == EscapeEach(s)
    decreases |s|
  {
    if s != [] {
      assert s == [s[0]] + s[1..];
      HtmlEscapeAppend([s[0]], s[1..]);
      HtmlEscapeChar(s[0]);
      HtmlEscapeEach(s[1..]);
    } else {
      assert HtmlEscape([]) == [];
    }
  }

  predicate NoMarkup(s: string)
  {
    forall i :: 0 <= i < |s| ==> s[i] != '<' && s[i] != '>' && s[i] != '"'
  }

  lemma {:induction false} EscapeEachSpec(s: string)
    ensures NoMarkup(EscapeEach(s))
    ensures |EscapeEach(s)| == |s| + 4 * CountChar(s, '&') + 3 * CountChar(s, '<') + 3 * CountChar(s, '>') + 5 * CountChar(s, '"')
    decreases |s|
  {
    if s != [] {
      EscapeEachSpec(s[1..]);
      EscapeCharSpec(s[0]);
      NoMarkupAppend(EscapeChar(s[0]), EscapeEach(s[1..]));
    }
  }

  /** The escape of one character holds no markup and has the length of its entity. */
  lemma EscapeCharSpec(ch: char)
    ensures NoMarkup(EscapeChar(ch))
    ensures |EscapeChar(ch)| == 1 + 4 * (if ch == '&' then 1 else 0) + 3 * (if ch == '<' then 1 else 0)
      + 3 * (if ch == '>' then 1 else 0) + 5 * (if ch == '"' then 1 else 0)
  {
  }

  lemma NoMarkupAppend(a: string, b: string)
    requires NoMarkup(a) && NoMarkup(b)
    ensures NoMarkup(a + b)
  {
    assert forall i :: |a| <= i < |a + b| ==> (a + b)[i] == b[i - |a|];
  }

  /**
   * The escaped text holds no `<`, `>` or `"`, and is longer by 4 per `&`,
   * 3 per `<` or `>` and 5 per `"`.
   */
  lemma HtmlEscapeSpec(s: string)
    ensures NoMarkup(HtmlEscape(s))
    ensures |HtmlEscape(s)| == |s| + 4 * CountChar(s, '&') + 3 * CountChar(s, '<') + 3 * CountChar(s, '>') + 5 * CountChar(s, '"')
  {
    HtmlEscapeEach(s);
    EscapeEachSpec(s);
  }

  /** A text without any of the four characters is unchanged. */
  lemma HtmlEscapePlain(s: string)
    requires '&' !in s && '<' !in s && '>' !in s && '"' !in s
    ensures HtmlEscape(s) == s
  {
    ReplaceCharAbsent(s, '&', "&amp;");
    ReplaceCharAbsent(s, '<', "&lt;");
    ReplaceCharAbsent(s, '>', "&gt;");
    ReplaceCharAbsent(s, '"', "&quot;");
  }

  /** Reading the four entities back. */
  function Unescape(t: string): string
    decreases |t|
  {
    if t == [] then []
    else if StartsWith(t, "&amp;") then "&" + Unescape(t[5..])
    else if StartsWith(t, "&lt;") then "<" + Unescape(t[4..])
    else if StartsWith(t, "&gt;") then ">" + Unescape(t[4..])
    else if StartsWith(t, "&quot;") then "\"" + Unescape(t[6..])
    else [t[0]] + Unescape(t[1..])
  }

  lemma StartsWithOwn(e: string, t: string)
    ensures StartsWith(e + t, e)
  {
    StartsWithIff(e + t, e);
    assert (e + t)[..|e|] == e;
  }

  /** Escaping loses nothing: the escaped text reads back to the input. */
  lemma {:induction false} UnescapeEscape(s: string)
    ensures Unescape(HtmlEscape(s)) == s
  {
    HtmlEscapeEach(s);
    UnescapeEach(s);
  }

  /** One escaped character reads back to itself. */
  lemma UnescapeStep(c: char, t: string)
    ensures Unescape(EscapeChar(c) + t) == [c] + Unescape(t)
  {
    var e := EscapeChar(c);
    var et := e + t;
    StartsWithOwn(e, t);
    if c == '&' {
      assert et[5..] == t;
    } else if c == '<' {
      assert et[4..] == t;
    } else if c == '>' {
      assert et[4..] == t;
    } else if c == '"' {
      assert et[6..] == t;
    } else {
      PlainStep(c, t);
    }
  }

  lemma PlainStep(c: char, t: string)
    requires c != '&' && c != '<' && c != '>' && c != '"'
    ensures Unescape([c] + t) == [c] + Unescape(t)
  {
    var et := [c] + t;
    StartsWithIff(et, "&amp;");
    StartsWithIff(et, "&lt;");
    StartsWithIff(et, "&gt;");
    StartsWithIff(et, "&quot;");
    assert et[0] == c;
    assert et[1..] == t;
  }

  lemma {:induction false} UnescapeEach(s: string)
    ensures Unescape(EscapeEach(s)) == s
    decreases |s|
  {
    if s != [] {
      UnescapeEach(s[1..]);
      UnescapeStep(s[0], EscapeEach(s[1..]));
      assert s == [s[0]] + s[1..];
    }
  }

  // ---------------------------------------------------------------------------
  // Classes and cells

  /** The class of the health-score card. */
  function HealthClass(score: nat): string
  {
    if 90 <= score <= 100 then "health-excellent"
    else if 70 <= score <= 89 then "health-good"
    else if 50 <= score <= 69 then "health-fair"
    else if 25 <= score <= 49 then "health-poor"
    else "health-critical"
  }

  function IndicatorClass(indicator: string): string
  {
    if indicator == "[Excellent]" then "health-excellent"
    else if indicator == "[Good]" then "health-good"
    else if indicator == "[Fair]" then "health-fair"
    else if indicator == "[Poor]" then "health-poor"
    else "health-critical"
  }

  /** The card's class and the terminal's indicator use the same bands. */
  lemma HealthClassMatchesIndicator(score: nat)
    ensures HealthClass(score) == IndicatorClass(Cli.HealthIndicator(score))
  {
  }

  /** The class of an update-kind cell. */
  function UpdateClass(kind: string): string
  {
    if kind == "MAJOR" then "update-major"
    else if kind == "minor" then "update-minor"
    else "update-patch"
  }

  /** A row is styled major exactly for a major update, and minor exactly when the terminal says minor. */
  lemma UpdateClassSpec(current: string, latest: string)
    ensures UpdateClass(Cli.ClassifyUpdate(current, latest)) == "update-major" <==> Cli.IsMajorUpdate(current, latest)
    ensures UpdateClass(Cli.ClassifyUpdate(current, latest)) == "update-minor" <==> Cli.ClassifyUpdate(current, latest) == "minor"
  {
    Cli.ClassifyMajorIff(current, latest);
  }

  /** The class of a severity cell; unknown gets none. */
  function SeverityClass(s: Severity): (r: string)
    ensures r == "" <==> s == Unknown
  {
    match s
    case Critical => "severity-critical"
    case High => "severity-high"
    case Medium => "severity-medium"
    case Low => "severity-low"
    case Unknown => ""
  }

  /** The version cell: "-" for an unknown version, otherwise the escaped version. */
  function VersionCell(v: string): (r: string)
    ensures v == "unknown" ==> r == "-"
  {
    if v == "unknown" then "-" else HtmlEscape(v)
  }

  /** The cell agrees with the terminal's version column on every version without markup characters. */
  lemma VersionCellMatchesCli(v: string)
    requires '&' !in v && '<' !in v && '>' !in v && '"' !in v
    ensures VersionCell(v) == Cli.FormatVersion(v)
  {
    if v != "unknown" {
      HtmlEscapePlain(v);
    }
  }

  /** The fixed-in cell: the escaped version, or "-". */
  function FixedCell(fixed: Option<string>): (r: string)
    ensures fixed.None? ==> r == "-"
    ensures fixed.Some? ==> NoMarkup(r)
  {
    match fixed
    case None => "-"
    case Some(v) => HtmlEscapeSpec(v); HtmlEscape(v)
  }

  // ---------------------------------------------------------------------------
  // Distinct sources

  function SourcesOf(packages: seq<Package>): set<Source>
  {
    set i | 0 <= i < |packages| :: packages[i].source
  }

  /** `count_sources`: the size of the set of sources. */
  function CountSources(packages: seq<Package>): nat
  {
    |SourcesOf(packages)|
  }

  /** Reference definition: the packages whose source no earlier package has. */
  function FirstOfSource(packages: seq<Package>): nat
  {
    if packages == [] then 0
    else
      var init := packages[..|packages| - 1];
      FirstOfSource(init) + (if packages[|packages| - 1].source in SourcesOf(init) then 0 else 1)
  }

  lemma SourcesOfAppend(init: seq<Package>, p: Package)
    ensures SourcesOf(init + [p]) == SourcesOf(init) + {p.source}
  {
    var ps := init + [p];
    assert ps[|init|] == p;
    forall s | s in SourcesOf(ps)
      ensures s in SourcesOf(init) + {p.source}
    {
      var i :| 0 <= i < |ps| && ps[i].source == s;
      if i < |init| {
        assert ps[i] == init[i];
      }
    }
    forall s | s in SourcesOf(init)
      ensures s in SourcesOf(ps)
    {
      var i :| 0 <= i < |init| && init[i].source == s;
      assert ps[i] == init[i];
    }
  }

  /** The count is the number of packages that introduce a new source: at most one per package, and none only for no packages. */
  lemma {:induction false} CountSourcesSpec(packages: seq<Package>)
    ensures CountSources(packages) == FirstOfSource(packages)
    ensures CountSources(packages) <= |packages|
    ensures CountSources(packages) == 0 <==> packages == []
  {
    if packages != [] {
      var init := packages[..|packages| - 1];
      var p := packages[|packages| - 1];
      CountSourcesSpec(init);
      assert packages == init + [p];
      SourcesOfAppend(init, p);
      if p.source !in SourcesOf(init) {
        assert |SourcesOf(init) + {p.source}| == |SourcesOf(init)| + 1;
      } else {
        assert SourcesOf(init) + {p.source} == SourcesOf(init);
      }
    } else {
      assert SourcesOf(packages) == {};
    }
  }
}

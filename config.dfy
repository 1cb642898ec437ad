/**
 * The configuration file's logic: the default configuration, the ignore
 * lists and the `*` wildcard matching they use for package identifiers.
 *
 * `GlobSpec` says declaratively when a pattern matches (the text before the
 * first `*` is a prefix, the text after the last `*` a suffix, and the middle
 * pieces appear in order, without overlapping, in what lies between);
 * `GlobMatch` is the scanner's greedy left-to-right loop and is proved to
 * compute exactly `GlobSpec`.
 */
module Config {
  import opened Wrappers
  import opened Str
  import opened Model

  // ----- Wildcard patterns -----

  /** The pieces `ms` occur in `t` one after another, each after the end of the previous one. */
  ghost predicate InOrder(ms: seq<string>, t: string)
    decreases |ms|
  {
    ms == [] || exists i :: OccursAt(t, ms[0], i) && InOrder(ms[1..], t[i + |ms[0]|..])
  }

  /** What a wildcard pattern means: literal prefix, literal suffix, middle pieces in order. */
  ghost predicate GlobSpec(pattern: string, text: string)
  {
    var parts := Split(pattern, '*');
    if |parts| == 1 then pattern == text else PiecesMatch(parts, text)
  }

  /** The pieces of a pattern holding a `*`: the first starts the text, the last ends it, the rest lie between in order. */
  ghost predicate PiecesMatch(parts: seq<string>, text: string)
    requires |parts| >= 2
  {
    var first := parts[0];
    var last := parts[|parts| - 1];
    |first| + |last| <= |text| && StartsWith(text, first) && EndsWith(text, last)
    && InOrder(parts[1..|parts| - 1], text[|first|..|text| - |last|])
  }

  /** The greedy search: each piece is taken at its leftmost occurrence in what is left. */
  function Greedy(ms: seq<string>, t: string): bool
    decreases |ms|
  {
    if ms == [] then true
    else
      match Find(t, ms[0])
      case None => false
      case Some(pos) =>
        FindLeftmost(t, ms[0]);
        Greedy(ms[1..], t[pos + |ms[0]|..])
  }

  /** Pieces found in order in a suffix of `t` are found in order in `t`. */
  lemma {:induction false} InOrderSuffix(ms: seq<string>, t: string, k: nat)
    requires k <= |t|
    requires InOrder(ms, t[k..])
    ensures InOrder(ms, t)
  {
    if ms != [] {
      var i :| OccursAt(t[k..], ms[0], i) && InOrder(ms[1..], t[k..][i + |ms[0]|..]);
      assert t[k..][i..i + |ms[0]|] == t[k + i..k + i + |ms[0]|];
      assert OccursAt(t, ms[0], k + i);
      assert t[k..][i + |ms[0]|..] == t[k + i + |ms[0]|..];
    }
  }

  /** Taking the leftmost occurrence never loses a match: greedy search decides `InOrder`. */
  lemma {:induction false} GreedyIff(ms: seq<string>, t: string)
    ensures Greedy(ms, t) <==> InOrder(ms, t)
    decreases |ms|
  {
    if ms != [] {
      var m := ms[0];
      FindLeftmost(t, m);
      match Find(t, m)
      case None =>
      case Some(pos) =>
        GreedyIff(ms[1..], t[pos + |m|..]);
        if InOrder(ms, t) {
          var i :| OccursAt(t, m, i) && InOrder(ms[1..], t[i + |m|..]);
          assert pos <= i;
          assert t[pos + |m|..][i - pos..] == t[i + |m|..];
          InOrderSuffix(ms[1..], t[pos + |m|..], i - pos);
        }
    }
  }

  /** An empty piece is found at the start of anything. */
  lemma FindEmpty(t: string)
    ensures Find(t, []) == Some(0)
  {
  }

  /** The loop over the middle pieces: greedy search, an empty piece being skipped. */
  method MatchMiddle(mids: seq<string>, text: string) returns (b: bool)
    ensures b == Greedy(mids, text)
  {
    var remaining := text;
    for j := 0 to |mids|
      invariant Greedy(mids, text) == Greedy(mids[j..], remaining)
    {
      var part := mids[j];
      assert mids[j..][1..] == mids[j + 1..];
      if part == [] {
        FindEmpty(remaining);
        assert remaining[0..] == remaining;
        continue;
      }
      match Find(remaining, part)
      case Some(pos) =>
        FindLeftmost(remaining, part);
        remaining := remaining[pos + |part|..];
      case None =>
        return false;
    }
    return true;
  }

  /** The prefix and suffix checks, each skipped when its piece is empty; on success, what lies between them. */
  method StripEnds(first: string, last: string, text: string) returns (core: Option<string>)
    ensures core.Some? <==> |first| + |last| <= |text| && StartsWith(text, first) && EndsWith(text, last)
    ensures core.Some? ==> core.value == text[|first|..|text| - |last|]
  {
    StartsWithIff(text, first);
    var remaining := text;
    if first != [] {
      if !StartsWith(remaining, first) {
        return None;
      }
      remaining := remaining[|first|..];
    }
    assert remaining == text[|first|..];
    SuffixOfRest(text, first, last);
    if last != [] {
      if !EndsWith(remaining, last) {
        return None;
      }
      remaining := remaining[..|remaining| - |last|];
    }
    return Some(remaining);
  }

  /** After the prefix is removed, the suffix check on the rest is the suffix check on the whole text, with room for both. */
  lemma SuffixOfRest(text: string, first: string, last: string)
    requires |first| <= |text| && StartsWith(text, first)
    ensures var rest := text[|first|..];
      && (EndsWith(rest, last) <==> |first| + |last| <= |text| && EndsWith(text, last))
      && (EndsWith(rest, last) ==> rest[..|rest| - |last|] == text[|first|..|text| - |last|])
  {
    StartsWithIff(text, first);
    var rest := text[|first|..];
    EndsWithIff(rest, last);
    EndsWithIff(text, last);
    if |last| <= |rest| {
      assert text[|text| - |last|..] == rest[|rest| - |last|..];
    }
  }

  /** `glob_match`: prefix, then suffix, then the middle pieces greedily, skipping empty ones. */
  method GlobMatch(pattern: string, text: string) returns (b: bool)
    ensures b == GlobSpec(pattern, text)
  {
    var parts := Split(pattern, '*');
    if |parts| == 1 {
      return pattern == text;
    }
    var core := StripEnds(parts[0], parts[|parts| - 1], text);
    if core.None? {
      return false;
    }
    var mids := parts[1..|parts| - 1];
    GreedyIff(mids, core.value);
    b := MatchMiddle(mids, core.value);
  }

  /** A pattern without `*` matches only itself. */
  lemma GlobNoStar(pattern: string, text: string)
    requires '*' !in pattern
    ensures GlobSpec(pattern, text) <==> pattern == text
  {
    SplitNoSeparator(pattern, '*');
  }

  /** `*` alone matches every identifier. */
  lemma GlobStarAll(text: string)
    ensures GlobSpec("*", text)
  {
    SplitAt([], '*', []);
    assert [] + ['*'] + [] == "*";
    StartsWithIff(text, []);
    EndsWithIff(text, []);
  }

  /** `p*`: exactly the identifiers starting with `p` (as in the patterns for lodash and the types scope). */
  lemma GlobPrefix(p: string, text: string)
    requires '*' !in p
    ensures GlobSpec(p + "*", text) <==> StartsWith(text, p)
  {
    SplitAt(p, '*', []);
    assert p + ['*'] + [] == p + "*";
    StartsWithIff(text, p);
    EndsWithIff(text, []);
  }

  /** `*p`: exactly the identifiers ending with `p` (as in "*-cli"). */
  lemma GlobSuffix(p: string, text: string)
    requires '*' !in p
    ensures GlobSpec("*" + p, text) <==> EndsWith(text, p)
  {
    SplitAt([], '*', p);
    SplitNoSeparator(p, '*');
    assert [] + ['*'] + p == "*" + p;
    StartsWithIff(text, []);
    EndsWithIff(text, p);
    if |p| <= |text| {
      assert text[0..|text| - |p|] == text[..|text| - |p|];
    }
  }

  /** `*p*`: exactly the identifiers containing `p` (as in "*lodash*"). */
  lemma GlobInfix(p: string, text: string)
    requires '*' !in p
    ensures GlobSpec("*" + p + "*", text) <==> Contains(text, p)
  {
    SplitAt(p, '*', []);
    SplitAt([], '*', p + "*");
    assert [] + ['*'] + (p + "*") == "*" + p + "*";
    assert p + ['*'] + [] == p + "*";
    var parts := Split("*" + p + "*", '*');
    assert parts == [[], p, []];
    assert parts[1..|parts| - 1] == [p];
    StartsWithIff(text, []);
    EndsWithIff(text, []);
    assert text[0..|text| - 0] == text;
    ContainsIff(text, p);
    var core := text[0..|text| - 0];
    assert core == text;
    if Contains(text, p) {
      var i :| OccursAt(text, p, i);
      assert OccursAt(core, p, i);
      var ms: seq<string> := [p];
      assert ms[0] == p && ms[1..] == [];
      assert InOrder(ms[1..], core[i + |p|..]);
      assert InOrder(ms, core);
    }
  }

  /** A run of stars means the same as a single star: the empty middle piece is skipped. */
  lemma GlobDoubleStar(a: string, b: string, text: string)
    requires '*' !in a && '*' !in b
    ensures GlobSpec(a + "**" + b, text) <==> GlobSpec(a + "*" + b, text)
  {
    SplitNoSeparator(b, '*');
    var tail: string := "*" + b;
    assert tail == [] + ['*'] + b;
    SplitAt([], '*', b);
    assert Split(tail, '*') == [[], b];
    assert a + "**" + b == a + ['*'] + tail;
    SplitAt(a, '*', tail);
    var two := Split(a + "**" + b, '*');
    assert two == [a, [], b];
    assert two[1..|two| - 1] == [[]];
    assert a + "*" + b == a + ['*'] + b;
    SplitAt(a, '*', b);
    var one := Split(a + "*" + b, '*');
    assert one == [a, b];
    assert one[1..|one| - 1] == [];
    if |a| + |b| <= |text| {
      var core := text[|a|..|text| - |b|];
      assert OccursAt(core, [], 0);
      assert InOrder([[]][1..], core[0..]);
      assert InOrder([[]], core);
    }
  }

  // ----- Ignore lists -----

  /** `[ignore]` in the configuration file; every list defaults to empty. */
  datatype IgnoreConfig = IgnoreConfig(packages: seq<string>, vulnerabilities: seq<string>, outdated: seq<string>)

  /** One entry of a package list: a wildcard pattern when it holds `*`, an exact identifier otherwise. */
  ghost predicate EntryMatches(entry: string, id: string)
  {
    if '*' in entry then GlobSpec(entry, id) else entry == id
  }

  /** Testing for `*` first changes nothing: an entry without one matches as a pattern would. */
  lemma EntryMatchesGlob(entry: string, id: string)
    ensures EntryMatches(entry, id) <==> GlobSpec(entry, id)
  {
    if '*' !in entry {
      GlobNoStar(entry, id);
    }
  }

  /** `should_ignore_package`: some entry matches the identifier. */
  ghost predicate ShouldIgnorePackage(c: IgnoreConfig, id: string)
  {
    exists i :: 0 <= i < |c.packages| && EntryMatches(c.packages[i], id)
  }

  /** `should_ignore_outdated`: the same test against the outdated list. */
  ghost predicate ShouldIgnoreOutdated(c: IgnoreConfig, id: string)
  {
    exists i :: 0 <= i < |c.outdated| && EntryMatches(c.outdated[i], id)
  }

  /** `should_ignore_vulnerability`: exact identifiers only; `*` has no special meaning here. */
  predicate ShouldIgnoreVulnerability(c: IgnoreConfig, id: string)
  {
    id in c.vulnerabilities
  }

  /** The package list test, as the scanner runs it: entry by entry with `GlobMatch`. */
  method MatchesAny(entries: seq<string>, id: string) returns (b: bool)
    ensures b <==> exists i :: 0 <= i < |entries| && EntryMatches(entries[i], id)
  {
    for i := 0 to |entries|
      invariant forall k :: 0 <= k < i ==> !EntryMatches(entries[k], id)
    {
      var m;
      if '*' in entries[i] {
        m := GlobMatch(entries[i], id);
      } else {
        m := entries[i] == id;
      }
      if m {
        return true;
      }
    }
    return false;
  }

  /** An empty ignore configuration ignores nothing. */
  lemma EmptyIgnoresNothing(id: string)
    ensures !ShouldIgnorePackage(IgnoreConfig([], [], []), id)
    ensures !ShouldIgnoreOutdated(IgnoreConfig([], [], []), id)
    ensures !ShouldIgnoreVulnerability(IgnoreConfig([], [], []), id)
  {
  }

  /** An exact entry ignores its own package and, when it holds no `*`, nothing else. */
  lemma {:induction false} ExactEntry(c: IgnoreConfig, entry: string, id: string)
    requires c.packages == [entry] && '*' !in entry
    ensures ShouldIgnorePackage(c, id) <==> id == entry
  {
    if id == entry {
      assert EntryMatches(c.packages[0], id);
    }
  }

  /** A vulnerability entry shaped like a pattern still matches only itself. */
  lemma VulnerabilityNotGlob(c: IgnoreConfig, entry: string, id: string)
    requires c.vulnerabilities == [entry] && '*' in entry
    ensures ShouldIgnoreVulnerability(c, id) <==> id == entry
  {
  }

  // ----- Configuration -----

  /** The configuration file's contents; a missing key takes its default. */
  datatype Config = Config(
    cacheTtlHours: nat,
    defaultSources: seq<Source>,
    skipVulnCheck: bool,
    defaultFormat: string,
    checkOutdated: bool,
    ignore: IgnoreConfig)

  /** Defaults: a day of caching, the six listed sources, vulnerability and outdated checks on, table output, nothing ignored. */
  function DefaultConfig(): (c: Config)
    ensures forall s :: s in c.defaultSources <==> s.IsListed()
    ensures |c.defaultSources| == 6
    ensures c.defaultSources == [Vscode, Chrome, Edge, Firefox, Npm, Homebrew]
    ensures c.cacheTtlHours == 24 && !c.skipVulnCheck && c.checkOutdated && c.defaultFormat == "table"
    ensures forall id :: !ShouldIgnorePackage(c.ignore, id) && !ShouldIgnoreOutdated(c.ignore, id) && !ShouldIgnoreVulnerability(c.ignore, id)
  {
    Config(24, [Vscode, Chrome, Edge, Firefox, Npm, Homebrew], false, "table", true, IgnoreConfig([], [], []))
  }
}

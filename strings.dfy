/**
 * The handful of Rust `str` operations the scanner's logic is built from,
 * written over `seq<char>` with the semantics of the Rust standard library:
 * `starts_with`, `ends_with`, `contains`, `find`, `trim_start_matches`,
 * `trim_end_matches`, `split(char)`, `trim`, `split_whitespace`,
 * `to_lowercase`, `parse::<u32>` and `u32::to_string`.
 *
 * The functions carry only the cheapest facts in their contracts; what they
 * compute is stated by the lemma that follows each of them.
 */
module Str {
  import opened Wrappers

  /** `s.starts_with(p)`, compared character by character. */
  predicate StartsWith(s: string, p: string)
    decreases |p|
  {
    p == [] || (s != [] && s[0] == p[0] && StartsWith(s[1..], p[1..]))
  }

  lemma {:induction false} StartsWithIff(s: string, p: string)
    ensures StartsWith(s, p) <==> |p| <= |s| && s[..|p|] == p
    decreases |p|
  {
    if p != [] && s != [] {
      StartsWithIff(s[1..], p[1..]);
      if |p| <= |s| && s[..|p|] == p {
        assert s[1..][..|p| - 1] == p[1..];
      }
      if StartsWith(s, p) {
        assert s[..|p|] == [s[0]] + s[1..][..|p| - 1];
      }
    }
  }

  /** `s.ends_with(p)`, compared character by character from the end. */
  predicate EndsWith(s: string, p: string)
    decreases |p|
  {
    p == [] || (s != [] && s[|s| - 1] == p[|p| - 1] && EndsWith(s[..|s| - 1], p[..|p| - 1]))
  }

  lemma {:induction false} EndsWithIff(s: string, p: string)
    ensures EndsWith(s, p) <==> |p| <= |s| && s[|s| - |p|..] == p
    decreases |p|
  {
    if p != [] && s != [] {
      var s' := s[..|s| - 1];
      var p' := p[..|p| - 1];
      EndsWithIff(s', p');
      if |p| <= |s| && s[|s| - |p|..] == p {
        assert s'[|s'| - |p'|..] == p';
      }
      if EndsWith(s, p) {
        assert s[|s| - |p|..] == s'[|s'| - |p'|..] + [s[|s| - 1]];
        assert p == p' + [p[|p| - 1]];
      }
    }
  }

  /** `p` occurs in `s` starting at index `i`. */
  predicate OccursAt(s: string, p: string, i: int)
  {
    0 <= i && i + |p| <= |s| && s[i..i + |p|] == p
  }

  /** `s.find(p)`. */
  function Find(s: string, p: string): Option<nat>
    decreases |s|
  {
    if |s| < |p| then None
    else if StartsWith(s, p) then Some(0)
    else
      match Find(s[1..], p)
      case None => None
      case Some(k) => Some(k + 1)
  }

  /** `find` reports the leftmost occurrence, and reports nothing only when there is none. */
  lemma {:induction false} FindLeftmost(s: string, p: string)
    ensures Find(s, p).Some? ==> OccursAt(s, p, Find(s, p).value)
    ensures Find(s, p).Some? ==> forall j :: 0 <= j < Find(s, p).value ==> !OccursAt(s, p, j)
    ensures Find(s, p).None? ==> forall j :: !OccursAt(s, p, j)
    decreases |s|
  {
    StartsWithIff(s, p);
    if |s| >= |p| && !StartsWith(s, p) {
      FindLeftmost(s[1..], p);
      forall j | 1 <= j
        ensures OccursAt(s, p, j) <==> OccursAt(s[1..], p, j - 1)
      {
        OccursShift(s, p, j);
      }
      assert !OccursAt(s, p, 0);
    } else if |s| < |p| {
      forall j ensures !OccursAt(s, p, j) {
      }
    }
  }

  /** An occurrence after the first character is an occurrence in the rest, one place earlier. */
  lemma OccursShift(s: string, p: string, j: int)
    requires s != [] && 1 <= j
    ensures OccursAt(s, p, j) <==> OccursAt(s[1..], p, j - 1)
  {
    if j + |p| <= |s| {
      assert s[1..][j - 1..j - 1 + |p|] == s[j..j + |p|];
    }
  }

  /** `s.contains(p)`. */
  predicate Contains(s: string, p: string)
  {
    Find(s, p).Some?
  }

  lemma ContainsIff(s: string, p: string)
    ensures Contains(s, p) <==> exists i :: OccursAt(s, p, i)
  {
    FindLeftmost(s, p);
  }

  /** A text contains whatever it holds between two other pieces. */
  lemma ContainsMiddle(a: string, p: string, c: string)
    ensures Contains(a + p + c, p)
  {
    var s := a + p + c;
    assert s[|a|..|a| + |p|] == p;
    assert OccursAt(s, p, |a|);
    ContainsIff(s, p);
  }

  /** `s.trim_start_matches(p)`: every leading copy of `p` is removed, not just one. */
  function TrimStartMatches(s: string, p: string): (r: string)
    requires |p| > 0
    ensures |r| <= |s|
    decreases |s|
  {
    if StartsWith(s, p) then
      StartsWithIff(s, p);
      TrimStartMatches(s[|p|..], p)
    else s
  }

  /** What is left is a suffix of the input that no longer starts with the pattern. */
  lemma {:induction false} TrimStartMatchesSuffix(s: string, p: string)
    requires |p| > 0
    ensures var r := TrimStartMatches(s, p); !StartsWith(r, p) && r == s[|s| - |r|..]
    decreases |s|
  {
    StartsWithIff(s, p);
    if StartsWith(s, p) {
      TrimStartMatchesSuffix(s[|p|..], p);
    }
  }

  /** `s.trim_end_matches(p)`: every trailing copy of `p` is removed. */
  function TrimEndMatches(s: string, p: string): (r: string)
    requires |p| > 0
    ensures |r| <= |s|
    decreases |s|
  {
    if EndsWith(s, p) then
      EndsWithIff(s, p);
      TrimEndMatches(s[..|s| - |p|], p)
    else s
  }

  /** What is left is a prefix of the input that no longer ends with the pattern. */
  lemma {:induction false} TrimEndMatchesPrefix(s: string, p: string)
    requires |p| > 0
    ensures var r := TrimEndMatches(s, p); !EndsWith(r, p) && r == s[..|r|]
    decreases |s|
  {
    EndsWithIff(s, p);
    if EndsWith(s, p) {
      TrimEndMatchesPrefix(s[..|s| - |p|], p);
    }
  }

  /** `s.split(c)`: Rust yields at least one piece, even for the empty string. */
  function Split(s: string, c: char): (r: seq<string>)
    ensures |r| >= 1
    decreases |s|
  {
    if s == [] then [[]]
    else
      var rest := Split(s[1..], c);
      if s[0] == c then [[]] + rest
      else [[s[0]] + rest[0]] + rest[1..]
  }

  /** No piece of a split contains the separator. */
  lemma {:induction false} SplitPiecesFree(s: string, c: char)
    ensures forall i :: 0 <= i < |Split(s, c)| ==> c !in Split(s, c)[i]
    decreases |s|
  {
    if s != [] {
      SplitPiecesFree(s[1..], c);
    }
  }

  /** The pieces joined back together with the separator. */
  function Join(parts: seq<string>, c: char): string
  {
    if parts == [] then []
    else if |parts| == 1 then parts[0]
    else parts[0] + [c] + Join(parts[1..], c)
  }

  /** Splitting and re-joining on the same character gives back the input. */
  lemma {:induction false} SplitJoin(s: string, c: char)
    ensures Join(Split(s, c), c) == s
    decreases |s|
  {
    if s != [] {
      SplitJoin(s[1..], c);
      var rest := Split(s[1..], c);
      if s[0] != c {
        if |rest| == 1 {
        } else {
          calc {
            Join(Split(s, c), c);
            ([s[0]] + rest[0]) + [c] + Join(rest[1..], c);
            [s[0]] + (rest[0] + [c] + Join(rest[1..], c));
            [s[0]] + Join(rest, c);
            [s[0]] + s[1..];
          }
        }
      }
    }
  }

  /** The first piece of `s.split(c)` is everything before the first `c`. */
  lemma {:induction false} SplitFirst(s: string, c: char)
    ensures |Split(s, c)[0]| <= |s| && s[..|Split(s, c)[0]|] == Split(s, c)[0]
    ensures |Split(s, c)[0]| == |s| || s[|Split(s, c)[0]|] == c
    decreases |s|
  {
    if s != [] && s[0] != c {
      SplitFirst(s[1..], c);
      var rest := Split(s[1..], c);
      var first := [s[0]] + rest[0];
      assert Split(s, c)[0] == first;
      assert s == [s[0]] + s[1..];
      assert s[..|first|] == [s[0]] + s[1..][..|rest[0]|];
    }
  }

  /** `s.split_once(c)`: the text before the first `c`, and the text after it if there is one. */
  function SplitOnce(s: string, c: char): (string, Option<string>)
    decreases |s|
  {
    if s == [] then ([], None)
    else if s[0] == c then ([], Some(s[1..]))
    else
      var (head, tail) := SplitOnce(s[1..], c);
      ([s[0]] + head, tail)
  }

  /** The head holds no separator; with no tail it is the whole string, otherwise head, separator and tail make it up. */
  lemma {:induction false} SplitOnceSpec(s: string, c: char)
    ensures c !in SplitOnce(s, c).0
    ensures SplitOnce(s, c).1.None? ==> SplitOnce(s, c).0 == s
    ensures SplitOnce(s, c).1.Some? ==> s == SplitOnce(s, c).0 + [c] + SplitOnce(s, c).1.value
    decreases |s|
  {
    if s != [] && s[0] != c {
      SplitOnceSpec(s[1..], c);
      assert s == [s[0]] + s[1..];
    }
  }

  /** Splitting `a + [c] + b` where `a` holds no `c` cuts exactly there. */
  lemma {:induction false} SplitOnceAt(a: string, c: char, b: string)
    requires c !in a
    ensures SplitOnce(a + [c] + b, c) == (a, Some(b))
    decreases |a|
  {
    if a == [] {
      assert a + [c] + b == [c] + b;
    } else {
      assert (a + [c] + b)[1..] == a[1..] + [c] + b;
      SplitOnceAt(a[1..], c, b);
      assert [a[0]] + a[1..] == a;
    }
  }

  /** With no `c` present there is nothing to cut. */
  lemma {:induction false} SplitOnceAbsent(a: string, c: char)
    requires c !in a
    ensures SplitOnce(a, c) == (a, None)
    decreases |a|
  {
    if a != [] {
      SplitOnceAbsent(a[1..], c);
      assert [a[0]] + a[1..] == a;
    }
  }

  /** Splitting the join of pieces that hold no separator gives the pieces back. */
  lemma {:induction false} JoinSplit(parts: seq<string>, c: char)
    requires |parts| >= 1
    requires forall i :: 0 <= i < |parts| ==> c !in parts[i]
    ensures Split(Join(parts, c), c) == parts
    decreases |parts|
  {
    if |parts| == 1 {
      SplitNoSeparator(parts[0], c);
    } else {
      JoinSplit(parts[1..], c);
      SplitAt(parts[0], c, Join(parts[1..], c));
      assert [parts[0]] + parts[1..] == parts;
    }
  }

  /** A string without the separator is a single piece. */
  lemma {:induction false} SplitNoSeparator(a: string, c: char)
    requires c !in a
    ensures Split(a, c) == [a]
    decreases |a|
  {
    if a != [] {
      SplitNoSeparator(a[1..], c);
      assert [a[0]] + a[1..] == a;
    }
  }

  /** Splitting `a + [c] + b` where `a` holds no `c`: `a`, then the pieces of `b`. */
  lemma {:induction false} SplitAt(a: string, c: char, b: string)
    requires c !in a
    ensures Split(a + [c] + b, c) == [a] + Split(b, c)
    decreases |a|
  {
    if a == [] {
      assert a + [c] + b == [c] + b;
      assert ([c] + b)[1..] == b;
    } else {
      assert (a + [c] + b)[1..] == a[1..] + [c] + b;
      SplitAt(a[1..], c, b);
      assert [a[0]] + a[1..] == a;
    }
  }

  /** Count of occurrences of `c` in `s`. */
  function CountChar(s: string, c: char): nat
  {
    if s == [] then 0 else (if s[0] == c then 1 else 0) + CountChar(s[1..], c)
  }

  /** The pieces of a split number one more than the separators. */
  lemma {:induction false} SplitCount(s: string, c: char)
    ensures |Split(s, c)| == CountChar(s, c) + 1
    decreases |s|
  {
    if s != [] {
      SplitCount(s[1..], c);
    }
  }

  /** `char::is_whitespace`: the Unicode White_Space property. */
  predicate IsWhitespace(ch: char)
  {
    ('\t' <= ch <= '\r') || ch == ' ' || ch == '\U{85}' || ch == '\U{A0}' || ch == '\U{1680}'
    || ('\U{2000}' <= ch <= '\U{200A}') || ch == '\U{2028}' || ch == '\U{2029}'
    || ch == '\U{202F}' || ch == '\U{205F}' || ch == '\U{3000}'
  }

  predicate NoWhitespace(s: string)
  {
    forall i :: 0 <= i < |s| ==> !IsWhitespace(s[i])
  }

  function TrimStart(s: string): string
    decreases |s|
  {
    if s != [] && IsWhitespace(s[0]) then TrimStart(s[1..]) else s
  }

  function TrimEnd(s: string): string
    decreases |s|
  {
    if s != [] && IsWhitespace(s[|s| - 1]) then TrimEnd(s[..|s| - 1]) else s
  }

  /** `s.trim()`. */
  function Trim(s: string): string
  {
    TrimEnd(TrimStart(s))
  }

  lemma {:induction false} TrimStartSpec(s: string)
    ensures var r := TrimStart(s);
      |r| <= |s| && r == s[|s| - |r|..] && (r == [] || !IsWhitespace(r[0]))
      && forall i :: 0 <= i < |s| - |r| ==> IsWhitespace(s[i])
    decreases |s|
  {
    if s != [] && IsWhitespace(s[0]) {
      TrimStartSpec(s[1..]);
    }
  }

  lemma {:induction false} TrimEndSpec(s: string)
    ensures var r := TrimEnd(s);
      |r| <= |s| && r == s[..|r|] && (r == [] || !IsWhitespace(r[|r| - 1]))
      && forall i :: |r| <= i < |s| ==> IsWhitespace(s[i])
    decreases |s|
  {
    if s != [] && IsWhitespace(s[|s| - 1]) {
      TrimEndSpec(s[..|s| - 1]);
    }
  }

  /** `trim` removes whitespace from both ends and nothing else. */
  lemma TrimSpec(s: string)
    ensures var r := Trim(s);
      (r == [] || (!IsWhitespace(r[0]) && !IsWhitespace(r[|r| - 1])))
      && (exists i :: OccursAt(s, r, i))
  {
    var t := TrimStart(s);
    TrimStartSpec(s);
    TrimEndSpec(t);
    var r := TrimEnd(t);
    var i := |s| - |t|;
    assert s[i..i + |r|] == t[..|r|];
    assert OccursAt(s, r, i);
  }

  /** Text that neither starts nor ends with whitespace is its own trim. */
  lemma TrimUnchanged(s: string)
    requires s != [] && !IsWhitespace(s[0]) && !IsWhitespace(s[|s| - 1])
    ensures Trim(s) == s
  {
    assert TrimStart(s) == s;
  }

  /** `s.split_whitespace()`: the maximal non-empty whitespace-free pieces. */
  function SplitWhitespace(s: string): seq<string>
  {
    Words(s, [])
  }

  /** The words of `s`, the first of which begins with the partial word `cur`. */
  function Words(s: string, cur: string): seq<string>
    decreases |s|
  {
    if s == [] then (if cur == [] then [] else [cur])
    else if IsWhitespace(s[0]) then
      (if cur == [] then Words(s[1..], []) else [cur] + Words(s[1..], []))
    else Words(s[1..], cur + [s[0]])
  }

  lemma {:induction false} WordsSpec(s: string, cur: string)
    requires NoWhitespace(cur)
    ensures forall i :: 0 <= i < |Words(s, cur)| ==> Words(s, cur)[i] != [] && NoWhitespace(Words(s, cur)[i])
    decreases |s|
  {
    if s != [] {
      if IsWhitespace(s[0]) {
        WordsSpec(s[1..], []);
      } else {
        WordsSpec(s[1..], cur + [s[0]]);
      }
    }
  }

  /** A run of non-whitespace characters extends the current word. */
  lemma {:induction false} WordsWord(x: string, rest: string, cur: string)
    requires NoWhitespace(x)
    ensures Words(x + rest, cur) == Words(rest, cur + x)
    decreases |x|
  {
    if x == [] {
      assert x + rest == rest && cur + x == cur;
    } else {
      assert (x + rest)[1..] == x[1..] + rest;
      WordsWord(x[1..], rest, cur + [x[0]]);
      assert cur + [x[0]] + x[1..] == cur + x;
    }
  }

  /** Every piece of `split_whitespace` is a non-empty word without whitespace. */
  lemma SplitWhitespaceSpec(s: string)
    ensures forall i :: 0 <= i < |SplitWhitespace(s)| ==> SplitWhitespace(s)[i] != [] && NoWhitespace(SplitWhitespace(s)[i])
  {
    WordsSpec(s, []);
  }

  function ToLowerChar(ch: char): char
  {
    if 'A' <= ch <= 'Z' then (ch as int + 32) as char else ch
  }

  /** `s.to_lowercase()`, on ASCII letters. */
  function ToLower(s: string): (r: string)
    ensures |r| == |s|
    ensures forall i :: 0 <= i < |s| ==> r[i] == ToLowerChar(s[i])
  {
    seq(|s|, i requires 0 <= i < |s| => ToLowerChar(s[i]))
  }

  /** Lower-casing twice is lower-casing once. */
  lemma ToLowerIdempotent(s: string)
    ensures ToLower(ToLower(s)) == ToLower(s)
  {
  }

  /** `char::is_alphanumeric`, on ASCII. */
  predicate IsAlphanumeric(ch: char)
  {
    ('a' <= ch <= 'z') || ('A' <= ch <= 'Z') || ('0' <= ch <= '9')
  }

  predicate IsDigit(ch: char)
  {
    '0' <= ch <= '9'
  }

  predicate AllDigits(s: string)
  {
    forall i :: 0 <= i < |s| ==> IsDigit(s[i])
  }

  /** The value of a string of decimal digits (most significant first). */
  function DigitsValue(s: string): nat
    requires AllDigits(s)
  {
    if s == [] then 0 else DigitsValue(s[..|s| - 1]) * 10 + (s[|s| - 1] as int - '0' as int)
  }

  const U32_MAX: nat := 0xFFFF_FFFF

  /**
   * `s.parse::<u32>()`: an optional `+` and at least one ASCII digit, with a value
   * that fits in 32 bits; anything else is an error.
   */
  function ParseU32(s: string): (r: Option<nat>)
    ensures r.Some? ==> r.value <= U32_MAX
  {
    var digits := if s != [] && s[0] == '+' then s[1..] else s;
    if digits != [] && AllDigits(digits) && DigitsValue(digits) <= U32_MAX
    then Some(DigitsValue(digits))
    else None
  }

  /** `n.to_string()` in decimal. */
  function NatToString(n: nat): string
  {
    if n < 10 then [('0' as int + n) as char]
    else NatToString(n / 10) + [('0' as int + n % 10) as char]
  }

  /** The decimal rendering is a non-empty digit string without leading zeros, worth `n`. */
  lemma {:induction false} NatToStringDigits(n: nat)
    ensures var r := NatToString(n);
      r != [] && AllDigits(r) && (|r| > 1 ==> r[0] != '0') && DigitsValue(r) == n
  {
    if n >= 10 {
      NatToStringDigits(n / 10);
      var r := NatToString(n);
      assert r[..|r| - 1] == NatToString(n / 10);
    }
  }

  /** Formatting a u32 with `to_string` and parsing it back gives the same number. */
  lemma ParseNatToString(n: nat)
    requires n <= U32_MAX
    ensures ParseU32(NatToString(n)) == Some(n)
  {
    NatToStringDigits(n);
  }

  /**
   * `Path::join` on Unix paths: an absolute part replaces the base; otherwise
   * the part follows the base, with a `/` between them unless the base is
   * empty or already ends with one.
   */
  function PathJoin(base: string, part: string): string
  {
    if part != [] && part[0] == '/' then part
    else if base == [] || base[|base| - 1] == '/' then base + part
    else base + "/" + part
  }

  /** A relative part is appended: the base stays in front and the part ends the path. */
  lemma PathJoinRelative(base: string, part: string)
    requires part == [] || part[0] != '/'
    ensures StartsWith(PathJoin(base, part), base) && EndsWith(PathJoin(base, part), part)
  {
    var r := PathJoin(base, part);
    StartsWithIff(r, base);
    EndsWithIff(r, part);
    assert r[..|base|] == base;
    assert r[|r| - |part|..] == part;
  }

  // ---------------------------------------------------------------------------
  // Sequences

  /** `f` applied to each element, in order. */
  function MapSeq<A, B>(xs: seq<A>, f: A -> B): (r: seq<B>)
    ensures |r| == |xs|
  {
    if xs == [] then [] else MapSeq(xs[..|xs| - 1], f) + [f(xs[|xs| - 1])]
  }

  lemma {:induction false} MapSeqAt<A, B>(xs: seq<A>, f: A -> B, i: nat)
    requires i < |xs|
    ensures MapSeq(xs, f)[i] == f(xs[i])
  {
    var init := xs[..|xs| - 1];
    if i < |init| {
      MapSeqAt(init, f, i);
      assert init[i] == xs[i];
    }
  }

  lemma {:induction false} MapSeqAppend<A, B>(a: seq<A>, b: seq<A>, f: A -> B)
    ensures MapSeq(a + b, f) == MapSeq(a, f) + MapSeq(b, f)
    decreases |b|
  {
    if b == [] {
      assert a + b == a;
    } else {
      var ab := a + b;
      assert ab[..|ab| - 1] == a + b[..|b| - 1];
      assert ab[|ab| - 1] == b[|b| - 1];
      MapSeqAppend(a, b[..|b| - 1], f);
    }
  }

  lemma MapSeqStep<A, B>(xs: seq<A>, f: A -> B, i: nat)
    requires i < |xs|
    ensures MapSeq(xs[..i + 1], f) == MapSeq(xs[..i], f) + [f(xs[i])]
  {
    assert xs[..i + 1][..i] == xs[..i];
  }

  /** The total of `w` over the elements. */
  function SumBy<A>(xs: seq<A>, w: A -> nat): nat
  {
    if xs == [] then 0 else SumBy(xs[..|xs| - 1], w) + w(xs[|xs| - 1])
  }

  lemma SumByStep<A>(xs: seq<A>, w: A -> nat, i: nat)
    requires i < |xs|
    ensures SumBy(xs[..i + 1], w) == SumBy(xs[..i], w) + w(xs[i])
  {
    assert xs[..i + 1][..i] == xs[..i];
  }
}

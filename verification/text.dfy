/** String helpers that mirror the Python `str` and `os.path` operations the
    downloader code uses. Each function follows the CPython behaviour for the
    inputs it is given; the ASCII-only restrictions are listed in README.md. */
module Text {

  datatype Option<T> = None | Some(value: T)

  /** Python's `str.isspace()`, which is also what `\s` matches in a `re` pattern over `str`. */
  predicate IsSpace(c: char) {
    || ('\t' <= c <= '\r')
    || ('\U{1C}' <= c <= '\U{1F}')
    || c == ' ' || c == '\U{85}' || c == '\U{A0}' || c == '\U{1680}'
    || ('\U{2000}' <= c <= '\U{200A}')
    || c == '\U{2028}' || c == '\U{2029}' || c == '\U{202F}' || c == '\U{205F}' || c == '\U{3000}'
  }

  predicate IsDigit(c: char) { '0' <= c <= '9' }

  predicate IsHex(c: char) { IsDigit(c) || 'a' <= c <= 'f' || 'A' <= c <= 'F' }

  /** The character class `[\d.]`. */
  predicate IsNumChar(c: char) { IsDigit(c) || c == '.' }

  predicate IsAsciiUpper(c: char) { 'A' <= c <= 'Z' }

  predicate IsAsciiLower(c: char) { 'a' <= c <= 'z' }

  predicate IsAsciiLetter(c: char) { IsAsciiUpper(c) || IsAsciiLower(c) }

  predicate AllDigits(s: string) { forall k :: 0 <= k < |s| ==> IsDigit(s[k]) }

  predicate AllSpace(s: string) { forall k :: 0 <= k < |s| ==> IsSpace(s[k]) }

  predicate StartsWith(s: string, p: string) { |p| <= |s| && s[..|p|] == p }

  predicate EndsWith(s: string, p: string) { |p| <= |s| && s[|s| - |p|..] == p }

  /** Python's `sub in s`; the empty string occurs in every string. */
  predicate Contains(s: string, sub: string)
    decreases |s|
  {
    StartsWith(s, sub) || (s != [] && Contains(s[1..], sub))
  }

  /** The longest prefix of `s` whose characters all satisfy `p`, and what follows it. */
  function Span(s: string, p: char -> bool): (r: (string, string))
    ensures r.0 + r.1 == s
    ensures forall k :: 0 <= k < |r.0| ==> p(r.0[k])
    ensures r.1 == [] || !p(r.1[0])
  {
    if s != [] && p(s[0]) then
      var t := Span(s[1..], p);
      assert s == [s[0]] + (t.0 + t.1);
      ([s[0]] + t.0, t.1)
    else ([], s)
  }

  lemma {:induction false} SpanOf(x: string, rest: string, p: char -> bool)
    requires forall k :: 0 <= k < |x| ==> p(x[k])
    requires rest == [] || !p(rest[0])
    ensures Span(x + rest, p) == (x, rest)
  {
    if x != [] {
      assert (x + rest)[0] == x[0];
      assert (x + rest)[1..] == x[1..] + rest;
      SpanOf(x[1..], rest, p);
      assert [x[0]] + x[1..] == x;
    } else {
      assert x + rest == rest;
    }
  }

  /** `str.lstrip()`: drops leading whitespace. */
  function TrimStart(s: string): (r: string)
    ensures r == [] || !IsSpace(r[0])
    ensures |r| <= |s| && r == s[|s| - |r|..]
  {
    if s != [] && IsSpace(s[0]) then TrimStart(s[1..]) else s
  }

  /** `str.rstrip()`: drops trailing whitespace. */
  function TrimEnd(s: string): (r: string)
    ensures r == [] || !IsSpace(r[|r| - 1])
    ensures |r| <= |s| && r == s[..|r|]
  {
    if s != [] && IsSpace(s[|s| - 1]) then TrimEnd(s[..|s| - 1]) else s
  }

  /** `str.strip()` with no argument. */
  function Strip(s: string): (r: string)
    ensures r == [] || (!IsSpace(r[0]) && !IsSpace(r[|r| - 1]))
  {
    TrimEnd(TrimStart(s))
  }

  lemma {:induction false} TrimStartOf(lead: string, m: string)
    requires AllSpace(lead)
    requires m == [] || !IsSpace(m[0])
    ensures TrimStart(lead + m) == m
  {
    if lead == [] {
      assert lead + m == m;
    } else {
      assert (lead + m)[1..] == lead[1..] + m;
      TrimStartOf(lead[1..], m);
    }
  }

  lemma {:induction false} TrimEndOf(m: string, trail: string)
    requires AllSpace(trail)
    requires m == [] || !IsSpace(m[|m| - 1])
    ensures TrimEnd(m + trail) == m
  {
    if trail == [] {
      assert m + trail == m;
    } else {
      var s := m + trail;
      assert s[..|s| - 1] == m + trail[..|trail| - 1];
      TrimEndOf(m, trail[..|trail| - 1]);
    }
  }

  /** Stripping removes exactly the surrounding whitespace. */
  lemma StripOf(lead: string, m: string, trail: string)
    requires AllSpace(lead) && AllSpace(trail)
    requires m == [] || (!IsSpace(m[0]) && !IsSpace(m[|m| - 1]))
    ensures Strip(lead + m + trail) == m
  {
    if m == [] {
      assert lead + m + trail == lead + trail;
      assert AllSpace(lead + trail);
      AllSpaceTrims(lead + trail);
    } else {
      assert lead + m + trail == lead + (m + trail);
      TrimStartOf(lead, m + trail);
      TrimEndOf(m, trail);
    }
  }

  lemma {:induction false} AllSpaceTrims(s: string)
    requires AllSpace(s)
    ensures TrimStart(s) == []
  {
    if s != [] {
      AllSpaceTrims(s[1..]);
    }
  }

  lemma StripNoop(m: string)
    requires m == [] || (!IsSpace(m[0]) && !IsSpace(m[|m| - 1]))
    ensures Strip(m) == m
  {
    StripOf([], m, []);
    assert [] + m + [] == m;
  }

  function LowerChar(c: char): char {
    if IsAsciiUpper(c) then (c as int + 32) as char else c
  }

  function UpperChar(c: char): char {
    if IsAsciiLower(c) then (c as int - 32) as char else c
  }

  /** `str.lower()` on ASCII letters. */
  function Lower(s: string): (r: string)
    ensures |r| == |s|
    ensures forall k :: 0 <= k < |s| ==> r[k] == LowerChar(s[k])
  {
    seq(|s|, k requires 0 <= k < |s| => LowerChar(s[k]))
  }

  function TitleFrom(s: string, afterLetter: bool): (r: string)
    ensures |r| == |s|
  {
    if s == [] then []
    else
      var c := s[0];
      var d := if !IsAsciiLetter(c) then c else if afterLetter then LowerChar(c) else UpperChar(c);
      [d] + TitleFrom(s[1..], IsAsciiLetter(c))
  }

  /** `str.title()`: a letter is upper-cased when it does not follow a letter and
      lower-cased when it does; every other character is kept. */
  function Title(s: string): (r: string)
    ensures |r| == |s|
  {
    TitleFrom(s, false)
  }

  /** Python's `str.replace(pat, rep)` for a non-empty `pat`: occurrences are
      replaced left to right without overlapping. */
  function Replace(s: string, pat: string, rep: string): string
    requires pat != []
    decreases |s|
  {
    if |s| < |pat| then s
    else if s[..|pat|] == pat then rep + Replace(s[|pat|..], pat, rep)
    else [s[0]] + Replace(s[1..], pat, rep)
  }

  /** A string without the pattern is left as it is. */
  lemma {:induction false} ReplaceAbsent(s: string, pat: string, rep: string)
    requires pat != [] && !Contains(s, pat)
    ensures Replace(s, pat, rep) == s
  {
    if |s| >= |pat| {
      assert !StartsWith(s, pat);
      ReplaceAbsent(s[1..], pat, rep);
      assert [s[0]] + s[1..] == s;
    }
  }

  /** A one-character pattern splits over concatenation. */
  lemma {:induction false} ReplaceCharAppend(a: string, b: string, c: char, rep: string)
    ensures Replace(a + b, [c], rep) == Replace(a, [c], rep) + Replace(b, [c], rep)
  {
    if a == [] {
      assert a + b == b;
    } else {
      assert (a + b)[..1] == a[..1];
      assert (a + b)[1..] == a[1..] + b;
      ReplaceCharAppend(a[1..], b, c, rep);
    }
  }

  /** Removing a character leaves none of it behind. */
  lemma {:induction false} ReplaceCharRemoves(s: string, c: char)
    ensures c !in Replace(s, [c], "")
  {
    if s != [] {
      ReplaceCharRemoves(s[1..], c);
    }
  }

  /** Replacing never brings in a character that neither the text nor the replacement holds. */
  lemma {:induction false} ReplaceKeepsAbsent(s: string, pat: string, rep: string, c: char)
    requires pat != [] && c !in s && c !in rep
    ensures c !in Replace(s, pat, rep)
    decreases |s|
  {
    if |s| >= |pat| {
      if s[..|pat|] == pat {
        ReplaceKeepsAbsent(s[|pat|..], pat, rep, c);
      } else {
        ReplaceKeepsAbsent(s[1..], pat, rep, c);
      }
    }
  }

  lemma {:induction false} ContainsLength(s: string, sub: string)
    requires Contains(s, sub)
    ensures |sub| <= |s|
    decreases |s|
  {
    if !StartsWith(s, sub) {
      ContainsLength(s[1..], sub);
    }
  }

  /** When the pattern occurs, the replacement occurs in the result. */
  lemma {:induction false} ContainsBehind(p: string, s: string, sub: string)
    requires Contains(s, sub)
    ensures Contains(p + s, sub)
    decreases |p|
  {
    if p != [] {
      ContainsBehind(p[1..], s, sub);
      assert (p + s)[1..] == p[1..] + s;
      assert Contains((p + s)[1..], sub);
    } else {
      assert p + s == s;
    }
  }

  lemma {:induction false} ReplaceInserts(s: string, pat: string, rep: string)
    requires pat != [] && Contains(s, pat)
    ensures Contains(Replace(s, pat, rep), rep)
    decreases |s|
  {
    ContainsLength(s, pat);
    var r := Replace(s, pat, rep);
    if s[..|pat|] == pat {
      assert r[..|rep|] == rep;
    } else {
      assert !StartsWith(s, pat);
      ReplaceInserts(s[1..], pat, rep);
      assert r[1..] == Replace(s[1..], pat, rep);
    }
  }

  /** Replacing one character by another maps the text character by character. */
  lemma {:induction false} ReplaceCharByChar(s: string, c: char, d: char)
    ensures |Replace(s, [c], [d])| == |s|
    ensures forall k :: 0 <= k < |s| ==> Replace(s, [c], [d])[k] == if s[k] == c then d else s[k]
  {
    if s != [] {
      ReplaceCharByChar(s[1..], c, d);
      var r := Replace(s, [c], [d]);
      assert r == [if s[0] == c then d else s[0]] + Replace(s[1..], [c], [d]);
      forall k | 1 <= k < |s|
        ensures r[k] == if s[k] == c then d else s[k]
      {
        assert s[1..][k - 1] == s[k];
      }
    }
  }

  /** A prefix without the pattern's first character is kept as it is. */
  lemma {:induction false} ReplaceKeepsPrefix(p: string, t: string, pat: string, rep: string)
    requires pat != [] && pat[0] !in p
    ensures Replace(p + t, pat, rep) == p + Replace(t, pat, rep)
  {
    if p == [] {
      assert p + t == t;
    } else if |p + t| >= |pat| {
      assert (p + t)[..|pat|][0] == p[0];
      assert (p + t)[1..] == p[1..] + t;
      ReplaceKeepsPrefix(p[1..], t, pat, rep);
      assert [p[0]] + (p[1..] + Replace(t, pat, rep)) == p + Replace(t, pat, rep);
    } else {
      assert |t| < |pat|;
    }
  }

  function DigitValue(c: char): nat
    requires IsDigit(c)
  {
    c as int - '0' as int
  }

  function DigitChar(d: nat): (c: char)
    requires d < 10
    ensures IsDigit(c) && DigitValue(c) == d
  {
    ('0' as int + d) as char
  }

  /** The number a string of decimal digits denotes (Python `int(s)`). */
  function DecimalValue(s: string): nat
    requires AllDigits(s)
  {
    if s == [] then 0 else DecimalValue(s[..|s| - 1]) * 10 + DigitValue(s[|s| - 1])
  }

  /** Python `str(n)` for a non-negative integer; `DecimalValue` reads it back. */
  function NatToString(n: nat): (r: string)
    ensures r != [] && AllDigits(r)
    ensures DecimalValue(r) == n
  {
    if n < 10 then
      [DigitChar(n)]
    else
      var r := NatToString(n / 10) + [DigitChar(n % 10)];
      assert r[..|r| - 1] == NatToString(n / 10);
      r
  }

  /** Python `str(i)` for any integer. */
  function IntToString(i: int): (r: string)
    ensures i >= 0 ==> r == NatToString(i)
    ensures i < 0 ==> r == "-" + NatToString(-i)
  {
    if i < 0 then "-" + NatToString(-i) else NatToString(i)
  }

  /** `s.split(c)[0]`: everything before the first `c`. */
  function BeforeFirst(s: string, c: char): (r: string)
    ensures |r| <= |s| && r == s[..|r|] && c !in r
    ensures |r| < |s| ==> s[|r|] == c
  {
    if s == [] || s[0] == c then [] else [s[0]] + BeforeFirst(s[1..], c)
  }

  /** `s.split(c)[-1]`: everything after the last `c`. */
  function AfterLast(s: string, c: char): string
    decreases |s|
  {
    if s == [] || s[|s| - 1] == c then [] else AfterLast(s[..|s| - 1], c) + [s[|s| - 1]]
  }

  /** `AfterLast` gives the longest suffix without `c`. */
  lemma {:induction false} AfterLastOf(s: string, c: char)
    ensures var r := AfterLast(s, c);
      && |r| <= |s| && r == s[|s| - |r|..] && c !in r
      && (|r| < |s| ==> s[|s| - |r| - 1] == c)
    decreases |s|
  {
    if s != [] && s[|s| - 1] != c {
      var t := s[..|s| - 1];
      AfterLastOf(t, c);
      var r := AfterLast(t, c);
      assert s[|s| - |r| - 1..] == t[|t| - |r|..] + [s[|s| - 1]];
    }
  }

  /** `os.path.basename` for POSIX paths. */
  function Basename(p: string): string {
    AfterLast(p, '/')
  }

  /** The text after the last separator, when the separator is followed by `b`. */
  lemma {:induction false} AfterLastSep(a: string, b: string, c: char)
    requires c !in b
    ensures AfterLast(a + [c] + b, c) == b
    decreases |b|
  {
    var s := a + [c] + b;
    if b != [] {
      var t := b[..|b| - 1];
      assert s[..|s| - 1] == a + [c] + t;
      AfterLastSep(a, t, c);
      assert t + [b[|b| - 1]] == b;
    }
  }

  /** `os.path.join(a, b)` for two POSIX components. */
  function PathJoin(a: string, b: string): string {
    if StartsWith(b, "/") then b
    else if a == [] || EndsWith(a, "/") then a + b
    else a + "/" + b
  }

  /** `os.path.splitext(p)[1]`: the suffix from the last dot of the last path
      component, unless every character before that dot in the component is a dot. */
  function Extension(p: string): (r: string)
    ensures r == [] || (r[0] == '.' && EndsWith(p, r) && '/' !in r)
  {
    var base := Basename(p);
    var stem := AfterLast(base, '.');
    AfterLastOf(p, '/');
    AfterLastOf(base, '.');
    if |stem| == |base| then ""
    else
      var dot := |base| - |stem| - 1;
      if forall k :: 0 <= k < dot ==> base[k] == '.' then ""
      else
        assert base == p[|p| - |base|..];
        assert base[dot..] == p[|p| - |base| + dot..];
        base[dot..]
  }

  /** `sep.join(parts)`. */
  function Join(parts: seq<string>, sep: string): string {
    if |parts| == 0 then "" else if |parts| == 1 then parts[0] else parts[0] + sep + Join(parts[1..], sep)
  }

  /** Joining never brings in a character that neither the parts nor the separator hold. */
  lemma {:induction false} JoinKeepsAbsent(parts: seq<string>, sep: string, c: char)
    requires c !in sep
    requires forall k :: 0 <= k < |parts| ==> c !in parts[k]
    ensures c !in Join(parts, sep)
    decreases |parts|
  {
    if |parts| > 1 {
      JoinKeepsAbsent(parts[1..], sep, c);
    }
  }

  /** `s.split(c)` for a single separator character. */
  function SplitOn(s: string, c: char): (r: seq<string>)
    ensures |r| >= 1
    decreases |s|
  {
    var head := BeforeFirst(s, c);
    if |head| == |s| then [s] else [head] + SplitOn(s[|head| + 1..], c)
  }

  /** Splitting undoes joining when no part contains the separator. */
  lemma {:induction false} SplitJoin(parts: seq<string>, c: char)
    requires |parts| >= 1
    requires forall k :: 0 <= k < |parts| ==> c !in parts[k]
    ensures SplitOn(Join(parts, [c]), c) == parts
  {
    if |parts| == 1 {
      BeforeFirstAbsent(parts[0], c);
    } else {
      var s := Join(parts, [c]);
      assert s == parts[0] + ([c] + Join(parts[1..], [c]));
      BeforeFirstPrefix(parts[0], [c] + Join(parts[1..], [c]), c);
      assert s[|parts[0]| + 1..] == Join(parts[1..], [c]);
      SplitJoin(parts[1..], c);
    }
  }

  lemma {:induction false} BeforeFirstAbsent(s: string, c: char)
    requires c !in s
    ensures BeforeFirst(s, c) == s
  {
    if s != [] {
      BeforeFirstAbsent(s[1..], c);
    }
  }

  lemma {:induction false} BeforeFirstPrefix(a: string, b: string, c: char)
    requires c !in a && b != [] && b[0] == c
    ensures BeforeFirst(a + b, c) == a
  {
    if a == [] {
      assert a + b == b;
    } else {
      assert (a + b)[1..] == a[1..] + b;
      BeforeFirstPrefix(a[1..], b, c);
    }
  }

  /** When `c` occurs in `a`, what follows `a` does not change the text before the first `c`. */
  lemma {:induction false} BeforeFirstExtend(a: string, b: string, c: char)
    requires c in a
    ensures BeforeFirst(a + b, c) == BeforeFirst(a, c)
  {
    if a[0] != c {
      assert (a + b)[1..] == a[1..] + b;
      BeforeFirstExtend(a[1..], b, c);
    }
  }

  /** A separator after a text without one ends the first part. */
  lemma SplitAbsent(a: string, b: string, c: char)
    requires c !in a
    ensures SplitOn(a + [c] + b, c) == [a] + SplitOn(b, c) && SplitOn(a, c) == [a]
  {
    var s := a + [c] + b;
    assert s == a + ([c] + b);
    BeforeFirstPrefix(a, [c] + b, c);
    BeforeFirstAbsent(a, c);
    assert s[|a| + 1..] == b;
  }

  /** A text with a separator gives the same first part whatever follows it. */
  lemma SplitPresent(a: string, b: string, c: char)
    requires c in a
    ensures var h := BeforeFirst(a, c);
      && |h| < |a|
      && SplitOn(a + [c] + b, c) == [h] + SplitOn(a[|h| + 1..] + [c] + b, c)
      && SplitOn(a, c) == [h] + SplitOn(a[|h| + 1..], c)
  {
    var s := a + [c] + b;
    var h := BeforeFirst(a, c);
    assert |h| < |a|;
    assert s == a + ([c] + b);
    BeforeFirstExtend(a, [c] + b, c);
    assert s[|h| + 1..] == a[|h| + 1..] + [c] + b;
  }

  /** Splitting at a separator placed between two texts splits each of them. */
  lemma {:induction false} SplitAppend(a: string, b: string, c: char)
    ensures SplitOn(a + [c] + b, c) == SplitOn(a, c) + SplitOn(b, c)
    decreases |a|
  {
    if c !in a {
      SplitAbsent(a, b, c);
    } else {
      SplitPresent(a, b, c);
      var h := BeforeFirst(a, c);
      var a' := a[|h| + 1..];
      SplitAppend(a', b, c);
      ConsAppend(h, SplitOn(a + [c] + b, c), SplitOn(a, c), SplitOn(a' + [c] + b, c), SplitOn(a', c), SplitOn(b, c));
    }
  }

  lemma ConsAppend<T>(h: T, whole: seq<T>, first: seq<T>, whole': seq<T>, first': seq<T>, rest: seq<T>)
    requires whole == [h] + whole' && first == [h] + first' && whole' == first' + rest
    ensures whole == first + rest
  {
    assert [h] + (first' + rest) == [h] + first' + rest;
  }

  /** Each part split at `c`, the pieces in order. */
  function SplitEach(parts: seq<string>, c: char): seq<string>
    decreases |parts|
  {
    if parts == [] then [] else SplitOn(parts[0], c) + SplitEach(parts[1..], c)
  }

  /** Splitting a joined text splits every part. */
  lemma {:induction false} SplitJoinEach(parts: seq<string>, c: char)
    requires |parts| >= 1
    ensures SplitOn(Join(parts, [c]), c) == SplitEach(parts, c)
    decreases |parts|
  {
    if |parts| == 1 {
      assert SplitEach(parts[1..], c) == [];
    } else {
      SplitAppend(parts[0], Join(parts[1..], [c]), c);
      SplitJoinEach(parts[1..], c);
    }
  }

  lemma {:induction false} SplitEachAppend(a: seq<string>, b: seq<string>, c: char)
    ensures SplitEach(a + b, c) == SplitEach(a, c) + SplitEach(b, c)
    decreases |a|
  {
    if a == [] {
      assert a + b == b;
    } else {
      assert (a + b)[0] == a[0];
      assert (a + b)[1..] == a[1..] + b;
      SplitEachAppend(a[1..], b, c);
    }
  }

  /** Parts without the separator come out as they are. */
  lemma {:induction false} SplitEachPlain(parts: seq<string>, c: char)
    requires forall k :: 0 <= k < |parts| ==> c !in parts[k]
    ensures SplitEach(parts, c) == parts
    decreases |parts|
  {
    if parts != [] {
      SplitJoin([parts[0]], c);
      SplitEachPlain(parts[1..], c);
    }
  }

  /** A text whose first character is not blank keeps it when stripped. */
  lemma StripHead(s: string)
    requires s != [] && !IsSpace(s[0])
    ensures Strip(s) != [] && Strip(s)[0] == s[0]
  {
    TrimEndKeepsHead(s);
  }

  lemma {:induction false} TrimEndKeepsHead(s: string)
    requires s != [] && !IsSpace(s[0])
    ensures TrimEnd(s) != [] && TrimEnd(s)[0] == s[0]
    decreases |s|
  {
    if IsSpace(s[|s| - 1]) {
      TrimEndKeepsHead(s[..|s| - 1]);
    }
  }

  /** No two `c` in a row. */
  predicate NoPair(s: string, c: char) {
    forall i, j :: 0 <= i < |s| && 0 <= j < |s| && j == i + 1 ==> !(s[i] == c && s[j] == c)
  }

  /** A text without a doubled `c` is left as it is by replacing `cc`. */
  lemma {:induction false} ReplacePairAbsent(s: string, c: char, rep: string)
    requires NoPair(s, c)
    ensures Replace(s, [c, c], rep) == s
    decreases |s|
  {
    if |s| >= 2 {
      assert s[..2] != [c, c] by { assert !(s[0] == c && s[1] == c); }
      assert NoPair(s[1..], c) by {
        forall i, j | 0 <= i < |s| - 1 && 0 <= j < |s| - 1 && j == i + 1
          ensures !(s[1..][i] == c && s[1..][j] == c)
        {
          assert s[1..][i] == s[i + 1] && s[1..][j] == s[j + 1];
        }
      }
      ReplacePairAbsent(s[1..], c, rep);
      assert [s[0]] + s[1..] == s;
    }
  }

  /** Replacing `cc` splits over a concatenation whose seam is not `cc`. */
  lemma {:induction false} ReplacePairAppend(a: string, b: string, c: char, rep: string)
    requires a == [] || b == [] || a[|a| - 1] != c || b[0] != c
    ensures Replace(a + b, [c, c], rep) == Replace(a, [c, c], rep) + Replace(b, [c, c], rep)
    decreases |a|
  {
    var s := a + b;
    if a == [] {
      assert s == b;
    } else if b == [] {
      assert s == a;
    } else if |a| == 1 {
      assert s[..2] == [a[0], b[0]];
      assert s[1..] == b;
    } else {
      assert s[..2] == a[..2];
      if a[..2] == [c, c] {
        assert s[2..] == a[2..] + b;
        ReplacePairAppend(a[2..], b, c, rep);
      } else {
        assert s[1..] == a[1..] + b;
        ReplacePairAppend(a[1..], b, c, rep);
      }
    }
  }

  /** Two texts without a doubled `c` whose seam is not `cc` make one. */
  lemma NoPairAppend(a: string, b: string, c: char)
    requires NoPair(a, c) && NoPair(b, c)
    requires a == [] || b == [] || a[|a| - 1] != c || b[0] != c
    ensures NoPair(a + b, c)
  {
    var s := a + b;
    forall i, j | 0 <= i < |s| && 0 <= j < |s| && j == i + 1
      ensures !(s[i] == c && s[j] == c)
    {
      if j < |a| {
        assert s[i] == a[i] && s[j] == a[j];
      } else if i >= |a| {
        assert s[i] == b[i - |a|] && s[j] == b[j - |a|];
      }
    }
  }
}

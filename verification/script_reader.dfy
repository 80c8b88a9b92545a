/** Reading a download script back: the aria2c commands it holds, the file each
    command writes and the header comments that name the model. A script is
    given as its lines without their line terminators, or `None` when it cannot
    be opened. */
module ScriptReader {
  import opened Text

  // ---------------------------------------------------------------------------
  // extract_aria2c_commands

  /** What the reader carries from line to line: the finished commands and the
      command being assembled, if any. */
  datatype Reader = Reader(commands: seq<string>, current: Option<string>)

  /** How a finished command is tidied: every backslash is removed, then each
      double blank becomes a single one. */
  function Clean(c: string): string {
    Replace(Replace(c, "\\", ""), "  ", " ")
  }

  /** A line that starts a new command once stripped. */
  predicate IsCommandStart(line: string) {
    StartsWith(Strip(line), "aria2c")
  }

  /** The commands finished so far, then the one being assembled. */
  function Finish(r: Reader): seq<string> {
    r.commands + (if r.current.Some? then [Clean(r.current.value)] else [])
  }

  /** One line of the loop: blank and comment lines are skipped; an `aria2c`
      line finishes the current command and starts a new one; any other line,
      once a command has started, is appended after a blank, without its
      trailing backslash if it has one. */
  function Feed(r: Reader, raw: string): Reader {
    var line := Strip(raw);
    if line == [] || StartsWith(line, "#") then r
    else if StartsWith(line, "aria2c") then
      Reader(r.commands + (if r.current.Some? then [Clean(r.current.value)] else []), Some(line))
    else if r.current.None? then r
    else if EndsWith(line, "\\") then Reader(r.commands, Some(r.current.value + " " + line[..|line| - 1]))
    else Reader(r.commands, Some(r.current.value + " " + line))
  }

  function FeedAll(r: Reader, lines: seq<string>): Reader
    decreases |lines|
  {
    if lines == [] then r else FeedAll(Feed(r, lines[0]), lines[1..])
  }

  /** The commands a script yields; an unreadable script yields none. */
  function Commands(file: Option<seq<string>>): seq<string> {
    match file
    case None => []
    case Some(lines) => Finish(FeedAll(Reader([], None), lines))
  }

  /** `extract_aria2c_commands`. */
  method ExtractAria2cCommands(file: Option<seq<string>>) returns (commands: seq<string>)
    ensures commands == Commands(file)
  {
    commands := [];
    if file.None? {
      return;
    }
    var lines := file.value;
    var current: Option<string> := None;
    var i := 0;
    while i < |lines|
      invariant 0 <= i <= |lines|
      invariant FeedAll(Reader(commands, current), lines[i..]) == FeedAll(Reader([], None), lines)
    {
      ghost var before := Reader(commands, current);
      var line := Strip(lines[i]);
      if line == [] || StartsWith(line, "#") {
      } else if StartsWith(line, "aria2c") {
        if current.Some? {
          commands := commands + [Clean(current.value)];
        }
        current := Some(line);
      } else if current.Some? && EndsWith(line, "\\") {
        current := Some(current.value + " " + line[..|line| - 1]);
      } else if current.Some? {
        current := Some(current.value + " " + line);
      }
      assert Reader(commands, current) == Feed(before, lines[i]);
      assert lines[i..][1..] == lines[i + 1..];
      i := i + 1;
    }
    assert lines[i..] == [];
    if current.Some? {
      commands := commands + [Clean(current.value)];
    }
  }

  /** The number of lines that start a command. */
  function CountStarts(lines: seq<string>): nat
    decreases |lines|
  {
    if lines == [] then 0 else (if IsCommandStart(lines[0]) then 1 else 0) + CountStarts(lines[1..])
  }

  lemma FeedCount(r: Reader, line: string)
    ensures |Finish(Feed(r, line))| == |Finish(r)| + (if IsCommandStart(line) then 1 else 0)
  {
    var s := Strip(line);
    if s == [] || StartsWith(s, "#") {
      assert !StartsWith(s, "aria2c");
    }
  }

  lemma {:induction false} FeedAllCount(r: Reader, lines: seq<string>)
    ensures |Finish(FeedAll(r, lines))| == |Finish(r)| + CountStarts(lines)
    decreases |lines|
  {
    if lines != [] {
      FeedCount(r, lines[0]);
      FeedAllCount(Feed(r, lines[0]), lines[1..]);
    }
  }

  /** Exactly one command per line that starts with `aria2c`. */
  lemma CommandCount(lines: seq<string>)
    ensures |Commands(Some(lines))| == CountStarts(lines)
  {
    FeedAllCount(Reader([], None), lines);
  }

  lemma {:induction false} FeedAllAppend(r: Reader, a: seq<string>, b: seq<string>)
    ensures FeedAll(r, a + b) == FeedAll(FeedAll(r, a), b)
    decreases |a|
  {
    if a == [] {
      assert a + b == b;
    } else {
      assert (a + b)[0] == a[0];
      assert (a + b)[1..] == a[1..] + b;
      FeedAllAppend(Feed(r, a[0]), a[1..], b);
    }
  }

  lemma {:induction false} FeedAllIdle(lines: seq<string>)
    requires forall k :: 0 <= k < |lines| ==> !IsCommandStart(lines[k])
    ensures FeedAll(Reader([], None), lines) == Reader([], None)
    decreases |lines|
  {
    if lines != [] {
      assert !IsCommandStart(lines[0]);
      assert Feed(Reader([], None), lines[0]) == Reader([], None);
      FeedAllIdle(lines[1..]);
    }
  }

  /** Lines in front of the first `aria2c` line are ignored. */
  lemma LeadingLinesIgnored(pre: seq<string>, lines: seq<string>)
    requires forall k :: 0 <= k < |pre| ==> !IsCommandStart(pre[k])
    ensures Commands(Some(pre + lines)) == Commands(Some(lines))
  {
    FeedAllAppend(Reader([], None), pre, lines);
    FeedAllIdle(pre);
  }

  /** A tidy command starts with `aria2c` and holds no backslash. */
  predicate IsTidy(c: string) {
    StartsWith(c, "aria2c") && '\\' !in c
  }

  predicate ReaderTidy(r: Reader) {
    && (forall k :: 0 <= k < |r.commands| ==> IsTidy(r.commands[k]))
    && (r.current.Some? ==> StartsWith(r.current.value, "aria2c"))
  }

  lemma CleanTidy(c: string)
    requires StartsWith(c, "aria2c")
    ensures IsTidy(Clean(c))
  {
    var t := c[6..];
    assert c == "aria2c" + t;
    ReplaceKeepsPrefix("aria2c", t, "\\", "");
    ReplaceKeepsPrefix("aria2c", Replace(t, "\\", ""), "  ", " ");
    assert StartsWith("aria2c" + Replace(Replace(t, "\\", ""), "  ", " "), "aria2c");
    ReplaceCharRemoves(c, '\\');
    assert "\\" == ['\\'];
    ReplaceKeepsAbsent(Replace(c, "\\", ""), "  ", " ", '\\');
  }

  lemma StartsWithExtend(a: string, b: string, p: string)
    requires StartsWith(a, p)
    ensures StartsWith(a + b, p)
  {
    assert (a + b)[..|p|] == a[..|p|];
  }

  lemma FeedTidy(r: Reader, line: string)
    requires ReaderTidy(r)
    ensures ReaderTidy(Feed(r, line))
  {
    var s := Strip(line);
    if s == [] || StartsWith(s, "#") {
    } else if StartsWith(s, "aria2c") {
      if r.current.Some? {
        CleanTidy(r.current.value);
      }
    } else if r.current.Some? {
      if EndsWith(s, "\\") {
        StartsWithExtend(r.current.value, " " + s[..|s| - 1], "aria2c");
        assert r.current.value + " " + s[..|s| - 1] == r.current.value + (" " + s[..|s| - 1]);
      } else {
        StartsWithExtend(r.current.value, " " + s, "aria2c");
        assert r.current.value + " " + s == r.current.value + (" " + s);
      }
    }
  }

  lemma {:induction false} FeedAllTidy(r: Reader, lines: seq<string>)
    requires ReaderTidy(r)
    ensures ReaderTidy(FeedAll(r, lines))
    decreases |lines|
  {
    if lines != [] {
      FeedTidy(r, lines[0]);
      FeedAllTidy(Feed(r, lines[0]), lines[1..]);
    }
  }

  /** Every command read from a script starts with `aria2c` and holds no backslash. */
  lemma CommandsTidy(file: Option<seq<string>>)
    ensures forall k :: 0 <= k < |Commands(file)| ==> IsTidy(Commands(file)[k])
  {
    if file.Some? {
      var r := FeedAll(Reader([], None), file.value);
      FeedAllTidy(Reader([], None), file.value);
      if r.current.Some? {
        CleanTidy(r.current.value);
      }
    }
  }

  /** A plain line after a command line is appended to it, although the command
      line did not end with a backslash. */
  lemma PlainLineAppended(cmd: string, other: string)
    requires StartsWith(Strip(cmd), "aria2c")
    requires Strip(other) != [] && !StartsWith(Strip(other), "#") && !StartsWith(Strip(other), "aria2c")
    requires !EndsWith(Strip(other), "\\")
    ensures Commands(Some([cmd, other])) == [Clean(Strip(cmd) + " " + Strip(other))]
  {
    var first := Feed(Reader([], None), cmd);
    assert first == Reader([], Some(Strip(cmd)));
    var second := Feed(first, other);
    assert second == Reader([], Some(Strip(cmd) + " " + Strip(other)));
    assert [cmd, other][1..] == [other];
    assert [other][1..] == [];
    assert FeedAll(Reader([], None), [cmd, other]) == FeedAll(first, [other]);
    assert FeedAll(first, [other]) == FeedAll(second, []);
  }

  // ---------------------------------------------------------------------------
  // extract_filename_from_command

  predicate IsQuote(c: char) { c == '"' || c == '\'' }

  predicate NotQuote(c: char) { !IsQuote(c) }

  /** The class `[^\s"\']`. */
  predicate IsUrlChar(c: char) { !IsSpace(c) && !IsQuote(c) }

  /** `(?:--out=|\s-o\s+)` anchored at the start of `s`; gives what follows it. */
  function OutFlagAt(s: string): Option<string> {
    if StartsWith(s, "--out=") then Some(s[6..])
    else if |s| >= 3 && IsSpace(s[0]) && s[1] == '-' && s[2] == 'o' then
      var gap := Span(s[3..], IsSpace);
      if gap.0 == [] then None else Some(gap.1)
    else None
  }

  /** `["\']([^"\']+)["\']` anchored at the start of `s`: the quoted text. Either
      quote character may close the value, whichever opened it. */
  function QuotedAt(s: string): Option<string> {
    if s == [] || !IsQuote(s[0]) then None
    else
      var body := Span(s[1..], NotQuote);
      if body.0 == [] || body.1 == [] then None else Some(body.0)
  }

  function OutputAt(s: string): Option<string> {
    match OutFlagAt(s)
    case None => None
    case Some(r) => QuotedAt(r)
  }

  /** The leftmost match of the output-name pattern. */
  function FindOutput(s: string): Option<string>
    decreases |s|
  {
    match OutputAt(s)
    case Some(n) => Some(n)
    case None => if s == [] then None else FindOutput(s[1..])
  }

  /** `https?://[^\s"\']+` anchored at the start of `s`. */
  function UrlAt(s: string): Option<string> {
    var n := if StartsWith(s, "https://") then 8 else if StartsWith(s, "http://") then 7 else 0;
    if n == 0 then None
    else
      var body := Span(s[n..], IsUrlChar);
      if body.0 == [] then None else Some(s[..n] + body.0)
  }

  /** The leftmost http(s) URL. */
  function FindUrl(s: string): Option<string>
    decreases |s|
  {
    match UrlAt(s)
    case Some(u) => Some(u)
    case None => if s == [] then None else FindUrl(s[1..])
  }

  /** The last path segment of a URL without its query. */
  function UrlFileName(url: string): (r: string)
    ensures '/' !in r && '?' !in r
    ensures exists k :: 0 <= k <= |url| && StartsWith(url[k..], r)
  {
    var seg := AfterLast(url, '/');
    AfterLastOf(url, '/');
    var r := BeforeFirst(seg, '?');
    assert StartsWith(url[|url| - |seg|..], r);
    r
  }

  /** `extract_filename_from_command`; `None` stands for a value that is not a string. */
  function ExtractFilename(cmd: Option<string>): (r: Option<string>)
    ensures r.Some? ==> cmd.Some? && forall k :: 0 <= k < |r.value| ==> !IsQuote(r.value[k])
  {
    if cmd.None? then None
    else
      match FindOutput(cmd.value)
      case Some(n) => QuoteFree(cmd.value); Some(n)
      case None =>
        match FindUrl(cmd.value)
        case Some(u) => UrlQuoteFree(cmd.value); Some(UrlFileName(u))
        case None => None
  }

  lemma {:induction false} QuoteFree(s: string)
    ensures FindOutput(s).Some? ==> forall k :: 0 <= k < |FindOutput(s).value| ==> !IsQuote(FindOutput(s).value[k])
    decreases |s|
  {
    if OutputAt(s).None? && s != [] {
      QuoteFree(s[1..]);
    }
  }

  lemma {:induction false} UrlQuoteFree(s: string)
    ensures FindUrl(s).Some? ==> forall k :: 0 <= k < |FindUrl(s).value| ==> !IsQuote(FindUrl(s).value[k])
    decreases |s|
  {
    if UrlAt(s).None? {
      if s != [] {
        UrlQuoteFree(s[1..]);
      }
    } else {
      var n := if StartsWith(s, "https://") then 8 else 7;
      assert s[..n] == "https://" || s[..n] == "http://";
    }
  }

  /** The URL found is a non-empty piece of the text. */
  lemma {:induction false} FindUrlIn(s: string)
    ensures FindUrl(s).Some? ==> FindUrl(s).value != [] && Contains(s, FindUrl(s).value)
    decreases |s|
  {
    match UrlAt(s)
    case Some(u) =>
      var n := if StartsWith(s, "https://") then 8 else 7;
      var body := Span(s[n..], IsUrlChar);
      assert u == s[..n] + body.0;
      assert s[..|u|] == u;
    case None =>
      if s != [] {
        FindUrlIn(s[1..]);
      }
  }

  /** A stretch without any dash cannot start an output flag, as long as what
      follows it does not start with `-o`. */
  lemma {:induction false} SkipNoDash(p: string, s: string)
    requires '-' !in p
    requires !(|s| >= 2 && s[0] == '-' && s[1] == 'o')
    ensures FindOutput(p + s) == FindOutput(s)
    decreases |p|
  {
    if p != [] {
      var t := p + s;
      assert t[0] == p[0];
      assert OutFlagAt(t) == None by {
        assert t[0] != '-';
        if |t| >= 3 && t[1] == '-' {
          assert |p| == 1 && t[1..] == s;
        }
      }
      assert t[1..] == p[1..] + s;
      SkipNoDash(p[1..], s);
    } else {
      assert p + s == s;
    }
  }

  /** A short option other than `-o` is skipped. */
  lemma SkipShortOption(c: char, s: string)
    requires c != '-' && c != 'o' && !IsSpace(c)
    ensures FindOutput(['-', c] + s) == FindOutput(s)
  {
    var t := ['-', c] + s;
    assert t[1..] == [c] + s;
    assert ([c] + s)[1..] == s;
    assert !StartsWith(t, "--out=") by { assert t[1] != '-'; }
    assert !StartsWith([c] + s, "--out=") by { assert ([c] + s)[0] != '-'; }
  }

  lemma OutFlagOf(q: string)
    requires q != [] && !IsSpace(q[0])
    ensures OutFlagAt(" -o " + q) == Some(q)
  {
    var s := " -o " + q;
    assert s[3..] == " " + q;
    SpanOf(" ", q, IsSpace);
  }

  lemma QuotedOf(name: string, rest: string)
    requires name != [] && forall k :: 0 <= k < |name| ==> !IsQuote(name[k])
    ensures QuotedAt("\"" + (name + ("\"" + rest))) == Some(name)
  {
    var q := "\"" + (name + ("\"" + rest));
    assert q[1..] == name + ("\"" + rest);
    SpanOf(name, "\"" + rest, NotQuote);
  }

  /** ` -o "<name>"` is recognised and gives the name. */
  lemma OutputFlagOf(name: string, rest: string)
    requires name != [] && forall k :: 0 <= k < |name| ==> !IsQuote(name[k])
    ensures FindOutput(" -o \"" + (name + ("\"" + rest))) == Some(name)
  {
    var q := "\"" + (name + ("\"" + rest));
    assert " -o \"" + (name + ("\"" + rest)) == " -o " + q;
    OutFlagOf(q);
    QuotedOf(name, rest);
  }

  // ---------------------------------------------------------------------------
  // What the search for an output name finds, over every command

  /** A flag the output-name pattern accepts: `--out=`, or a whitespace
      character, `-o` and at least one more whitespace character. */
  predicate IsOutFlag(f: string) {
    || f == "--out="
    || (&& |f| >= 4 && IsSpace(f[0]) && f[1] == '-' && f[2] == 'o'
        && forall k :: 3 <= k < |f| ==> IsSpace(f[k]))
  }

  /** `r` opens with a quote, then the non-empty quote-free `n`, then a quote. */
  predicate QuotedText(r: string, n: string) {
    && n != []
    && (forall k :: 0 <= k < |n| ==> !IsQuote(n[k]))
    && |n| + 2 <= |r|
    && IsQuote(r[0])
    && r[1..|n| + 1] == n
    && IsQuote(r[|n| + 1])
  }

  /** `t` begins with the output flag `f` followed by the quoted name `n`. */
  predicate OutputWritten(t: string, f: string, n: string) {
    IsOutFlag(f) && |f| <= |t| && t[..|f|] == f && QuotedText(t[|f|..], n)
  }

  /** No position of `s` before `i` starts an output flag with a quoted name. */
  ghost predicate NoOutputBefore(s: string, i: int) {
    forall j, f, n :: 0 <= j < i && j <= |s| ==> !OutputWritten(s[j..], f, n)
  }

  /** No position of `s` starts an output flag with a quoted name. */
  ghost predicate NoOutputIn(s: string) {
    NoOutputBefore(s, |s| + 1)
  }

  /** The anchored quoted-value matcher accepts exactly a quoted quote-free name. */
  lemma QuotedAtIff(r: string, n: string)
    ensures QuotedAt(r) == Some(n) <==> QuotedText(r, n)
  {
    if QuotedAt(r) == Some(n) {
      var body := Span(r[1..], NotQuote);
      assert r[1..] == n + body.1;
      assert r[1..|n| + 1] == n;
      assert r[|n| + 1] == body.1[0];
    }
    if QuotedText(r, n) {
      assert r[1..] == n + r[|n| + 1..];
      SpanOf(n, r[|n| + 1..], NotQuote);
    }
  }

  /** The flag the anchored flag matcher consumed. */
  lemma OutFlagFound(t: string) returns (f: string)
    requires OutFlagAt(t).Some?
    ensures IsOutFlag(f) && |f| <= |t| && t[..|f|] == f && OutFlagAt(t) == Some(t[|f|..])
  {
    if StartsWith(t, "--out=") {
      f := "--out=";
    } else {
      var gap := Span(t[3..], IsSpace);
      f := t[..3 + |gap.0|];
      assert t[3..] == gap.0 + gap.1;
      assert gap.1 == t[|f|..];
      assert forall k :: 3 <= k < |f| ==> f[k] == gap.0[k - 3];
    }
  }

  /** A flag followed by a non-space character is matched whole. */
  lemma OutFlagWritten(t: string, f: string)
    requires IsOutFlag(f) && |f| < |t| && t[..|f|] == f && !IsSpace(t[|f|])
    ensures OutFlagAt(t) == Some(t[|f|..])
  {
    if f != "--out=" {
      assert t[0] == f[0] && t[1] == f[1] && t[2] == f[2];
      assert !StartsWith(t, "--out=") by { assert t[0] != '-'; }
      assert t[3..] == f[3..] + t[|f|..];
      SpanOf(f[3..], t[|f|..], IsSpace);
    }
  }

  /** The anchored output matcher accepts exactly a flag and a quoted name. */
  lemma OutputAtIff(t: string, n: string)
    ensures OutputAt(t) == Some(n) <==> exists f :: OutputWritten(t, f, n)
  {
    if OutputAt(t) == Some(n) {
      var f := OutFlagFound(t);
      QuotedAtIff(t[|f|..], n);
      assert OutputWritten(t, f, n);
    }
    if exists f :: OutputWritten(t, f, n) {
      var f :| OutputWritten(t, f, n);
      assert t[|f|] == t[|f|..][0];
      OutFlagWritten(t, f);
      QuotedAtIff(t[|f|..], n);
    }
  }

  lemma OutputAtFound(t: string)
    ensures OutputAt(t).Some? ==> exists f :: OutputWritten(t, f, OutputAt(t).value)
  {
    if OutputAt(t).Some? {
      OutputAtIff(t, OutputAt(t).value);
    }
  }

  /** A match at `i` with none before it is what the search gives. */
  lemma {:induction false} FindOutputAt(s: string, i: nat)
    requires i <= |s| && OutputAt(s[i..]).Some?
    requires forall j :: 0 <= j < i ==> OutputAt(s[j..]).None?
    ensures FindOutput(s) == OutputAt(s[i..])
    decreases i
  {
    assert s[0..] == s;
    if i > 0 {
      assert OutputAt(s[0..]).None?;
      forall j | 0 <= j < i - 1
        ensures OutputAt(s[1..][j..]).None?
      {
        assert s[1..][j..] == s[j + 1..];
      }
      assert s[1..][i - 1..] == s[i..];
      FindOutputAt(s[1..], i - 1);
    }
  }

  /** The position of the match the search gives. */
  lemma {:induction false} FindOutputWhere(s: string) returns (i: nat)
    requires FindOutput(s).Some?
    ensures i <= |s| && OutputAt(s[i..]) == FindOutput(s)
    ensures forall j :: 0 <= j < i ==> OutputAt(s[j..]).None?
    decreases |s|
  {
    if OutputAt(s).Some? {
      i := 0;
      assert s[0..] == s;
    } else {
      var i' := FindOutputWhere(s[1..]);
      i := i' + 1;
      assert s[1..][i'..] == s[i..];
      forall j | 0 <= j < i
        ensures OutputAt(s[j..]).None?
      {
        if j == 0 {
          assert s[0..] == s;
        } else {
          assert s[1..][j - 1..] == s[j..];
        }
      }
    }
  }

  lemma {:induction false} FindOutputNoneAt(s: string)
    requires FindOutput(s).None?
    ensures forall j :: 0 <= j <= |s| ==> OutputAt(s[j..]).None?
    decreases |s|
  {
    assert s[0..] == s;
    if s != [] {
      FindOutputNoneAt(s[1..]);
      forall j | 1 <= j <= |s|
        ensures OutputAt(s[j..]).None?
      {
        assert s[1..][j - 1..] == s[j..];
      }
    }
  }

  /** The search gives `n` exactly when some position starts a flag followed by
      the quoted `n` and no earlier position starts a flag with a quoted name:
      the leftmost match of the pattern. */
  lemma FindOutputFirst(s: string, n: string)
    ensures FindOutput(s) == Some(n) <==>
      exists i, f :: 0 <= i <= |s| && OutputWritten(s[i..], f, n) && NoOutputBefore(s, i)
  {
    if FindOutput(s) == Some(n) {
      var i := FindOutputWhere(s);
      OutputAtIff(s[i..], n);
      var f :| OutputWritten(s[i..], f, n);
      forall j, g, m | 0 <= j < i && j <= |s|
        ensures !OutputWritten(s[j..], g, m)
      {
        OutputAtIff(s[j..], m);
      }
      assert NoOutputBefore(s, i);
    }
    if exists i, f :: 0 <= i <= |s| && OutputWritten(s[i..], f, n) && NoOutputBefore(s, i) {
      var i, f :| 0 <= i <= |s| && OutputWritten(s[i..], f, n) && NoOutputBefore(s, i);
      OutputAtIff(s[i..], n);
      forall j | 0 <= j < i
        ensures OutputAt(s[j..]).None?
      {
        OutputAtFound(s[j..]);
      }
      FindOutputAt(s, i);
    }
  }

  /** The search gives nothing exactly when no position starts a flag followed
      by a quoted name. */
  lemma FindOutputNone(s: string)
    ensures FindOutput(s) == None <==> NoOutputIn(s)
  {
    if FindOutput(s).None? {
      FindOutputNoneAt(s);
      forall j, f, n | 0 <= j <= |s|
        ensures !OutputWritten(s[j..], f, n)
      {
        OutputAtIff(s[j..], n);
      }
    } else {
      var i := FindOutputWhere(s);
      OutputAtFound(s[i..]);
    }
  }

  /** Text that starts with a flag and a quoted name, after any text `p` in which
      no match starts: the name is found, whatever `p` holds. */
  lemma OutputFlagAfter(p: string, t: string, f: string, n: string)
    requires OutputWritten(t, f, n) && NoOutputBefore(p + t, |p|)
    ensures FindOutput(p + t) == Some(n)
  {
    assert (p + t)[|p|..] == t;
    FindOutputFirst(p + t, n);
  }

  /** A command with an output flag is named by the leftmost flag's value. */
  lemma ExtractFromOutput(c: string, i: nat, f: string, n: string)
    requires i <= |c| && OutputWritten(c[i..], f, n) && NoOutputBefore(c, i)
    ensures ExtractFilename(Some(c)) == Some(n)
  {
    FindOutputFirst(c, n);
  }

  /** A command without any output flag is named after the last path segment of
      its leftmost URL, and has no name when it holds no URL either. */
  lemma ExtractFromUrl(c: string)
    requires NoOutputIn(c)
    ensures FindUrl(c).Some? ==> ExtractFilename(Some(c)) == Some(UrlFileName(FindUrl(c).value))
    ensures FindUrl(c).None? ==> ExtractFilename(Some(c)) == None
  {
    FindOutputNone(c);
  }

  // ---------------------------------------------------------------------------
  // parse_script_header

  datatype Header = Header(name: string, description: string, requiresToken: bool)

  const ModelTag: string := "# Model:"
  const DescriptionTag: string := "# Description:"
  const TokenTag: string := "# Requires-HF-Token:"

  /** The value of a tagged line: the stripped line with every occurrence of the
      tag removed, stripped again. */
  function TagValue(line: string, tag: string): string
    requires tag != []
  {
    Strip(Replace(Strip(line), tag, ""))
  }

  /** The value of the last line tagged `tag`, if any. */
  function LastValue(lines: seq<string>, tag: string): Option<string>
    requires tag != []
    decreases |lines|
  {
    if lines == [] then None
    else if StartsWith(Strip(lines[|lines| - 1]), tag) then Some(TagValue(lines[|lines| - 1], tag))
    else LastValue(lines[..|lines| - 1], tag)
  }

  /** The name made from the script's file name: `download_` and `.sh` removed,
      underscores turned into blanks, then title-cased. */
  function FallbackName(path: string): string {
    Title(Replace(Replace(Replace(Basename(path), "download_", ""), ".sh", ""), "_", " "))
  }

  /** What the header of a script says: the last `# Model:` line names the model
      unless its value is empty, the last `# Description:` line describes it and
      the last `# Requires-HF-Token:` line decides the token flag. */
  function HeaderOf(path: string, file: Option<seq<string>>): Header {
    match file
    case None => Header(FallbackName(path), "", false)
    case Some(lines) =>
      var name := LastValue(lines, ModelTag);
      var description := LastValue(lines, DescriptionTag);
      var token := LastValue(lines, TokenTag);
      Header(if name.None? || name.value == [] then FallbackName(path) else name.value,
             if description.Some? then description.value else "",
             token.Some? && Lower(token.value) == "true")
  }

  lemma LastValueStep(lines: seq<string>, i: nat, tag: string)
    requires tag != [] && i < |lines|
    ensures LastValue(lines[..i + 1], tag)
         == if StartsWith(Strip(lines[i]), tag) then Some(Strip(Replace(Strip(lines[i]), tag, ""))) else LastValue(lines[..i], tag)
  {
    assert lines[..i + 1][..i] == lines[..i];
    assert lines[..i + 1][i] == lines[i];
  }

  /** The name, description and token flag the header loop holds after `lines`. */
  function HeaderSoFar(lines: seq<string>): (Option<string>, string, bool) {
    var d := LastValue(lines, DescriptionTag);
    var t := LastValue(lines, TokenTag);
    (LastValue(lines, ModelTag), if d.Some? then d.value else "", t.Some? && Lower(t.value) == "true")
  }

  lemma HeaderSoFarStep(lines: seq<string>, i: nat, name: Option<string>, description: string, requiresToken: bool)
    requires i < |lines| && HeaderSoFar(lines[..i]) == (name, description, requiresToken)
    ensures HeaderSoFar(lines[..i + 1])
         == (if StartsWith(Strip(lines[i]), ModelTag) then Some(TagValue(lines[i], ModelTag)) else name,
             if StartsWith(Strip(lines[i]), DescriptionTag) then TagValue(lines[i], DescriptionTag) else description,
             if StartsWith(Strip(lines[i]), TokenTag) then Lower(TagValue(lines[i], TokenTag)) == "true" else requiresToken)
  {
    LastValueStep(lines, i, ModelTag);
    LastValueStep(lines, i, DescriptionTag);
    LastValueStep(lines, i, TokenTag);
  }

  lemma HeaderOfSoFar(path: string, lines: seq<string>, name: Option<string>, description: string, requiresToken: bool)
    requires HeaderSoFar(lines[..|lines|]) == (name, description, requiresToken)
    ensures HeaderOf(path, Some(lines))
         == Header(if name.None? || name.value == [] then FallbackName(path) else name.value, description, requiresToken)
  {
    assert lines[..|lines|] == lines;
  }

  /** The three tags exclude each other. */
  lemma TagsExclusive(s: string)
    ensures StartsWith(s, ModelTag) ==> !StartsWith(s, DescriptionTag) && !StartsWith(s, TokenTag)
    ensures StartsWith(s, DescriptionTag) ==> !StartsWith(s, TokenTag)
  {
    if StartsWith(s, ModelTag) {
      assert s[2] == 'M';
    }
    if StartsWith(s, DescriptionTag) {
      assert s[2] == 'D';
    }
    if StartsWith(s, TokenTag) {
      assert s[2] == 'R';
    }
  }

  /** One line of the header loop: a tagged line replaces the value of its tag. */
  method ReadHeaderLine(raw: string, name: Option<string>, description: string, requiresToken: bool)
    returns (name': Option<string>, description': string, requiresToken': bool)
    ensures name' == if StartsWith(Strip(raw), ModelTag) then Some(TagValue(raw, ModelTag)) else name
    ensures description' == if StartsWith(Strip(raw), DescriptionTag) then TagValue(raw, DescriptionTag) else description
    ensures requiresToken' == if StartsWith(Strip(raw), TokenTag) then Lower(TagValue(raw, TokenTag)) == "true" else requiresToken
  {
    var line := Strip(raw);
    TagsExclusive(line);
    name', description', requiresToken' := name, description, requiresToken;
    if StartsWith(line, ModelTag) {
      name' := Some(Strip(Replace(line, ModelTag, "")));
    } else if StartsWith(line, DescriptionTag) {
      description' := Strip(Replace(line, DescriptionTag, ""));
    } else if StartsWith(line, TokenTag) {
      requiresToken' := Lower(Strip(Replace(line, TokenTag, ""))) == "true";
    }
  }

  /** `parse_script_header`, reading the lines front to back. */
  method ParseScriptHeader(path: string, file: Option<seq<string>>) returns (h: Header)
    ensures h == HeaderOf(path, file)
  {
    if file.None? {
      return Header(FallbackName(path), "", false);
    }
    var lines := file.value;
    var name: Option<string> := None;
    var description := "";
    var requiresToken := false;
    var i := 0;
    while i < |lines|
      invariant 0 <= i <= |lines|
      invariant HeaderSoFar(lines[..i]) == (name, description, requiresToken)
    {
      HeaderSoFarStep(lines, i, name, description, requiresToken);
      name, description, requiresToken := ReadHeaderLine(lines[i], name, description, requiresToken);
      i := i + 1;
    }
    HeaderOfSoFar(path, lines, name, description, requiresToken);
    h := Header(if name.None? || name.value == [] then FallbackName(path) else name.value, description, requiresToken);
  }
}

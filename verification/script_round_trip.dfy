/** A script written by the HuggingFace generator, read back by the control
    panel: splitting the script text into lines and running the command reader
    over them gives one single-line aria2c command per selected file, in order,
    each naming that file's basename as its output, with the closing `echo`
    glued onto the last one (the reader keeps appending non-command lines to
    the command it is assembling). */
module ScriptRoundTrip {
  import opened Text
  import opened ScriptReader
  import opened HfScriptGen

  // ---------------------------------------------------------------------------
  // The pieces of a generated command

  const CommandHead: string := "aria2c -x 16 -s 16 -d \""
  const RenameFlag: string := " --auto-file-renaming=false"
  const GetFlag: string := " --conditional-get=true"

  /** `aria2c ... -d "<models dir>"` */
  function DirPart(): string {
    CommandHead + ModelsDir + "\""
  }

  /** `-o "<name>" --auto-file-renaming=false --conditional-get=true` */
  function NameFlags(name: string): string {
    "-o \"" + name + "\"" + RenameFlag + GetFlag
  }

  /** The URL in double quotes. */
  function QuotedUrl(url: string): string {
    "\"" + url + "\""
  }

  /** The first physical line of a command. */
  function FirstLine(): string {
    DirPart() + " \\"
  }

  /** The second physical line: the output name. */
  function NameLine(name: string): string {
    "    " + NameFlags(name) + " \\"
  }

  /** The third physical line: the URL. */
  function UrlLine(url: string): string {
    "    " + QuotedUrl(url)
  }

  /** The command the reader assembles from those three lines, before cleaning. */
  function Raw(name: string, url: string): string {
    FirstLine() + " " + (NameFlags(name) + " ") + " " + QuotedUrl(url)
  }

  /** The cleaned one-line command for a file. */
  function Expected(name: string, url: string): string {
    DirPart() + " " + NameFlags(name) + " " + QuotedUrl(url)
  }

  /** Text Python's text-mode reading keeps on one line: it breaks lines at a
      carriage return as well as at a line feed. */
  predicate NoBreak(s: string) {
    '\n' !in s && '\r' !in s
  }

  /** Text the reader and the splitter leave alone: no line break, no backslash and
      no double blank. */
  predicate Plain(s: string) {
    NoBreak(s) && '\\' !in s && NoPair(s, ' ')
  }

  /** What a file must look like for its command to be read back unchanged. */
  predicate FileFits(repo: string, path: string, hubUrl: (string, string) -> string) {
    var name := Basename(path);
    && NoBreak(path)
    && name != [] && Plain(name) && (forall k :: 0 <= k < |name| ==> !IsQuote(name[k]))
    && Plain(hubUrl(repo, path))
  }

  predicate ScriptFits(repo: string, files: seq<string>, modelName: Option<string>, hubUrl: (string, string) -> string) {
    && NoBreak(repo)
    && NoBreak(DisplayName(repo, modelName))
    && AllFit(repo, files, hubUrl)
  }

  /** The cleaned commands of `files`, in order. */
  function ExpectedAll(repo: string, files: seq<string>, hubUrl: (string, string) -> string): seq<string>
    decreases |files|
  {
    if files == [] then []
    else [Expected(Basename(files[0]), hubUrl(repo, files[0]))] + ExpectedAll(repo, files[1..], hubUrl)
  }

  // ---------------------------------------------------------------------------
  // From the script text to its physical lines

  lemma FirstLineBreak()
    ensures "aria2c -x 16 -s 16 -d \"" + ModelsDir + "\" \\\n" == FirstLine() + "\n"
  {
  }

  lemma NameLineBreak(name: string)
    ensures "    -o \"" + name + "\"" + " --auto-file-renaming=false" + " --conditional-get=true" + " \\\n"
      == NameLine(name) + "\n"
  {
    assert " \\\n" == " \\" + "\n";
  }

  /** The command text is three physical lines. */
  lemma CommandLines(name: string, url: string)
    ensures CommandText(name, url) == Join([FirstLine(), NameLine(name), UrlLine(url)], "\n")
  {
    CommandTextParts(name, url);
    FirstLineBreak();
    NameLineBreak(name);
    JoinThree(FirstLine(), NameLine(name), UrlLine(url), "\n");
  }

  /** The command text as its three newline-terminated pieces. */
  lemma CommandTextParts(name: string, url: string)
    ensures CommandText(name, url)
      == ("aria2c -x 16 -s 16 -d \"" + ModelsDir + "\" \\\n")
       + ("    -o \"" + name + "\"" + " --auto-file-renaming=false" + " --conditional-get=true" + " \\\n")
       + ("    \"" + url + "\"")
  {
  }

  lemma JoinThree(a: string, b: string, c: string, sep: string)
    ensures Join([a, b, c], sep) == (a + sep) + (b + sep) + c
  {
    assert [b, c][1..] == [c];
    assert Join([b, c], sep) == b + sep + c;
    assert [a, b, c][1..] == [b, c];
    assert Join([a, b, c], sep) == a + sep + (b + sep + c);
    assert (a + sep) + (b + sep) + c == a + sep + (b + sep + c);
  }

  lemma CommandPartsPlain(name: string, url: string)
    requires '\n' !in name && '\n' !in url
    ensures '\n' !in FirstLine() && '\n' !in NameLine(name) && '\n' !in UrlLine(url)
  {
    FirstLinePlain();
    NameLinePlain(name);
  }

  lemma FirstLinePlain()
    ensures '\n' !in FirstLine()
  {
    assert '\n' !in CommandHead;
  }

  lemma NameLinePlain(name: string)
    requires '\n' !in name
    ensures '\n' !in NameLine(name)
  {
    assert '\n' !in RenameFlag + GetFlag;
  }

  /** Three parts without the separator come back from their join. */
  lemma SplitJoinThree(a: string, b: string, d: string, c: char)
    requires c !in a && c !in b && c !in d
    ensures SplitOn(Join([a, b, d], [c]), c) == [a, b, d]
  {
    SplitJoin([a, b, d], c);
  }

  lemma CommandSplit(name: string, url: string)
    requires '\n' !in name && '\n' !in url
    ensures SplitOn(CommandText(name, url), '\n') == [FirstLine(), NameLine(name), UrlLine(url)]
  {
    CommandLines(name, url);
    CommandPartsPlain(name, url);
    SplitJoinThree(FirstLine(), NameLine(name), UrlLine(url), '\n');
  }

  /** A comment line, a text split into `lines`, and a blank line. */
  lemma SplitBlockOf(comment: string, text: string, lines: seq<string>)
    requires '\n' !in comment && SplitOn(text, '\n') == lines
    ensures SplitEach([comment, text, ""], '\n') == [comment] + lines + [""]
  {
    SplitEachAppend([comment], [text] + [""], '\n');
    SplitEachAppend([text], [""], '\n');
    SplitEachPlain([comment], '\n');
    SplitEachPlain([""], '\n');
    assert [comment, text, ""] == [comment] + ([text] + [""]);
    assert SplitEach([text], '\n') == lines + SplitEach([], '\n');
  }

  /** The physical lines of one file's block. */
  lemma BlockSplit(repo: string, path: string, hubUrl: (string, string) -> string)
    requires FileFits(repo, path, hubUrl)
    ensures SplitEach(Block(repo, path, hubUrl), '\n')
      == ["# Download " + path, FirstLine(), NameLine(Basename(path)), UrlLine(hubUrl(repo, path)), ""]
  {
    var name := Basename(path);
    var url := hubUrl(repo, path);
    CommandSplit(name, url);
    assert '\n' !in "# Download " + path;
    SplitBlockOf("# Download " + path, CommandText(name, url), [FirstLine(), NameLine(name), UrlLine(url)]);
  }
  // ---------------------------------------------------------------------------
  // The reader over one block

  lemma FeedComment(r: Reader, path: string)
    ensures Feed(r, "# Download " + path) == r
  {
    StripHead("# Download " + path);
  }

  lemma FeedBlank(r: Reader)
    ensures Feed(r, "") == r
  {
  }

  lemma FirstLineFacts()
    ensures FirstLine() != [] && FirstLine()[0] == 'a' && FirstLine()[|FirstLine()| - 1] == '\\'
    ensures StartsWith(FirstLine(), "aria2c")
  {
    assert FirstLine()[..6] == CommandHead[..6];
  }

  lemma CommandNotComment(line: string)
    requires StartsWith(line, "aria2c")
    ensures line != [] && line[0] == 'a' && !StartsWith(line, "#")
  {
    assert line[0] == line[..6][0] == "aria2c"[0];
    assert !StartsWith(line, "#") by {
      assert line[..1][0] == line[0];
    }
  }

  /** A line that strips to an `aria2c` command starts a new command. */
  lemma FeedStart(r: Reader, line: string)
    requires Strip(line) == line && StartsWith(line, "aria2c")
    ensures Feed(r, line) == Reader(Finish(r), Some(line))
  {
    CommandNotComment(line);
  }

  /** A line that strips to `m`, neither a comment nor a command, continues the
      command in progress. */
  lemma FeedJoin(cs: seq<string>, cur: string, raw: string, m: string)
    requires Strip(raw) == m && m != [] && m[0] != '#' && m[0] != 'a'
    ensures Feed(Reader(cs, Some(cur)), raw)
      == Reader(cs, Some(cur + " " + (if EndsWith(m, "\\") then m[..|m| - 1] else m)))
  {
  }

  lemma FeedFirst(r: Reader)
    ensures Feed(r, FirstLine()) == Reader(Finish(r), Some(FirstLine()))
  {
    FirstLineFacts();
    StripNoop(FirstLine());
    FeedStart(r, FirstLine());
  }

  lemma NameLineFacts(name: string)
    ensures NameFlags(name) != [] && NameFlags(name)[0] == '-'
    ensures NameLine(name) == "    " + (NameFlags(name) + " \\") + ""
  {
  }

  /** An indented line ending in a backslash continues the current command. */
  lemma FeedContinued(cs: seq<string>, cur: string, body: string)
    requires body != [] && body[0] == '-'
    ensures Feed(Reader(cs, Some(cur)), "    " + (body + " \\") + "") == Reader(cs, Some(cur + " " + (body + " ")))
  {
    var m := body + " \\";
    assert m[0] == '-' && m[|m| - 1] == '\\';
    StripOf("    ", m, "");
    FeedJoin(cs, cur, "    " + m + "", m);
    assert m[..|m| - 1] == body + " ";
  }

  lemma FeedName(cs: seq<string>, cur: string, name: string)
    ensures Feed(Reader(cs, Some(cur)), NameLine(name)) == Reader(cs, Some(cur + " " + (NameFlags(name) + " ")))
  {
    NameLineFacts(name);
    FeedContinued(cs, cur, NameFlags(name));
  }

  lemma FeedUrl(cs: seq<string>, cur: string, url: string)
    ensures Feed(Reader(cs, Some(cur)), UrlLine(url)) == Reader(cs, Some(cur + " " + QuotedUrl(url)))
  {
    var m := QuotedUrl(url);
    assert UrlLine(url) == "    " + m + "";
    assert m[0] == '"' && m[|m| - 1] == '"';
    StripOf("    ", m, "");
    FeedJoin(cs, cur, UrlLine(url), m);
  }

  lemma FeedFive(r: Reader, a: string, b: string, c: string, d: string, e: string)
    ensures FeedAll(r, [a, b, c, d, e]) == Feed(Feed(Feed(Feed(Feed(r, a), b), c), d), e)
  {
    var r1 := Feed(r, a);
    var r2 := Feed(r1, b);
    var r3 := Feed(r2, c);
    var r4 := Feed(r3, d);
    assert FeedAll(r4, [e]) == Feed(r4, e) by { assert [e][1..] == []; }
    assert FeedAll(r3, [d, e]) == FeedAll(r4, [e]) by { assert [d, e][1..] == [e]; }
    assert FeedAll(r2, [c, d, e]) == FeedAll(r3, [d, e]) by { assert [c, d, e][1..] == [d, e]; }
    assert FeedAll(r1, [b, c, d, e]) == FeedAll(r2, [c, d, e]) by { assert [b, c, d, e][1..] == [c, d, e]; }
    assert FeedAll(r, [a, b, c, d, e]) == FeedAll(r1, [b, c, d, e]) by { assert [a, b, c, d, e][1..] == [b, c, d, e]; }
  }

  /** One file's block finishes the command in progress and leaves that file's
      command being assembled. */
  lemma FeedBlock(r: Reader, repo: string, path: string, hubUrl: (string, string) -> string)
    requires FileFits(repo, path, hubUrl)
    ensures FeedAll(r, SplitEach(Block(repo, path, hubUrl), '\n'))
      == Reader(Finish(r), Some(Raw(Basename(path), hubUrl(repo, path))))
  {
    var name := Basename(path);
    var url := hubUrl(repo, path);
    BlockSplit(repo, path, hubUrl);
    FeedFive(r, "# Download " + path, FirstLine(), NameLine(name), UrlLine(url), "");
    FeedComment(r, path);
    FeedFirst(r);
    FeedName(Finish(r), FirstLine(), name);
    FeedUrl(Finish(r), FirstLine() + " " + (NameFlags(name) + " "), url);
    FeedBlank(Reader(Finish(r), Some(Raw(name, url))));
  }

  // ---------------------------------------------------------------------------
  // Cleaning an assembled command

  /** Squeezing double blanks, the second step of `Clean`. */
  function Squeeze(s: string): string {
    Replace(s, "  ", " ")
  }

  /** A piece without double blanks, whose seam with what follows is not a double
      blank, is kept as it is. */
  lemma Keep(p: string, s: string)
    requires NoPair(p, ' ') && p != []
    requires p[|p| - 1] != ' ' || s == [] || s[0] != ' '
    ensures Squeeze(p + s) == p + Squeeze(s)
  {
    assert "  " == [' ', ' '];
    ReplacePairAppend(p, s, ' ', " ");
    ReplacePairAbsent(p, ' ', " ");
  }

  /** A double blank in front of a piece becomes a single one. */
  lemma Shrink(q: string, s: string)
    requires NoPair(q, ' ') && q != [] && q[0] != ' ' && q[|q| - 1] != ' '
    ensures Squeeze("  " + q + s) == " " + q + Squeeze(s)
  {
    var x := "  " + q + s;
    assert x[..2] == "  ";
    assert x[2..] == q + s;
    Keep(q, s);
  }

  lemma BackslashGoes(a: string, b: string)
    requires '\\' !in a && '\\' !in b
    ensures Replace(a + ("\\" + b), "\\", "") == a + b
  {
    var pat := "\\";
    assert pat[0] == '\\';
    ReplaceKeepsPrefix(a, pat + b, pat, "");
    ReplaceKeepsPrefix(b, [], pat, "");
    assert b + [] == b;
    ReplaceLeading(pat, b);
  }

  lemma ReplaceLeading(pat: string, b: string)
    requires pat != []
    ensures Replace(pat + b, pat, "") == Replace(b, pat, "")
  {
    assert (pat + b)[..|pat|] == pat;
    assert (pat + b)[|pat|..] == b;
  }

  /** A piece of a command as the cleaning needs it: not empty, no backslash, no
      double blank, and no blank at either end. */
  predicate Solid(s: string) {
    s != [] && '\\' !in s && NoPair(s, ' ') && s[0] != ' ' && s[|s| - 1] != ' '
  }

  /** Cleaning a command assembled from three solid pieces with backslash
      continuations gives the pieces one blank apart. */
  lemma {:induction false} CleanPieces(h: string, n: string, u: string, t: string)
    requires Solid(h) && Solid(n) && Solid(u) && '\\' !in t && NoPair(t, ' ')
    ensures Clean(h + " \\" + " " + (n + " ") + " " + u + t) == h + " " + n + " " + u + t
  {
    var b := " " + n + "  " + u + t;
    assert h + " \\" + " " + (n + " ") + " " + u + t == (h + " ") + ("\\" + b);
    assert '\\' !in b;
    BackslashGoes(h + " ", b);
    assert (h + " ") + b == h + ("  " + n + ("  " + u + t));
    Keep(h, "  " + n + ("  " + u + t));
    Shrink(n, "  " + u + t);
    Shrink(u, t);
    ReplacePairAbsent(t, ' ', " ");
    assert "  " == [' ', ' '];
  }

  lemma DirPartSolid()
    ensures Solid(DirPart())
  {
    CommandHeadNoPair();
    ModelsDirNoPair();
    assert NoPair("\"", ' ');
    NoPairAppend(CommandHead, ModelsDir, ' ');
    NoPairAppend(CommandHead + ModelsDir, "\"", ' ');
  }

  lemma CommandHeadNoPair()
    ensures NoPair(CommandHead, ' ')
  {
  }

  lemma ModelsDirNoPair()
    ensures NoPair(ModelsDir, ' ')
  {
  }

  lemma FlagsPlain()
    ensures NoPair(RenameFlag, ' ') && NoPair(GetFlag, ' ')
    ensures RenameFlag[|RenameFlag| - 1] == 'e' && '\\' !in RenameFlag && '\\' !in GetFlag
  {
  }

  lemma NameFlagsSolid(name: string)
    requires Plain(name)
    ensures Solid(NameFlags(name))
  {
    assert NoPair("-o \"", ' ') && NoPair("\"", ' ');
    FlagsPlain();
    NoPairAppend("-o \"", name, ' ');
    NoPairAppend("-o \"" + name, "\"", ' ');
    NoPairAppend("-o \"" + name + "\"", RenameFlag, ' ');
    NoPairAppend("-o \"" + name + "\"" + RenameFlag, GetFlag, ' ');
  }

  lemma QuotedUrlSolid(url: string)
    requires Plain(url)
    ensures Solid(QuotedUrl(url))
  {
    assert NoPair("\"", ' ');
    NoPairAppend("\"", url, ' ');
    NoPairAppend("\"" + url, "\"", ' ');
  }

  /** The reader's cleaning turns an assembled command into the one-line command,
      keeping the plain text appended after it. */
  lemma CleanRaw(name: string, url: string, t: string)
    requires Plain(name) && Plain(url) && '\\' !in t && NoPair(t, ' ')
    ensures Clean(Raw(name, url) + t) == Expected(name, url) + t
  {
    DirPartSolid();
    NameFlagsSolid(name);
    QuotedUrlSolid(url);
    CleanPieces(DirPart(), NameFlags(name), QuotedUrl(url), t);
  }

  // ---------------------------------------------------------------------------
  // The whole script

  /** A non-blank line that does not start with `a` is not a command line. */
  lemma NotCommandLine(x: string)
    requires x == [] || (!IsSpace(x[0]) && x[0] != 'a')
    ensures !IsCommandStart(x)
  {
    if IsCommandStart(x) {
      CommandNotComment(Strip(x));
      StripHead(x);
      assert false;
    }
  }

  lemma PreambleIdle(display: string, repo: string)
    ensures forall k :: 0 <= k < |Preamble(display, repo)| ==> !IsCommandStart(Preamble(display, repo)[k])
  {
    var pre := Preamble(display, repo);
    forall k | 0 <= k < |pre|
      ensures !IsCommandStart(pre[k])
    {
      PreambleLineIdle(display, repo, k);
    }
  }

  lemma PreambleLineIdle(display: string, repo: string, k: nat)
    requires k < |Preamble(display, repo)|
    ensures !IsCommandStart(Preamble(display, repo)[k])
  {
    var l := Preamble(display, repo)[k];
    if k == 1 {
      assert l == "# Model: " + display;
      assert l[0] == '#';
    } else if k == 3 {
      assert l == "echo \"Downloading files from " + "HuggingFace repository " + repo + "...\"";
      assert l[0] == 'e';
    } else if k == 6 {
      assert l == "mkdir -p \"" + ModelsDir + "\"";
      assert l[0] == 'm';
    } else if k == 5 {
      assert l == "# Create output directory " + "if it doesn't exist";
      assert l[0] == '#';
    } else {
      assert l == [] || l == "#!/bin/bash";
    }
    NotCommandLine(l);
  }

  lemma PreamblePlain(display: string, repo: string)
    requires '\n' !in display && '\n' !in repo
    ensures forall k :: 0 <= k < |Preamble(display, repo)| ==> '\n' !in Preamble(display, repo)[k]
  {
    EchoLinePlain(repo);
    CommentLinePlain();
    MkdirLinePlain();
    assert '\n' !in "# Model: " + display;
    assert '\n' !in "#!/bin/bash";
    EightPlain(Preamble(display, repo), '\n');
  }

  lemma EchoLinePlain(repo: string)
    requires '\n' !in repo
    ensures '\n' !in "echo \"Downloading files from " + "HuggingFace repository " + repo + "...\""
  {
    assert '\n' !in "echo \"Downloading files from ";
    assert '\n' !in "HuggingFace repository ";
  }

  lemma CommentLinePlain()
    ensures '\n' !in "# Create output directory " + "if it doesn't exist"
  {
    assert '\n' !in "# Create output directory ";
    assert '\n' !in "if it doesn't exist";
  }

  lemma MkdirLinePlain()
    ensures '\n' !in "mkdir -p \"" + ModelsDir + "\""
  {
  }

  lemma EightPlain(p: seq<string>, c: char)
    requires |p| == 8
    requires c !in p[0] && c !in p[1] && c !in p[2] && c !in p[3]
    requires c !in p[4] && c !in p[5] && c !in p[6] && c !in p[7]
    ensures forall k :: 0 <= k < |p| ==> c !in p[k]
  {
  }

  /** The preamble splits into its own lines and leaves the reader idle. */
  lemma PreambleRead(display: string, repo: string)
    requires '\n' !in display && '\n' !in repo
    ensures SplitEach(Preamble(display, repo), '\n') == Preamble(display, repo)
    ensures FeedAll(Reader([], None), Preamble(display, repo)) == Reader([], None)
  {
    PreamblePlain(display, repo);
    SplitEachPlain(Preamble(display, repo), '\n');
    PreambleIdle(display, repo);
    FeedAllIdle(Preamble(display, repo));
  }

  /** A line the reader glues onto the command in progress, as it stands. */
  predicate Trailer(line: string) {
    && Strip(line) == line && line != [] && line[0] != '#' && line[0] != 'a' && !IsSpace(line[0])
    && !EndsWith(line, "\\") && '\n' !in line && '\\' !in " " + line && NoPair(" " + line, ' ')
  }

  lemma ClosingFacts()
    ensures Trailer(ClosingLine)
  {
    assert ClosingLine[|ClosingLine| - 1] == '"';
    StripNoop(ClosingLine);
    ClosingEnds();
    ClosingNoBreak();
    ClosingNoBackslash();
    ClosingNoPair();
  }

  lemma ClosingEnds()
    ensures ClosingLine != [] && ClosingLine[0] != '#' && ClosingLine[0] != 'a' && !IsSpace(ClosingLine[0])
    ensures !EndsWith(ClosingLine, "\\")
  {
  }

  lemma ClosingNoBreak()
    ensures '\n' !in ClosingLine
  {
  }

  lemma ClosingNoBackslash()
    ensures '\\' !in " " + ClosingLine
  {
  }

  lemma ClosingNoPair()
    ensures NoPair(" " + ClosingLine, ' ')
  {
  }

  lemma FeedFirstBlock(r: Reader, repo: string, files: seq<string>, hubUrl: (string, string) -> string)
    requires files != [] && FileFits(repo, files[0], hubUrl)
    ensures FeedAll(r, SplitEach(Blocks(repo, files, hubUrl), '\n'))
      == FeedAll(Reader(Finish(r), Some(Raw(Basename(files[0]), hubUrl(repo, files[0])))),
                 SplitEach(Blocks(repo, files[1..], hubUrl), '\n'))
  {
    var first := Block(repo, files[0], hubUrl);
    var rest := Blocks(repo, files[1..], hubUrl);
    assert Blocks(repo, files, hubUrl) == first + rest;
    SplitEachAppend(first, rest, '\n');
    FeedAllAppend(r, SplitEach(first, '\n'), SplitEach(rest, '\n'));
    FeedBlock(r, repo, files[0], hubUrl);
  }

  lemma ExpectedAllCons(repo: string, files: seq<string>, hubUrl: (string, string) -> string)
    requires |files| >= 2
    ensures ExpectedAll(repo, files[..|files| - 1], hubUrl)
      == [Expected(Basename(files[0]), hubUrl(repo, files[0]))] + ExpectedAll(repo, files[1..][..|files| - 2], hubUrl)
  {
    assert files[..|files| - 1][1..] == files[1..][..|files| - 2];
  }

  lemma FinishBlock(r: Reader, name: string, url: string)
    requires Plain(name) && Plain(url)
    ensures Finish(Reader(Finish(r), Some(Raw(name, url)))) == Finish(r) + [Expected(name, url)]
  {
    CleanRaw(name, url, "");
    assert Raw(name, url) + "" == Raw(name, url);
    assert Expected(name, url) + "" == Expected(name, url);
  }

  /** Every file of `files` fits. */
  predicate AllFit(repo: string, files: seq<string>, hubUrl: (string, string) -> string) {
    forall k {:trigger FileFits(repo, files[k], hubUrl)} :: 0 <= k < |files| ==> FileFits(repo, files[k], hubUrl)
  }

  lemma AllFitTail(repo: string, files: seq<string>, hubUrl: (string, string) -> string)
    requires files != [] && AllFit(repo, files, hubUrl)
    ensures AllFit(repo, files[1..], hubUrl) && FileFits(repo, files[0], hubUrl)
  {
    forall k | 0 <= k < |files[1..]|
      ensures FileFits(repo, files[1..][k], hubUrl)
    {
      assert files[1..][k] == files[k + 1];
    }
  }

  lemma Combine(r: Reader, r1: Reader, e: string, x: seq<string>, all: seq<string>, res: Reader, last: string)
    requires Finish(r1) == Finish(r) + [e] && all == [e] + x
    requires res == Reader(Finish(r1) + x, Some(last))
    ensures res == Reader(Finish(r) + all, Some(last))
  {
    assert (Finish(r) + [e]) + x == Finish(r) + ([e] + x);
  }

  lemma LastOfTail(files: seq<string>)
    requires |files| >= 2
    ensures files[1..][|files| - 2] == files[|files| - 1]
  {
  }

  /** The blocks of several files: all but the last command are finished, the
      last one is being assembled. */
  lemma FeedOneBlock(r: Reader, repo: string, files: seq<string>, hubUrl: (string, string) -> string)
    requires |files| == 1 && AllFit(repo, files, hubUrl)
    ensures FeedAll(r, SplitEach(Blocks(repo, files, hubUrl), '\n'))
      == Reader(Finish(r) + ExpectedAll(repo, files[..0], hubUrl), Some(Raw(Basename(files[0]), hubUrl(repo, files[0]))))
  {
    AllFitTail(repo, files, hubUrl);
    FeedFirstBlock(r, repo, files, hubUrl);
    assert files[1..] == [];
    assert files[..0] == [];
    assert Finish(r) + [] == Finish(r);
  }

  lemma {:induction false} FeedBlocks(r: Reader, repo: string, files: seq<string>, hubUrl: (string, string) -> string)
    requires files != [] && AllFit(repo, files, hubUrl)
    ensures FeedAll(r, SplitEach(Blocks(repo, files, hubUrl), '\n'))
      == Reader(Finish(r) + ExpectedAll(repo, files[..|files| - 1], hubUrl),
                Some(Raw(Basename(files[|files| - 1]), hubUrl(repo, files[|files| - 1]))))
    decreases |files|
  {
    if |files| == 1 {
      FeedOneBlock(r, repo, files, hubUrl);
    } else {
      AllFitTail(repo, files, hubUrl);
      FeedFirstBlock(r, repo, files, hubUrl);
      var name := Basename(files[0]);
      var url := hubUrl(repo, files[0]);
      var r1 := Reader(Finish(r), Some(Raw(name, url)));
      var tail := files[1..];
      FeedBlocks(r1, repo, tail, hubUrl);
      FinishBlock(r, name, url);
      ExpectedAllCons(repo, files, hubUrl);
      Combine(r, r1, Expected(name, url), ExpectedAll(repo, tail[..|tail| - 1], hubUrl),
        ExpectedAll(repo, files[..|files| - 1], hubUrl),
        FeedAll(r1, SplitEach(Blocks(repo, tail, hubUrl), '\n')),
        Raw(Basename(tail[|tail| - 1]), hubUrl(repo, tail[|tail| - 1])));
      LastOfTail(files);
    }
  }

  lemma SplitThree(pre: seq<string>, b: seq<string>, closing: string)
    requires SplitEach(pre, '\n') == pre && '\n' !in closing
    ensures SplitOn(Join(pre + b + [closing], "\n"), '\n') == pre + SplitEach(b, '\n') + [closing]
  {
    SplitEachPlain([closing], '\n');
    assert "\n" == ['\n'];
    SplitJoinEach(pre + b + [closing], '\n');
    SplitEachAppend(pre + b, [closing], '\n');
    SplitEachAppend(pre, b, '\n');
  }

  /** The physical lines of a generated script. */
  lemma ScriptSplit(repo: string, files: seq<string>, modelName: Option<string>, hubUrl: (string, string) -> string)
    requires ScriptFits(repo, files, modelName, hubUrl)
    ensures SplitOn(ScriptText(repo, files, modelName, hubUrl), '\n')
      == Preamble(DisplayName(repo, modelName), repo) + SplitEach(Blocks(repo, files, hubUrl), '\n') + [ClosingLine]
  {
    PreambleRead(DisplayName(repo, modelName), repo);
    ClosingFacts();
    SplitThree(Preamble(DisplayName(repo, modelName), repo), Blocks(repo, files, hubUrl), ClosingLine);
  }

  lemma ReadThree(pre: seq<string>, sb: seq<string>, closing: string, mid: Reader)
    requires FeedAll(Reader([], None), pre) == Reader([], None)
    requires FeedAll(Reader([], None), sb) == mid
    ensures FeedAll(Reader([], None), pre + sb + [closing]) == Feed(mid, closing)
  {
    FeedAllAppend(Reader([], None), pre + sb, [closing]);
    FeedAllAppend(Reader([], None), pre, sb);
    assert [closing][1..] == [];
  }

  /** A trailing line that is neither a comment nor a command is glued onto the
      command in progress, or ignored when there is none. */
  lemma FeedTrailer(cs: seq<string>, cur: Option<string>, line: string)
    requires Trailer(line)
    ensures Feed(Reader(cs, cur), line) == Reader(cs, if cur.Some? then Some(cur.value + " " + line) else None)
  {
    if cur.Some? {
      FeedJoin(cs, cur.value, line, line);
    } else {
      NotCommandLine(line);
    }
  }

  lemma FinishTrailer(cs: seq<string>, name: string, url: string, line: string)
    requires Plain(name) && Plain(url) && Trailer(line)
    ensures Finish(Reader(cs, Some(Raw(name, url) + " " + line))) == cs + [Expected(name, url) + " " + line]
  {
    CleanRaw(name, url, " " + line);
    assert Raw(name, url) + " " + line == Raw(name, url) + (" " + line);
    assert Expected(name, url) + " " + line == Expected(name, url) + (" " + line);
  }

  /** A script with no download reads back as no command. */
  lemma ReadBackEmpty(pre: seq<string>, closing: string)
    requires FeedAll(Reader([], None), pre) == Reader([], None) && Trailer(closing)
    ensures Finish(FeedAll(Reader([], None), pre + SplitEach([], '\n') + [closing])) == []
  {
    ReadThree(pre, [], closing, Reader([], None));
    FeedTrailer([], None, closing);
  }

  /** A script with downloads reads back as their commands, the trailer glued onto the last. */
  lemma ReadBackSome(lines: seq<string>, pre: seq<string>, sb: seq<string>, closing: string, cs: seq<string>, name: string, url: string)
    requires lines == pre + sb + [closing]
    requires FeedAll(Reader([], None), pre) == Reader([], None) && Trailer(closing)
    requires FeedAll(Reader([], None), sb) == Reader(cs, Some(Raw(name, url)))
    requires Plain(name) && Plain(url)
    ensures Commands(Some(lines)) == cs + [Expected(name, url) + " " + closing]
  {
    ReadThree(pre, sb, closing, Reader(cs, Some(Raw(name, url))));
    FeedTrailer(cs, Some(Raw(name, url)), closing);
    FinishTrailer(cs, name, url, closing);
  }

  /** Reading a generated script back gives, for each file in order, its one-line
      aria2c command; the closing `echo` is appended to the last one. */
  lemma GeneratedCommandsReadBack(repo: string, files: seq<string>, modelName: Option<string>, hubUrl: (string, string) -> string)
    requires ScriptFits(repo, files, modelName, hubUrl)
    ensures Commands(Some(SplitOn(ScriptText(repo, files, modelName, hubUrl), '\n')))
      == if files == [] then []
         else ExpectedAll(repo, files[..|files| - 1], hubUrl)
              + [Expected(Basename(files[|files| - 1]), hubUrl(repo, files[|files| - 1])) + " " + ClosingLine]
  {
    if files == [] {
      var pre := Preamble(DisplayName(repo, modelName), repo);
      ScriptSplit(repo, files, modelName, hubUrl);
      PreambleRead(DisplayName(repo, modelName), repo);
      ClosingFacts();
      assert Blocks(repo, files, hubUrl) == [];
      ReadBackEmpty(pre, ClosingLine);
    } else {
      CommandsReadBackSome(repo, files, modelName, hubUrl);
    }
  }

  /** `GeneratedCommandsReadBack` for a script with at least one file. */
  lemma CommandsReadBackSome(repo: string, files: seq<string>, modelName: Option<string>, hubUrl: (string, string) -> string)
    requires ScriptFits(repo, files, modelName, hubUrl) && files != []
    ensures Commands(Some(SplitOn(ScriptText(repo, files, modelName, hubUrl), '\n')))
      == ExpectedAll(repo, files[..|files| - 1], hubUrl)
         + [Expected(Basename(files[|files| - 1]), hubUrl(repo, files[|files| - 1])) + " " + ClosingLine]
  {
    var last := files[|files| - 1];
    var cs := ExpectedAll(repo, files[..|files| - 1], hubUrl);
    ScriptPartsRead(repo, files, modelName, hubUrl);
    FeedBlocks(Reader([], None), repo, files, hubUrl);
    assert [] + cs == cs;
    LastFits(repo, files, hubUrl);
    ReadBackSome(SplitOn(ScriptText(repo, files, modelName, hubUrl), '\n'), Preamble(DisplayName(repo, modelName), repo),
                 SplitEach(Blocks(repo, files, hubUrl), '\n'), ClosingLine, cs, Basename(last), hubUrl(repo, last));
  }

  /** A fitting script splits into its preamble, which the reader passes over,
      the lines of its blocks and the closing line, which it glues on. */
  lemma ScriptPartsRead(repo: string, files: seq<string>, modelName: Option<string>, hubUrl: (string, string) -> string)
    requires ScriptFits(repo, files, modelName, hubUrl)
    ensures var pre := Preamble(DisplayName(repo, modelName), repo);
      && SplitOn(ScriptText(repo, files, modelName, hubUrl), '\n') == pre + SplitEach(Blocks(repo, files, hubUrl), '\n') + [ClosingLine]
      && FeedAll(Reader([], None), pre) == Reader([], None)
      && Trailer(ClosingLine)
  {
    ScriptSplit(repo, files, modelName, hubUrl);
    PreambleRead(DisplayName(repo, modelName), repo);
    ClosingFacts();
  }

  /** The last file of a fitting list has a plain name and URL. */
  lemma LastFits(repo: string, files: seq<string>, hubUrl: (string, string) -> string)
    requires files != [] && AllFit(repo, files, hubUrl)
    ensures Plain(Basename(files[|files| - 1])) && Plain(hubUrl(repo, files[|files| - 1]))
  {
    assert FileFits(repo, files[|files| - 1], hubUrl);
  }

  // ---------------------------------------------------------------------------
  // The file each read-back command names

  lemma CommandHeadPieces()
    ensures CommandHead == "aria2c " + ("-x" + (" 16 " + ("-s" + (" 16 " + ("-d" + " \"")))))
  {
  }

  /** The quoted models directory holds no dash. */
  lemma SkipModelsDir(z: string)
    requires z != [] && z[0] == ' '
    ensures FindOutput(" \"" + ModelsDir + "\"" + z) == FindOutput(z)
  {
    var d := " \"" + ModelsDir + "\"";
    assert '-' !in d;
    SkipNoDash(d, z);
  }

  /** `-x 16 -s 16 -d` in front of `w` do not produce a match. */
  lemma SkipShortOptions(w: string)
    requires w != [] && w[0] == ' '
    ensures FindOutput("aria2c " + ("-x" + (" 16 " + ("-s" + (" 16 " + ("-d" + w)))))) == FindOutput(w)
  {
    SkipShortOption('d', w);
    var s5 := "-d" + w;
    SkipNoDash(" 16 ", s5);
    var s3 := "-s" + (" 16 " + s5);
    SkipShortOption('s', " 16 " + s5);
    SkipNoDash(" 16 ", s3);
    var s1 := "-x" + (" 16 " + s3);
    SkipShortOption('x', " 16 " + s3);
    SkipNoDash("aria2c ", s1);
  }

  lemma DirPartPieces(z: string)
    ensures DirPart() + z == "aria2c " + ("-x" + (" 16 " + ("-s" + (" 16 " + ("-d" + (" \"" + ModelsDir + "\"" + z))))))
  {
    CommandHeadPieces();
  }

  /** The options in front of `-o` do not produce a match. */
  lemma SkipDirPart(z: string)
    requires z != [] && z[0] == ' '
    ensures FindOutput(DirPart() + z) == FindOutput(z)
  {
    var w := " \"" + ModelsDir + "\"" + z;
    SkipModelsDir(z);
    SkipShortOptions(w);
    DirPartPieces(z);
  }

  /** Regrouping of a one-line command around its `-o` option. */
  lemma RegroupOutput(d: string, name: string, flags: string, u: string, t: string)
    ensures d + " " + ("-o \"" + name + "\"" + flags) + " " + u + t
      == d + (" -o \"" + (name + ("\"" + (flags + " " + u + t))))
  {
  }

  /** The one-line command of a file, with anything after it, names that file. */
  lemma ExpectedNamesFile(name: string, url: string, t: string)
    requires name != [] && forall k :: 0 <= k < |name| ==> !IsQuote(name[k])
    ensures ExtractFilename(Some(Expected(name, url) + t)) == Some(name)
  {
    var flags := RenameFlag + GetFlag;
    var rest := flags + " " + QuotedUrl(url) + t;
    var z := " -o \"" + (name + ("\"" + rest));
    assert NameFlags(name) == "-o \"" + name + "\"" + flags;
    RegroupOutput(DirPart(), name, flags, QuotedUrl(url), t);
    OutputFlagOf(name, rest);
    SkipDirPart(z);
  }

  lemma ExpectedAllIndex(repo: string, files: seq<string>, hubUrl: (string, string) -> string, i: nat)
    requires i < |files|
    ensures |ExpectedAll(repo, files, hubUrl)| == |files|
    ensures ExpectedAll(repo, files, hubUrl)[i] == Expected(Basename(files[i]), hubUrl(repo, files[i]))
    decreases |files|
  {
    if i > 0 {
      ExpectedAllIndex(repo, files[1..], hubUrl, i - 1);
      assert files[1..][i - 1] == files[i];
    } else if |files| > 1 {
      ExpectedAllIndex(repo, files[1..], hubUrl, 0);
    }
  }

  /** Reading a generated script back yields one command per file, and the file
      name taken from each command is that file's basename. */
  lemma GeneratedFilenamesReadBack(repo: string, files: seq<string>, modelName: Option<string>, hubUrl: (string, string) -> string)
    requires ScriptFits(repo, files, modelName, hubUrl)
    ensures var cmds := Commands(Some(SplitOn(ScriptText(repo, files, modelName, hubUrl), '\n')));
      && |cmds| == |files|
      && forall i :: 0 <= i < |files| ==> ExtractFilename(Some(cmds[i])) == Some(Basename(files[i]))
  {
    GeneratedCommandsReadBack(repo, files, modelName, hubUrl);
    var cmds := Commands(Some(SplitOn(ScriptText(repo, files, modelName, hubUrl), '\n')));
    if files != [] {
      var init := files[..|files| - 1];
      if |files| > 1 { ExpectedAllIndex(repo, init, hubUrl, 0); }
      assert |ExpectedAll(repo, init, hubUrl)| == |files| - 1;
      forall i | 0 <= i < |files|
        ensures ExtractFilename(Some(cmds[i])) == Some(Basename(files[i]))
      {
        CommandNamesFile(repo, files, hubUrl, cmds, i);
      }
    }
  }

  /** The `i`-th command read back names the `i`-th file. */
  lemma CommandNamesFile(repo: string, files: seq<string>, hubUrl: (string, string) -> string, cmds: seq<string>, i: nat)
    requires i < |files| && AllFit(repo, files, hubUrl)
    requires cmds == ExpectedAll(repo, files[..|files| - 1], hubUrl)
      + [Expected(Basename(files[|files| - 1]), hubUrl(repo, files[|files| - 1])) + " " + ClosingLine]
    requires |ExpectedAll(repo, files[..|files| - 1], hubUrl)| == |files| - 1
    ensures ExtractFilename(Some(cmds[i])) == Some(Basename(files[i]))
  {
    var n := |files|;
    var init := files[..n - 1];
    assert FileFits(repo, files[i], hubUrl);
    var name := Basename(files[i]);
    var url := hubUrl(repo, files[i]);
    if i < n - 1 {
      ExpectedAllIndex(repo, init, hubUrl, i);
      assert init[i] == files[i];
      assert cmds[i] == Expected(name, url) + "";
      ExpectedNamesFile(name, url, "");
    } else {
      assert cmds[i] == Expected(name, url) + (" " + ClosingLine);
      ExpectedNamesFile(name, url, " " + ClosingLine);
    }
  }
}

/** The header of a script written by the HuggingFace generator, read back by
    the control panel: the `# Model:` line is the only line the generator
    writes that the header reader takes for a tag, so the name read back is
    the display name, the description stays empty and no token is asked for. */
module HeaderRoundTrip {
  import opened Text
  import opened ScriptReader
  import opened HfScriptGen
  import opened ScriptRoundTrip

  /** A line the header reader takes for none of its three tags. */
  predicate Untagged(line: string) {
    && !StartsWith(Strip(line), ModelTag)
    && !StartsWith(Strip(line), DescriptionTag)
    && !StartsWith(Strip(line), TokenTag)
  }

  predicate AllUntagged(lines: seq<string>) {
    forall k :: 0 <= k < |lines| ==> Untagged(lines[k])
  }

  // ---------------------------------------------------------------------------
  // What stripping keeps of a line

  lemma {:induction false} TrimEndKeeps(s: string, n: nat)
    requires 0 < n <= |s| && !IsSpace(s[n - 1])
    ensures |TrimEnd(s)| >= n && TrimEnd(s)[..n] == s[..n]
    decreases |s|
  {
    if IsSpace(s[|s| - 1]) {
      var t := s[..|s| - 1];
      assert t[n - 1] == s[n - 1];
      TrimEndKeeps(t, n);
      assert t[..n] == s[..n];
    }
  }

  /** A line that starts with a non-blank keeps its first `n` characters
      when the `n`-th one is not blank either. */
  lemma StripKeeps(s: string, n: nat)
    requires 0 < n <= |s| && !IsSpace(s[0]) && !IsSpace(s[n - 1])
    ensures |Strip(s)| >= n && Strip(s)[..n] == s[..n]
  {
    assert TrimStart(s) == s;
    TrimEndKeeps(s, n);
  }

  /** A text that differs from a tag at some position inside the tag does not start with it. */
  lemma DiffersAt(t: string, tag: string, i: nat)
    requires i < |tag| && i < |t| && t[i] != tag[i]
    ensures !StartsWith(t, tag)
  {
    if |tag| <= |t| {
      assert t[..|tag|][i] == t[i];
    }
  }

  // ---------------------------------------------------------------------------
  // The kinds of line a generated script holds

  lemma EmptyUntagged()
    ensures Untagged("")
  {
    assert TrimStart("") == "";
    assert Strip("") == "";
  }

  /** A line that starts with a non-blank and whose `i`-th, `j`-th and `k`-th
      characters differ from the model, description and token tags. */
  lemma CommentUntagged(s: string, n: nat, i: nat, j: nat, k: nat)
    requires 0 < n <= 8 && n <= |s| && !IsSpace(s[0]) && !IsSpace(s[n - 1])
    requires i < n && j < n && k < n
    requires s[i] != ModelTag[i] && s[j] != DescriptionTag[j] && s[k] != TokenTag[k]
    ensures Untagged(s)
  {
    var t := Strip(s);
    StripKeeps(s, n);
    assert t[..n][i] == t[i] && t[..n][j] == t[j] && t[..n][k] == t[k];
    DiffersAt(t, ModelTag, i);
    DiffersAt(t, DescriptionTag, j);
    DiffersAt(t, TokenTag, k);
  }

  /** A line whose first character is neither blank nor `#`. */
  lemma HeadUntagged(s: string)
    requires s != [] && !IsSpace(s[0]) && s[0] != '#'
    ensures Untagged(s)
  {
    CommentUntagged(s, 1, 0, 0, 0);
  }

  /** An indented line whose text starts with neither `#` nor a blank. */
  lemma IndentedUntagged(lead: string, y: string)
    requires AllSpace(lead) && y != [] && !IsSpace(y[0]) && y[0] != '#'
    ensures Untagged(lead + y)
  {
    TrimStartOf(lead, y);
    assert TrimStart(y) == y;
    assert Strip(lead + y) == Strip(y);
    HeadUntagged(y);
  }

  lemma AppendUntagged(a: seq<string>, b: seq<string>)
    requires AllUntagged(a) && AllUntagged(b)
    ensures AllUntagged(a + b)
  {
    forall k | 0 <= k < |a + b|
      ensures Untagged((a + b)[k])
    {
      if k >= |a| {
        assert (a + b)[k] == b[k - |a|];
      }
    }
  }

  /** A text with no blank at either end, which is what stripping leaves. */
  predicate Trimmed(d: string) {
    d == [] || (!IsSpace(d[0]) && !IsSpace(d[|d| - 1]))
  }

  /** The `# Model:` line of an empty name strips to the bare tag. */
  lemma BareModelLine()
    ensures Strip("# Model: ") == ModelTag
  {
    assert "# Model: " == [] + ModelTag + " ";
    StripOf([], ModelTag, " ");
  }

  /** The `# Model:` line of a non-empty trimmed name is already stripped. */
  lemma NamedModelLine(d: string)
    requires d != [] && Trimmed(d)
    ensures Strip("# Model: " + d) == ModelTag + (" " + d)
  {
    var l := "# Model: " + d;
    assert l == ModelTag + (" " + d);
    assert l[|l| - 1] == d[|d| - 1];
    assert l == [] + l + [];
    StripOf([], l, []);
  }

  /** The stripped `# Model:` line: the tag, then a blank and the name if there is one. */
  lemma ModelLineStripped(d: string)
    requires Trimmed(d)
    ensures Strip("# Model: " + d) == ModelTag + (if d == [] then [] else " " + d)
  {
    if d == [] {
      assert "# Model: " + d == "# Model: ";
      BareModelLine();
      assert ModelTag + [] == ModelTag;
    } else {
      NamedModelLine(d);
    }
  }

  /** A text that opens with the model tag carries no other tag. */
  lemma ModelTagOnly(t: string, x: string)
    requires t == ModelTag + x
    ensures StartsWith(t, ModelTag) && !StartsWith(t, DescriptionTag) && !StartsWith(t, TokenTag)
  {
    assert t[..|ModelTag|] == ModelTag;
    assert t[2] == 'M';
    DiffersAt(t, DescriptionTag, 2);
    DiffersAt(t, TokenTag, 2);
  }

  /** The `# Model:` line is read as that tag and no other. */
  lemma ModelLineTagged(d: string)
    requires Trimmed(d)
    ensures StartsWith(Strip("# Model: " + d), ModelTag)
    ensures !StartsWith(Strip("# Model: " + d), DescriptionTag)
    ensures !StartsWith(Strip("# Model: " + d), TokenTag)
  {
    ModelLineStripped(d);
    ModelTagOnly(Strip("# Model: " + d), if d == [] then [] else " " + d);
  }

  /** Removing the tag from the front of a text. */
  lemma ReplaceTagHead(x: string)
    ensures Replace(ModelTag + x, ModelTag, "") == Replace(x, ModelTag, "")
  {
    var s := ModelTag + x;
    assert s[..|ModelTag|] == ModelTag;
    assert s[|ModelTag|..] == x;
  }

  /** A name without the tag is left alone by the tag's removal, and so is the blank before it. */
  lemma ReplaceAfterBlank(d: string)
    requires !Contains(d, ModelTag)
    ensures Replace(" " + d, ModelTag, "") == " " + d
  {
    assert ModelTag[0] !in " ";
    ReplaceKeepsPrefix(" ", d, ModelTag, "");
    ReplaceAbsent(d, ModelTag, "");
  }

  lemma StripAfterBlank(d: string)
    requires d != [] && Trimmed(d)
    ensures Strip(" " + d) == d
  {
    assert AllSpace(" ");
    assert " " + d == " " + d + [];
    StripOf(" ", d, []);
  }

  /** The value of a tagged line, from the stripped line and what removing the tag leaves. */
  lemma TagValueOf(line: string, x: string, v: string, d: string)
    requires Strip(line) == ModelTag + x && Replace(ModelTag + x, ModelTag, "") == v && Strip(v) == d
    ensures TagValue(line, ModelTag) == d
  {
  }

  /** The value read from the `# Model:` line is the display name, when the
      name has no surrounding blanks and does not hold the tag itself. */
  lemma ModelLineValue(d: string)
    requires Trimmed(d) && !Contains(d, ModelTag)
    ensures TagValue("# Model: " + d, ModelTag) == d
  {
    ModelLineStripped(d);
    if d == [] {
      ReplaceTagHead([]);
      EmptyUntagged();
      TagValueOf("# Model: " + d, [], [], d);
    } else {
      ReplaceTagHead(" " + d);
      ReplaceAfterBlank(d);
      StripAfterBlank(d);
      TagValueOf("# Model: " + d, " " + d, " " + d, d);
    }
  }

  // ---------------------------------------------------------------------------
  // The lines of a generated script

  lemma EchoUntagged(repo: string)
    ensures Untagged("echo \"Downloading files from " + "HuggingFace repository " + repo + "...\"")
  {
    HeadUntagged("echo \"Downloading files from " + "HuggingFace repository " + repo + "...\"");
  }

  lemma CreateCommentUntagged()
    ensures Untagged("# Create output directory " + "if it doesn't exist")
  {
    CommentUntagged("# Create output directory " + "if it doesn't exist", 3, 2, 2, 2);
  }

  lemma MkdirUntagged()
    ensures Untagged("mkdir -p \"" + ModelsDir + "\"")
  {
    HeadUntagged("mkdir -p \"" + ModelsDir + "\"");
  }

  lemma SixUntagged(l0: string, l1: string, l2: string, l3: string, l4: string, l5: string)
    requires Untagged(l0) && Untagged(l1) && Untagged(l2) && Untagged(l3) && Untagged(l4) && Untagged(l5)
    ensures AllUntagged([l0, l1, l2, l3, l4, l5])
  {
    var ls := [l0, l1, l2, l3, l4, l5];
    forall k | 0 <= k < 6
      ensures Untagged(ls[k])
    {
      if k == 0 { assert ls[k] == l0; }
      else if k == 1 { assert ls[k] == l1; }
      else if k == 2 { assert ls[k] == l2; }
      else if k == 3 { assert ls[k] == l3; }
      else if k == 4 { assert ls[k] == l4; }
      else { assert ls[k] == l5; }
    }
  }

  /** The preamble after the `# Model:` line. */
  lemma PreambleTailUntagged(d: string, repo: string)
    ensures AllUntagged(Preamble(d, repo)[2..])
  {
    var echo := "echo \"Downloading files from " + "HuggingFace repository " + repo + "...\"";
    var comment := "# Create output directory " + "if it doesn't exist";
    var mkdir := "mkdir -p \"" + ModelsDir + "\"";
    EmptyUntagged();
    EchoUntagged(repo);
    CreateCommentUntagged();
    MkdirUntagged();
    SixUntagged("", echo, "", comment, mkdir, "");
    PreambleTail(d, repo);
  }

  lemma PreambleTail(d: string, repo: string)
    ensures Preamble(d, repo)[2..]
      == ["", "echo \"Downloading files from " + "HuggingFace repository " + repo + "...\"", "",
          "# Create output directory " + "if it doesn't exist", "mkdir -p \"" + ModelsDir + "\"", ""]
  {
  }

  lemma ShebangUntagged()
    ensures Untagged("#!/bin/bash")
  {
    CommentUntagged("#!/bin/bash", 2, 1, 1, 1);
  }

  lemma DownloadCommentUntagged(path: string)
    ensures Untagged("# Download " + path)
  {
    CommentUntagged("# Download " + path, 4, 2, 3, 2);
  }

  lemma NameLineUntagged(name: string)
    ensures Untagged(NameLine(name))
  {
    NameLineFacts(name);
    assert NameLine(name) == "    " + (NameFlags(name) + " \\");
    IndentedUntagged("    ", NameFlags(name) + " \\");
  }

  lemma UrlLineUntagged(url: string)
    ensures Untagged(UrlLine(url))
  {
    IndentedUntagged("    ", QuotedUrl(url));
  }

  lemma FirstLineUntagged()
    ensures Untagged(FirstLine())
  {
    FirstLineFacts();
    HeadUntagged(FirstLine());
  }

  lemma FiveUntagged(l0: string, l1: string, l2: string, l3: string, l4: string)
    requires Untagged(l0) && Untagged(l1) && Untagged(l2) && Untagged(l3) && Untagged(l4)
    ensures AllUntagged([l0, l1, l2, l3, l4])
  {
    var ls := [l0, l1, l2, l3, l4];
    forall k | 0 <= k < 5
      ensures Untagged(ls[k])
    {
      if k == 0 { assert ls[k] == l0; }
      else if k == 1 { assert ls[k] == l1; }
      else if k == 2 { assert ls[k] == l2; }
      else if k == 3 { assert ls[k] == l3; }
      else { assert ls[k] == l4; }
    }
  }

  lemma OneUntagged(line: string)
    requires Untagged(line)
    ensures AllUntagged([line])
  {
    forall k | 0 <= k < 1
      ensures Untagged([line][k])
    {
      assert [line][k] == line;
    }
  }

  /** The five lines of one file's block. */
  lemma BlockUntagged(path: string, url: string)
    ensures AllUntagged(["# Download " + path, FirstLine(), NameLine(Basename(path)), UrlLine(url), ""])
  {
    DownloadCommentUntagged(path);
    FirstLineUntagged();
    NameLineUntagged(Basename(path));
    UrlLineUntagged(url);
    EmptyUntagged();
    FiveUntagged("# Download " + path, FirstLine(), NameLine(Basename(path)), UrlLine(url), "");
  }

  lemma {:induction false} BlocksUntagged(repo: string, files: seq<string>, hubUrl: (string, string) -> string)
    requires AllFit(repo, files, hubUrl)
    ensures AllUntagged(SplitEach(Blocks(repo, files, hubUrl), '\n'))
    decreases |files|
  {
    if files == [] {
      assert Blocks(repo, files, hubUrl) == [];
    } else {
      AllFitTail(repo, files, hubUrl);
      var first := Block(repo, files[0], hubUrl);
      var rest := Blocks(repo, files[1..], hubUrl);
      assert Blocks(repo, files, hubUrl) == first + rest;
      SplitEachAppend(first, rest, '\n');
      BlockSplit(repo, files[0], hubUrl);
      BlockUntagged(files[0], hubUrl(repo, files[0]));
      BlocksUntagged(repo, files[1..], hubUrl);
      AppendUntagged(SplitEach(first, '\n'), SplitEach(rest, '\n'));
    }
  }

  // ---------------------------------------------------------------------------
  // The header reader over those lines

  /** A last line that does not carry the tag is passed over. */
  lemma LastValueDrop(lines: seq<string>, tag: string)
    requires tag != [] && lines != [] && !StartsWith(Strip(lines[|lines| - 1]), tag)
    ensures LastValue(lines, tag) == LastValue(lines[..|lines| - 1], tag)
  {
  }

  /** Lines after the `n`-th that do not carry the tag leave its last value
      as it was after the first `n`. */
  lemma {:induction false} LastValueSkip(lines: seq<string>, n: nat, tag: string)
    requires tag != [] && n <= |lines|
    requires forall k :: n <= k < |lines| ==> !StartsWith(Strip(lines[k]), tag)
    ensures LastValue(lines, tag) == LastValue(lines[..n], tag)
    decreases |lines|
  {
    if |lines| == n {
      assert lines[..n] == lines;
    } else {
      var init := lines[..|lines| - 1];
      forall k | n <= k < |init|
        ensures !StartsWith(Strip(init[k]), tag)
      {
        var line := lines[k];
        assert !StartsWith(Strip(line), tag);
        assert init[k] == line;
      }
      LastValueDrop(lines, tag);
      LastValueSkip(init, n, tag);
      assert init[..n] == lines[..n];
    }
  }

  /** What the header reader reads from lines none of which after the `n`-th carries a tag. */
  lemma LastValueUntagged(lines: seq<string>, n: nat)
    requires n <= |lines| && forall k :: n <= k < |lines| ==> Untagged(lines[k])
    ensures LastValue(lines, ModelTag) == LastValue(lines[..n], ModelTag)
    ensures LastValue(lines, DescriptionTag) == LastValue(lines[..n], DescriptionTag)
    ensures LastValue(lines, TokenTag) == LastValue(lines[..n], TokenTag)
  {
    LastValueSkip(lines, n, ModelTag);
    LastValueSkip(lines, n, DescriptionTag);
    LastValueSkip(lines, n, TokenTag);
  }

  /** What the header reader reads from the first two lines. */
  lemma FirstTwo(lines: seq<string>, tag: string)
    requires tag != [] && |lines| >= 2
    ensures LastValue(lines[..2], tag)
      == if StartsWith(Strip(lines[1]), tag) then Some(TagValue(lines[1], tag))
         else if StartsWith(Strip(lines[0]), tag) then Some(TagValue(lines[0], tag))
         else None
  {
    LastValueStep(lines, 1, tag);
    LastValueStep(lines, 0, tag);
    assert lines[..0] == [];
  }

  /** A preamble tail, blocks and a closing line that carry no tag. */
  lemma RestUntagged(tail: seq<string>, sb: seq<string>, closing: string)
    requires AllUntagged(tail) && AllUntagged(sb) && Untagged(closing)
    ensures AllUntagged(tail + sb + [closing])
  {
    OneUntagged(closing);
    AppendUntagged(tail, sb);
    AppendUntagged(tail + sb, [closing]);
  }

  /** Lines whose part after the first two carries no tag. */
  lemma TailAssembly(lines: seq<string>, head: seq<string>, rest: seq<string>)
    requires lines == head + rest && |head| == 2 && AllUntagged(rest)
    ensures lines[..2] == head
    ensures forall k :: 2 <= k < |lines| ==> Untagged(lines[k])
  {
    forall k | 2 <= k < |lines|
      ensures Untagged(lines[k])
    {
      var line := rest[k - 2];
      assert Untagged(line);
      assert lines[k] == line;
    }
  }

  lemma ClosingUntagged()
    ensures Untagged(ClosingLine)
  {
    HeadUntagged(ClosingLine);
  }

  /** Lines made of a preamble whose tail carries no tag, blocks that carry
      none and a closing line that carries none. */
  lemma TailFrom(lines: seq<string>, pre: seq<string>, sb: seq<string>, closing: string)
    requires lines == pre + sb + [closing] && |pre| >= 2
    requires AllUntagged(pre[2..]) && AllUntagged(sb) && Untagged(closing)
    ensures lines[..2] == pre[..2]
    ensures forall k :: 2 <= k < |lines| ==> Untagged(lines[k])
  {
    RestUntagged(pre[2..], sb, closing);
    SplitHead(lines, pre, sb, closing);
    TailAssembly(lines, pre[..2], pre[2..] + sb + [closing]);
  }

  lemma SplitHead(lines: seq<string>, pre: seq<string>, sb: seq<string>, closing: string)
    requires lines == pre + sb + [closing] && |pre| >= 2
    ensures lines == pre[..2] + (pre[2..] + sb + [closing])
  {
    assert pre == pre[..2] + pre[2..];
  }

  lemma PreambleHead(d: string, repo: string)
    ensures |Preamble(d, repo)| == 8 && Preamble(d, repo)[..2] == ["#!/bin/bash", "# Model: " + d]
  {
  }

  /** Past the first two, no line of a generated script carries a tag. */
  lemma TailUntagged(repo: string, files: seq<string>, modelName: Option<string>, hubUrl: (string, string) -> string)
    requires ScriptFits(repo, files, modelName, hubUrl)
    ensures var lines := SplitOn(ScriptText(repo, files, modelName, hubUrl), '\n');
      && |lines| >= 2 && lines[..2] == ["#!/bin/bash", "# Model: " + DisplayName(repo, modelName)]
      && forall k :: 2 <= k < |lines| ==> Untagged(lines[k])
  {
    var d := DisplayName(repo, modelName);
    ScriptSplit(repo, files, modelName, hubUrl);
    PreambleTailUntagged(d, repo);
    BlocksUntagged(repo, files, hubUrl);
    ClosingUntagged();
    PreambleHead(d, repo);
    TailFrom(SplitOn(ScriptText(repo, files, modelName, hubUrl), '\n'), Preamble(d, repo),
      SplitEach(Blocks(repo, files, hubUrl), '\n'), ClosingLine);
  }

  /** The header read from lines whose first line carries no tag, whose second
      carries only the model tag, with the value `d`, and whose others carry none. */
  lemma HeaderAssembly(path: string, lines: seq<string>, d: string)
    requires |lines| >= 2 && Untagged(lines[0])
    requires StartsWith(Strip(lines[1]), ModelTag) && TagValue(lines[1], ModelTag) == d
    requires !StartsWith(Strip(lines[1]), DescriptionTag) && !StartsWith(Strip(lines[1]), TokenTag)
    requires forall k :: 2 <= k < |lines| ==> Untagged(lines[k])
    ensures HeaderOf(path, Some(lines)) == Header(if d == [] then FallbackName(path) else d, "", false)
  {
    LastValueUntagged(lines, 2);
    FirstTwo(lines, ModelTag);
    FirstTwo(lines, DescriptionTag);
    FirstTwo(lines, TokenTag);
  }

  /** A generated script names its model by the display name (the script's
      own file name when that is empty), carries no description and asks
      for no token. */
  lemma GeneratedHeaderReadBack(path: string, repo: string, files: seq<string>, modelName: Option<string>,
                                hubUrl: (string, string) -> string)
    requires ScriptFits(repo, files, modelName, hubUrl)
    requires Strip(DisplayName(repo, modelName)) == DisplayName(repo, modelName)
    requires !Contains(DisplayName(repo, modelName), ModelTag)
    ensures var d := DisplayName(repo, modelName);
      HeaderOf(path, Some(SplitOn(ScriptText(repo, files, modelName, hubUrl), '\n')))
        == Header(if d == [] then FallbackName(path) else d, "", false)
  {
    var d := DisplayName(repo, modelName);
    var lines := SplitOn(ScriptText(repo, files, modelName, hubUrl), '\n');
    TailUntagged(repo, files, modelName, hubUrl);
    assert lines[0] == lines[..2][0] == "#!/bin/bash";
    assert lines[1] == lines[..2][1] == "# Model: " + d;
    ShebangUntagged();
    assert Trimmed(d);
    ModelLineTagged(d);
    ModelLineValue(d);
    HeaderAssembly(path, lines, d);
  }
}

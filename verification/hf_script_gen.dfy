/** The HuggingFace download-script generator: choosing the repository files to
    fetch, writing the bash script that fetches them with aria2c, and naming the
    script. The repository listing, the hub's URL scheme and glob matching are
    outside the model: the file list is an input, `hubUrl` gives the download URL
    of a file and `glob` decides whether a path matches a pattern. An absent list
    of patterns or precisions is the empty sequence. */
module HfScriptGen {
  import opened Text

  // ---------------------------------------------------------------------------
  // filter_files

  /** The markers that tell a file's numeric precision. */
  const PrecisionMarkers: seq<string> := ["fp8", "fp16", "fp32", "bf16"]

  predicate MatchesSome(path: string, patterns: seq<string>, glob: (string, string) -> bool) {
    exists k :: 0 <= k < |patterns| && glob(path, patterns[k])
  }

  /** The lower-cased path names some precision. */
  predicate HasMarker(path: string) {
    exists k :: 0 <= k < |PrecisionMarkers| && Contains(Lower(path), PrecisionMarkers[k])
  }

  /** Some requested precision other than `none` occurs in the lower-cased path. */
  predicate Requested(path: string, precisions: seq<string>) {
    exists k :: 0 <= k < |precisions| && Lower(precisions[k]) != "none" && Contains(Lower(path), Lower(precisions[k]))
  }

  /** Files without a marker always stay; the others stay when they carry a requested precision. */
  predicate PrecisionKeeps(path: string, precisions: seq<string>) {
    !HasMarker(path) || Requested(path, precisions)
  }

  function ByPattern(files: seq<string>, patterns: seq<string>, glob: (string, string) -> bool): seq<string>
    decreases |files|
  {
    if files == [] then []
    else (if MatchesSome(files[0], patterns, glob) then [files[0]] else []) + ByPattern(files[1..], patterns, glob)
  }

  function ByPrecision(files: seq<string>, precisions: seq<string>): seq<string>
    decreases |files|
  {
    if files == [] then []
    else (if PrecisionKeeps(files[0], precisions) then [files[0]] else []) + ByPrecision(files[1..], precisions)
  }

  /** What `filter_files` returns: the pattern filter, when there are patterns,
      then the precision filter, when there are precisions. */
  function Selected(files: seq<string>, patterns: seq<string>, precisions: seq<string>, glob: (string, string) -> bool): seq<string> {
    var matched := if patterns == [] then files else ByPattern(files, patterns, glob);
    if precisions == [] then matched else ByPrecision(matched, precisions)
  }

  /** Whether `any(marker in lower for marker in precision_markers)`. */
  method AnyMarker(lower: string) returns (found: bool)
    ensures found == exists k :: 0 <= k < |PrecisionMarkers| && Contains(lower, PrecisionMarkers[k])
  {
    found := false;
    var k := 0;
    while k < |PrecisionMarkers| && !found
      invariant 0 <= k <= |PrecisionMarkers|
      invariant found == exists j :: 0 <= j < k && Contains(lower, PrecisionMarkers[j])
    {
      found := Contains(lower, PrecisionMarkers[k]);
      k := k + 1;
    }
  }

  /** The pattern loop of `filter_files` for one path: it stops at the first match. */
  method MatchesAny(path: string, patterns: seq<string>, glob: (string, string) -> bool) returns (hit: bool)
    ensures hit == MatchesSome(path, patterns, glob)
  {
    hit := false;
    var j := 0;
    while j < |patterns| && !hit
      invariant 0 <= j <= |patterns|
      invariant hit == exists k :: 0 <= k < j && glob(path, patterns[k])
    {
      if glob(path, patterns[j]) {
        hit := true;
      }
      j := j + 1;
    }
  }

  /** The precision test of `filter_files` for one path: a path without a marker
      stays, another one stays at the first requested precision it contains. */
  method KeepsPrecision(path: string, precisions: seq<string>) returns (keep: bool)
    ensures keep == PrecisionKeeps(path, precisions)
  {
    var lower := Lower(path);
    var marked := AnyMarker(lower);
    keep := false;
    if !marked {
      keep := true;
    } else {
      var j := 0;
      while j < |precisions| && !keep
        invariant 0 <= j <= |precisions|
        invariant keep == exists k :: 0 <= k < j && Lower(precisions[k]) != "none" && Contains(lower, Lower(precisions[k]))
      {
        if Lower(precisions[j]) != "none" && Contains(lower, Lower(precisions[j])) {
          keep := true;
        }
        j := j + 1;
      }
    }
  }

  /** The pattern loop of `filter_files`: each file that matches some pattern is
      appended once. */
  method FilterByPattern(files: seq<string>, patterns: seq<string>, glob: (string, string) -> bool)
    returns (matched: seq<string>)
    ensures matched == ByPattern(files, patterns, glob)
  {
    matched := [];
    for i := 0 to |files|
      invariant matched == ByPattern(files[..i], patterns, glob)
    {
      var hit := MatchesAny(files[i], patterns, glob);
      if hit {
        matched := matched + [files[i]];
      }
      ByPatternSnoc(files[..i], files[i], patterns, glob);
      assert files[..i + 1] == files[..i] + [files[i]];
    }
    assert files[..|files|] == files;
  }

  /** The precision loop of `filter_files`, with its `continue` and `break`. */
  method FilterByPrecision(files: seq<string>, precisions: seq<string>) returns (kept: seq<string>)
    ensures kept == ByPrecision(files, precisions)
  {
    kept := [];
    for i := 0 to |files|
      invariant kept == ByPrecision(files[..i], precisions)
    {
      var path := files[i];
      var keep := KeepsPrecision(path, precisions);
      if keep {
        kept := kept + [path];
      }
      ByPrecisionSnoc(files[..i], path, precisions);
      assert files[..i + 1] == files[..i] + [path];
    }
    assert files[..|files|] == files;
  }

  /** `filter_files` */
  method FilterFiles(files: seq<string>, patterns: seq<string>, precisions: seq<string>, glob: (string, string) -> bool)
    returns (result: seq<string>)
    ensures result == Selected(files, patterns, precisions, glob)
  {
    var matched := files;
    if patterns != [] {
      matched := FilterByPattern(files, patterns, glob);
    }
    if precisions == [] {
      return matched;
    }
    result := FilterByPrecision(matched, precisions);
  }

  lemma {:induction false} ByPatternSnoc(files: seq<string>, f: string, patterns: seq<string>, glob: (string, string) -> bool)
    ensures ByPattern(files + [f], patterns, glob)
         == ByPattern(files, patterns, glob) + (if MatchesSome(f, patterns, glob) then [f] else [])
    decreases |files|
  {
    if files == [] {
      assert files + [f] == [f];
    } else {
      assert (files + [f])[1..] == files[1..] + [f];
      ByPatternSnoc(files[1..], f, patterns, glob);
    }
  }

  lemma {:induction false} ByPrecisionSnoc(files: seq<string>, f: string, precisions: seq<string>)
    ensures ByPrecision(files + [f], precisions)
         == ByPrecision(files, precisions) + (if PrecisionKeeps(f, precisions) then [f] else [])
    decreases |files|
  {
    if files == [] {
      assert files + [f] == [f];
    } else {
      assert (files + [f])[1..] == files[1..] + [f];
      ByPrecisionSnoc(files[1..], f, precisions);
    }
  }

  /** `xs` is `ys` with some elements left out, the rest in their order. */
  predicate IsSubsequence(xs: seq<string>, ys: seq<string>)
    decreases |ys|
  {
    if xs == [] then true
    else if ys == [] then false
    else (xs[0] == ys[0] && IsSubsequence(xs[1..], ys[1..])) || IsSubsequence(xs, ys[1..])
  }

  lemma {:induction false} SubsequenceSkip(xs: seq<string>, ys: seq<string>)
    requires ys != [] && IsSubsequence(xs, ys[1..])
    ensures IsSubsequence(xs, ys)
  {
  }

  lemma {:induction false} SubsequenceRefl(ys: seq<string>)
    ensures IsSubsequence(ys, ys)
    decreases |ys|
  {
    if ys != [] {
      SubsequenceRefl(ys[1..]);
    }
  }

  lemma {:induction false} ByPatternSubsequence(files: seq<string>, patterns: seq<string>, glob: (string, string) -> bool)
    ensures IsSubsequence(ByPattern(files, patterns, glob), files)
    decreases |files|
  {
    if files != [] {
      var rest := ByPattern(files[1..], patterns, glob);
      ByPatternSubsequence(files[1..], patterns, glob);
      if MatchesSome(files[0], patterns, glob) {
        assert ByPattern(files, patterns, glob) == [files[0]] + rest;
        assert ([files[0]] + rest)[1..] == rest;
      } else {
        assert ByPattern(files, patterns, glob) == rest;
        SubsequenceSkip(rest, files);
      }
    }
  }

  /** The pattern filter keeps each occurrence of a file exactly when some pattern matches it. */
  lemma {:induction false} ByPatternCount(files: seq<string>, patterns: seq<string>, glob: (string, string) -> bool, x: string)
    ensures multiset(ByPattern(files, patterns, glob))[x] == if MatchesSome(x, patterns, glob) then multiset(files)[x] else 0
    decreases |files|
  {
    if files != [] {
      ByPatternCount(files[1..], patterns, glob, x);
      assert files == [files[0]] + files[1..];
      assert multiset(files) == multiset([files[0]]) + multiset(files[1..]);
    }
  }

  lemma {:induction false} ByPrecisionSubsequence(files: seq<string>, precisions: seq<string>)
    ensures IsSubsequence(ByPrecision(files, precisions), files)
    decreases |files|
  {
    if files != [] {
      var rest := ByPrecision(files[1..], precisions);
      ByPrecisionSubsequence(files[1..], precisions);
      if PrecisionKeeps(files[0], precisions) {
        assert ByPrecision(files, precisions) == [files[0]] + rest;
        assert ([files[0]] + rest)[1..] == rest;
      } else {
        assert ByPrecision(files, precisions) == rest;
        SubsequenceSkip(rest, files);
      }
    }
  }

  /** The precision filter keeps each occurrence of a file exactly when it has no
      marker or carries a requested precision. */
  lemma {:induction false} ByPrecisionCount(files: seq<string>, precisions: seq<string>, x: string)
    ensures multiset(ByPrecision(files, precisions))[x] == if PrecisionKeeps(x, precisions) then multiset(files)[x] else 0
    decreases |files|
  {
    if files != [] {
      ByPrecisionCount(files[1..], precisions, x);
      assert files == [files[0]] + files[1..];
      assert multiset(files) == multiset([files[0]]) + multiset(files[1..]);
    }
  }

  lemma {:induction false} SubsequenceTrans(xs: seq<string>, ys: seq<string>, zs: seq<string>)
    requires IsSubsequence(xs, ys) && IsSubsequence(ys, zs)
    ensures IsSubsequence(xs, zs)
    decreases |zs|
  {
    if xs != [] {
      assert ys != [] && zs != [];
      if ys[0] == zs[0] && IsSubsequence(ys[1..], zs[1..]) {
        if xs[0] == ys[0] && IsSubsequence(xs[1..], ys[1..]) {
          SubsequenceTrans(xs[1..], ys[1..], zs[1..]);
        } else {
          SubsequenceTrans(xs, ys[1..], zs[1..]);
          SubsequenceSkip(xs, zs);
        }
      } else {
        SubsequenceTrans(xs, ys, zs[1..]);
      }
    }
  }

  /** Without patterns and precisions every file is kept. */
  lemma SelectAll(files: seq<string>, glob: (string, string) -> bool)
    ensures Selected(files, [], [], glob) == files
  {
  }

  /** What `filter_files` keeps is a subsequence of its input: order kept, nothing added or repeated. */
  lemma SelectedSubsequence(files: seq<string>, patterns: seq<string>, precisions: seq<string>, glob: (string, string) -> bool)
    ensures IsSubsequence(Selected(files, patterns, precisions, glob), files)
  {
    var matched := if patterns == [] then files else ByPattern(files, patterns, glob);
    if patterns == [] {
      SubsequenceRefl(files);
    } else {
      ByPatternSubsequence(files, patterns, glob);
    }
    if precisions != [] {
      ByPrecisionSubsequence(matched, precisions);
      SubsequenceTrans(ByPrecision(matched, precisions), matched, files);
    }
  }

  /** A file occurs in the result as often as in the input when it passes both filters, and not at all otherwise. */
  lemma SelectedCount(files: seq<string>, patterns: seq<string>, precisions: seq<string>, glob: (string, string) -> bool, x: string)
    ensures multiset(Selected(files, patterns, precisions, glob))[x]
         == if (patterns == [] || MatchesSome(x, patterns, glob)) && (precisions == [] || PrecisionKeeps(x, precisions))
            then multiset(files)[x] else 0
  {
    var matched := if patterns == [] then files else ByPattern(files, patterns, glob);
    if patterns != [] {
      ByPatternCount(files, patterns, glob, x);
    }
    if precisions != [] {
      ByPrecisionCount(matched, precisions, x);
    }
  }

  // ---------------------------------------------------------------------------
  // generate_download_script

  /** The directory every command downloads into. */
  const ModelsDir: string := "/workspace/ComfyUI/models"

  const ClosingLine: string := "echo \"All downloads completed!\""

  /** `model_name if model_name else repo_id`. */
  function DisplayName(repo: string, modelName: Option<string>): string {
    if modelName.Some? && modelName.value != [] then modelName.value else repo
  }

  /** The lines in front of the first download. */
  function Preamble(display: string, repo: string): seq<string> {
    ["#!/bin/bash",
     "# Model: " + display,
     "",
     "echo \"Downloading files from " + "HuggingFace repository " + repo + "...\"",
     "",
     "# Create output directory " + "if it doesn't exist",
     "mkdir -p \"" + ModelsDir + "\"",
     ""]
  }

  /** The three-line aria2c command (one list element holding two line breaks). */
  function CommandText(name: string, url: string): string {
    "aria2c -x 16 -s 16 -d \"" + ModelsDir + "\" \\\n"
    + "    -o \"" + name + "\"" + " --auto-file-renaming=false" + " --conditional-get=true" + " \\\n"
    + "    \"" + url + "\""
  }

  /** The comment, the command and the blank line of one file. */
  function Block(repo: string, path: string, hubUrl: (string, string) -> string): seq<string> {
    ["# Download " + path, CommandText(Basename(path), hubUrl(repo, path)), ""]
  }

  /** The blocks of `xs`, one after the other. */
  function ConcatMap(xs: seq<string>, f: string -> seq<string>): seq<string>
    decreases |xs|
  {
    if xs == [] then [] else f(xs[0]) + ConcatMap(xs[1..], f)
  }

  function BlockOf(repo: string, hubUrl: (string, string) -> string): string -> seq<string> {
    path => Block(repo, path, hubUrl)
  }

  function Blocks(repo: string, files: seq<string>, hubUrl: (string, string) -> string): seq<string> {
    ConcatMap(files, BlockOf(repo, hubUrl))
  }

  /** The list `script_lines` once every file has been added. */
  function ScriptLines(repo: string, files: seq<string>, modelName: Option<string>, hubUrl: (string, string) -> string): seq<string> {
    Preamble(DisplayName(repo, modelName), repo) + Blocks(repo, files, hubUrl) + [ClosingLine]
  }

  /** The text written to the script file. */
  function ScriptText(repo: string, files: seq<string>, modelName: Option<string>, hubUrl: (string, string) -> string): string {
    Join(ScriptLines(repo, files, modelName, hubUrl), "\n")
  }

  /** The three lines the generator appends for one file. */
  method AppendBlock(lines: seq<string>, repo: string, path: string, hubUrl: (string, string) -> string)
    returns (lines': seq<string>)
    ensures lines' == lines + BlockOf(repo, hubUrl)(path)
  {
    var name := Basename(path);
    var url := hubUrl(repo, path);
    lines' := lines + ["# Download " + path];
    lines' := lines' + [CommandText(name, url)];
    lines' := lines' + [""];
  }

  /** The loop of `generate_download_script`: one block per file, in order. */
  method AppendBlocks(lines: seq<string>, repo: string, files: seq<string>, hubUrl: (string, string) -> string)
    returns (lines': seq<string>)
    ensures lines' == lines + Blocks(repo, files, hubUrl)
  {
    ghost var f := BlockOf(repo, hubUrl);
    lines' := lines;
    for i := 0 to |files|
      invariant lines' == lines + ConcatMap(files[..i], f)
    {
      var path := files[i];
      lines' := AppendBlock(lines', repo, path, hubUrl);
      ConcatMapSnoc(files[..i], path, f);
      assert files[..i + 1] == files[..i] + [path];
    }
    assert files[..|files|] == files;
  }

  /** `generate_download_script`, up to the file write: the script's lines and text. */
  method GenerateDownloadScript(repo: string, files: seq<string>, modelName: Option<string>, hubUrl: (string, string) -> string)
    returns (lines: seq<string>, text: string)
    ensures lines == ScriptLines(repo, files, modelName, hubUrl)
    ensures text == ScriptText(repo, files, modelName, hubUrl)
  {
    var display := if modelName.Some? && modelName.value != [] then modelName.value else repo;
    lines := AppendBlocks(Preamble(display, repo), repo, files, hubUrl);
    lines := lines + [ClosingLine];
    text := Join(lines, "\n");
  }

  lemma {:induction false} ConcatMapSnoc(xs: seq<string>, x: string, f: string -> seq<string>)
    ensures ConcatMap(xs + [x], f) == ConcatMap(xs, f) + f(x)
    decreases |xs|
  {
    if xs == [] {
      assert xs + [x] == [x];
    } else {
      assert (xs + [x])[1..] == xs[1..] + [x];
      ConcatMapSnoc(xs[1..], x, f);
    }
  }

  /** Blocks of three lines each, in the order of `xs`. */
  lemma {:induction false} ConcatMapLayout(xs: seq<string>, f: string -> seq<string>)
    requires forall k :: 0 <= k < |xs| ==> |f(xs[k])| == 3
    ensures |ConcatMap(xs, f)| == 3 * |xs|
    ensures forall i, j :: 0 <= i < |xs| && 0 <= j < 3 ==> ConcatMap(xs, f)[3 * i + j] == f(xs[i])[j]
    decreases |xs|
  {
    if xs != [] {
      ConcatMapLayout(xs[1..], f);
      var b := ConcatMap(xs, f);
      assert b == f(xs[0]) + ConcatMap(xs[1..], f);
      forall i, j | 1 <= i < |xs| && 0 <= j < 3
        ensures b[3 * i + j] == f(xs[i])[j]
      {
        assert xs[1..][i - 1] == xs[i];
        assert 3 * i + j == 3 + (3 * (i - 1) + j);
      }
    }
  }

  /** The layout of a generated script: the shebang, the `# Model:` header with the
      model name or else the repository id, seven preamble lines, then for each file
      its `# Download` comment, its aria2c command with `-o "<basename>"` and a blank
      line, and last the closing echo. */
  lemma ScriptLayout(repo: string, files: seq<string>, modelName: Option<string>, hubUrl: (string, string) -> string)
    ensures var lines := ScriptLines(repo, files, modelName, hubUrl);
      && |lines| == 9 + 3 * |files|
      && lines[0] == "#!/bin/bash"
      && lines[1] == "# Model: " + (if modelName.Some? && modelName.value != [] then modelName.value else repo)
      && lines[|lines| - 1] == "echo \"All downloads completed!\""
      && forall i :: 0 <= i < |files| ==>
           && lines[8 + 3 * i] == "# Download " + files[i]
           && lines[9 + 3 * i] == CommandText(Basename(files[i]), hubUrl(repo, files[i]))
  {
    var f := BlockOf(repo, hubUrl);
    ConcatMapLayout(files, f);
    var lines := ScriptLines(repo, files, modelName, hubUrl);
    var b := Blocks(repo, files, hubUrl);
    ScriptEnds(repo, files, modelName, hubUrl);
    forall i | 0 <= i < |files|
      ensures lines[8 + 3 * i] == "# Download " + files[i]
      ensures lines[9 + 3 * i] == CommandText(Basename(files[i]), hubUrl(repo, files[i]))
    {
      assert lines[8 + 3 * i] == b[3 * i + 0] == f(files[i])[0];
      assert lines[9 + 3 * i] == b[3 * i + 1] == f(files[i])[1];
    }
  }

  /** The preamble in front of the blocks and the closing line after them. */
  lemma ScriptEnds(repo: string, files: seq<string>, modelName: Option<string>, hubUrl: (string, string) -> string)
    requires |Blocks(repo, files, hubUrl)| == 3 * |files|
    ensures var lines := ScriptLines(repo, files, modelName, hubUrl);
      && |lines| == 9 + 3 * |files|
      && lines[0] == "#!/bin/bash"
      && lines[1] == "# Model: " + DisplayName(repo, modelName)
      && lines[|lines| - 1] == ClosingLine
      && forall k :: 0 <= k < |Blocks(repo, files, hubUrl)| ==> lines[8 + k] == Blocks(repo, files, hubUrl)[k]
  {
  }

  // ---------------------------------------------------------------------------
  // output path naming in main

  const DefaultFolder: string := "scripts/preset_model_scripts"

  /** `download_<formatted repo>[_<precisions joined by _>].sh` */
  function ScriptFileName(formatted: string, precisions: seq<string>): string {
    "download_" + formatted + (if precisions == [] then "" else "_" + Join(precisions, "_")) + ".sh"
  }

  /** Where the script is written: `--output` when given, else the script file name
      inside `--folder`, or inside the default folder when that is not given. */
  function OutputPath(output: Option<string>, folder: Option<string>, repo: string, precisions: seq<string>): string {
    if output.Some? && output.value != [] then output.value
    else
      var dir := if folder.Some? && folder.value != [] then folder.value else DefaultFolder;
      dir + "/" + ScriptFileName(Replace(repo, "/", "_"), precisions)
  }

  /** A name without `/` placed in a directory is that path's basename. */
  lemma PlacedIn(dir: string, formatted: string, precisions: seq<string>)
    requires '/' !in formatted
    requires forall k :: 0 <= k < |precisions| ==> '/' !in precisions[k]
    ensures var p := dir + "/" + ScriptFileName(formatted, precisions);
      && StartsWith(p, dir + "/")
      && Basename(p) == ScriptFileName(formatted, precisions)
      && EndsWith(p, ".sh")
  {
    var suffix := if precisions == [] then "" else "_" + Join(precisions, "_");
    if precisions != [] {
      JoinKeepsAbsent(precisions, "_", '/');
    }
    var name := ScriptFileName(formatted, precisions);
    assert name == "download_" + formatted + suffix + ".sh";
    assert '/' !in name by {
      assert '/' !in "download_" && '/' !in ".sh";
    }
    AfterLastSep(dir, name, '/');
    var p := dir + "/" + name;
    assert p[..|dir + "/"|] == dir + "/";
    assert p[|p| - 3..] == name[|name| - 3..] == ".sh";
  }

  /** Without `--output`, the script goes directly into the folder (the default one
      when none is given), as `download_<repo>[_<precisions>].sh`, where every `/` of
      the repository id has become `_` and nothing else has changed. */
  lemma OutputPathNaming(output: Option<string>, folder: Option<string>, repo: string, precisions: seq<string>)
    requires output.None? || output.value == []
    requires forall k :: 0 <= k < |precisions| ==> '/' !in precisions[k]
    ensures var p := OutputPath(output, folder, repo, precisions);
      var dir := if folder.Some? && folder.value != [] then folder.value else DefaultFolder;
      var formatted := Replace(repo, "/", "_");
      && StartsWith(p, dir + "/")
      && Basename(p) == "download_" + formatted + (if precisions == [] then "" else "_" + Join(precisions, "_")) + ".sh"
      && EndsWith(p, ".sh")
      && |formatted| == |repo|
      && forall k :: 0 <= k < |repo| ==> formatted[k] == if repo[k] == '/' then '_' else repo[k]
  {
    var dir := if folder.Some? && folder.value != [] then folder.value else DefaultFolder;
    var formatted := Replace(repo, "/", "_");
    ReplaceCharByChar(repo, '/', '_');
    PlacedIn(dir, formatted, precisions);
  }
}

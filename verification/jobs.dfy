/** What the download workers of the control panel and of the stand-alone CivitAI
    downloader share. A worker runs one `aria2c` process at a time; the process
    itself is not modelled. What it does is an input, a `Transfer`: the lines it
    prints and its exit code, or the reason it could not be started. The HTTP
    handlers that run beside the worker (stop, status poll) are `Interrupt` steps
    placed between two lines of output: each handler runs as one atomic step at
    that point of the worker. A stop also has a start, which ends the process'
    output, and an end, which may come only after the worker has returned; each
    worker's `LateStopOutcome` follows that course. */
module Jobs {
  import opened Text
  import opened ProgressParser

  /** The `status` key of a status dictionary. */
  datatype Phase = Idle | Downloading | Completed | Error | Stopped

  /** A request handler that may run while a worker is busy. */
  datatype Handler = StopRequest | StatusPoll

  /** One event seen by a worker that reads a process' output: a line as
      `readline` returns it, or a handler running at that point. */
  datatype Step = Output(line: string) | Interrupt(handler: Handler)

  /** What happens to one spawned process. */
  datatype Transfer =
    | Ran(steps: seq<Step>, exitCode: int, stderr: string)
    | SpawnFailed(reason: string)

  /** The message the workers store for an exception `e`: `f"Error: {str(e)}"`. */
  function ErrorText(reason: string): string {
    "Error: " + reason
  }

  /** What `str(e)` gives when a worker touches a process handle that a stop
      handler has meanwhile set to `None`. */
  function MissingAttribute(attribute: string): string {
    "'NoneType' object has no attribute '" + attribute + "'"
  }

  const StopMessage: string := "Download stopped by user"

  /** A status dictionary with the seven keys of a single-file download. */
  datatype FileStatus = FileStatus(
    phase: Phase, message: string, progress: int,
    downloaded: string, total: string, speed: string, eta: string)

  /** The values a status dictionary starts with. */
  const IdleStatus: FileStatus := FileStatus(Idle, "", 0, "0B", "0B", "0B/s", "Unknown")

  /** The status a single-file download works on, and whether its process handle is set. */
  datatype FileJob = FileJob(status: FileStatus, live: bool)

  /** The message of a `KeyError` for a missing key: `str(KeyError(key))` is
      `repr(key)`. */
  function KeyErrorText(key: string): string {
    Repr(key)
  }

  /** The quote `repr` puts around a string: a double quote when the string holds
      a single quote and no double quote, otherwise a single quote. */
  function ReprQuote(s: string): char {
    if '\'' in s && '"' !in s then '"' else '\''
  }

  /** The characters up to U+00FF that `repr` writes as `\xNN`: the control
      characters other than tab, line feed and carriage return, DEL, the C1
      controls, the no-break space and the soft hyphen. */
  predicate HexEscaped(c: char) {
    && c != '\t' && c != '\n' && c != '\r'
    && (c < ' ' || (0x7f <= c as int <= 0xa0) || c as int == 0xad)
  }

  /** A lower-case hexadecimal digit. */
  function HexDigit(n: nat): char
    requires n < 16
  {
    "0123456789abcdef"[n]
  }

  /** The value of a hexadecimal digit; any other character counts as 0. */
  function HexValue(c: char): (n: nat)
    ensures n < 16
  {
    if '0' <= c <= '9' then c as int - '0' as int
    else if 'a' <= c <= 'f' then c as int - 'a' as int + 10
    else 0
  }

  /** How `repr` writes one character inside quotes `q`. */
  function ReprChar(c: char, q: char): string {
    if c == q || c == '\\' then ['\\', c]
    else if c == '\t' then "\\t"
    else if c == '\n' then "\\n"
    else if c == '\r' then "\\r"
    else if HexEscaped(c) then "\\x" + [HexDigit(c as int / 16), HexDigit(c as int % 16)]
    else [c]
  }

  /** The characters of `s` as `repr` writes them inside quotes `q`. */
  function ReprBody(s: string, q: char): string
    decreases |s|
  {
    if s == [] then [] else ReprChar(s[0], q) + ReprBody(s[1..], q)
  }

  /** `repr` of a string. */
  function Repr(s: string): (r: string)
    ensures |r| >= 2 && r[0] == r[|r| - 1]
    ensures r[0] == '"' <==> '\'' in s && '"' !in s
    ensures r[0] == '"' || r[0] == '\''
  {
    [ReprQuote(s)] + ReprBody(s, ReprQuote(s)) + [ReprQuote(s)]
  }

  /** Reading back the text between the quotes of a `repr`: a backslash escape
      gives the character it stands for, any other character stands for itself. */
  function Unescape(t: string): string
    decreases |t|
  {
    if t == [] then []
    else if t[0] == '\\' && |t| >= 2 then
      if t[1] == 't' then "\t" + Unescape(t[2..])
      else if t[1] == 'n' then "\n" + Unescape(t[2..])
      else if t[1] == 'r' then "\r" + Unescape(t[2..])
      else if t[1] == 'x' && |t| >= 4 then [(HexValue(t[2]) * 16 + HexValue(t[3])) as char] + Unescape(t[4..])
      else [t[1]] + Unescape(t[2..])
    else [t[0]] + Unescape(t[1..])
  }

  lemma HexRoundTrip(n: nat)
    requires n < 16
    ensures HexValue(HexDigit(n)) == n
  {
  }

  /** Reading one written character back gives that character. */
  lemma UnescapeChar(c: char, q: char, rest: string)
    requires q == '\'' || q == '"'
    ensures Unescape(ReprChar(c, q) + rest) == [c] + Unescape(rest)
  {
    var t := ReprChar(c, q) + rest;
    if c == q || c == '\\' {
      assert t[2..] == rest;
    } else if c == '\t' || c == '\n' || c == '\r' {
      assert t[2..] == rest;
    } else if HexEscaped(c) {
      HexRoundTrip(c as int / 16);
      HexRoundTrip(c as int % 16);
      assert t[2] == HexDigit(c as int / 16) && t[3] == HexDigit(c as int % 16);
      assert t[4..] == rest;
    } else {
      assert t[1..] == rest;
    }
  }

  /** Between its quotes, `repr` can be read back: the round trip gives the string. */
  lemma {:induction false} ReprReadBack(s: string)
    ensures Unescape(Repr(s)[1..|Repr(s)| - 1]) == s
  {
    assert Repr(s)[1..|Repr(s)| - 1] == ReprBody(s, ReprQuote(s));
    BodyReadBack(s, ReprQuote(s));
  }

  lemma {:induction false} BodyReadBack(s: string, q: char)
    requires q == '\'' || q == '"'
    ensures Unescape(ReprBody(s, q)) == s
    decreases |s|
  {
    if s != [] {
      UnescapeChar(s[0], q, ReprBody(s[1..], q));
      BodyReadBack(s[1..], q);
    }
  }

  /** A string with no quote, no backslash and nothing `repr` escapes is written
      as itself between single quotes. */
  lemma {:induction false} ReprPlain(s: string)
    requires forall k :: 0 <= k < |s| ==> s[k] != '\'' && s[k] != '\\' && s[k] >= ' ' && !HexEscaped(s[k])
    ensures Repr(s) == "'" + s + "'"
  {
    PlainBody(s, '\'');
  }

  lemma {:induction false} PlainBody(s: string, q: char)
    requires forall k :: 0 <= k < |s| ==> s[k] != q && s[k] != '\\' && s[k] >= ' ' && !HexEscaped(s[k])
    ensures ReprBody(s, q) == s
    decreases |s|
  {
    if s != [] {
      PlainBody(s[1..], q);
      assert s == [s[0]] + s[1..];
    }
  }

  /** A key holding a single quote is written between double quotes, as itself. */
  lemma ReprSingleQuote()
    ensures Repr("a'b") == "\"a'b\""
  {
    assert ReprBody("a'b", '"') == "a'b" by {
      PlainBody("a'b", '"');
    }
  }

  /** The progress fields taken from a sample, as every downloader stores them. */
  function WithSample(s: FileStatus, sample: Sample): FileStatus {
    s.(downloaded := sample.downloaded, total := sample.total, progress := sample.percent,
       speed := sample.speed + "/s", eta := sample.eta)
  }

  /** The condition `downloaded and total and percent is not None`. */
  predicate Reported(r: Option<Sample>) {
    r.Some? && r.value.downloaded != [] && r.value.total != []
  }

  /** A stop handler runs somewhere among the steps. */
  predicate StopsDuring(steps: seq<Step>) {
    Interrupt(StopRequest) in steps
  }

  /** `os.path.splitext(url.split('?')[0])[1]` is appended to a file name that
      has no extension of its own. */
  function NamedFile(url: string, filename: string): string {
    var urlExtension := Extension(BeforeFirst(url, '?'));
    if Extension(filename) == [] && urlExtension != [] then filename + urlExtension else filename
  }

  /** The URL handed to aria2c: with `?token=` appended only when a token is given. */
  function TokenUrl(url: string, token: string): string {
    if token != [] then url + "?token=" + token else url
  }

  /** The steps a loop `for line in iter(readline, '')` consumes: everything
      before the first empty read. */
  function ReadPart(steps: seq<Step>): (r: seq<Step>)
    ensures r <= steps && Output("") !in r
    decreases |steps|
  {
    if steps == [] || steps[0] == Output("") then [] else [steps[0]] + ReadPart(steps[1..])
  }

  /** Steps without an empty read are read to the end. */
  lemma {:induction false} ReadWhole(steps: seq<Step>)
    requires Output("") !in steps
    ensures ReadPart(steps) == steps
    decreases |steps|
  {
    if steps != [] {
      assert Output("") !in steps[1..];
      ReadWhole(steps[1..]);
      assert [steps[0]] + steps[1..] == steps;
    }
  }

  /** Any first part of what the loop reads is read whole, and holds a stop only
      when what the loop reads does. */
  lemma ReadPrefix(steps: seq<Step>, k: nat)
    requires k <= |ReadPart(steps)|
    ensures ReadPart(ReadPart(steps)[..k]) == ReadPart(steps)[..k]
    ensures StopsDuring(ReadPart(steps)[..k]) ==> StopsDuring(ReadPart(steps))
  {
    var p := ReadPart(steps)[..k];
    assert Output("") !in p;
    ReadWhole(p);
    StopsPrefix(ReadPart(steps), k);
  }

  /** A stop among the first steps is a stop among all of them. */
  lemma StopsPrefix(steps: seq<Step>, k: nat)
    requires k <= |steps|
    ensures StopsDuring(steps[..k]) ==> StopsDuring(steps)
  {
    if StopsDuring(steps[..k]) {
      var i :| 0 <= i < k && steps[..k][i] == Interrupt(StopRequest);
      assert steps[i] == Interrupt(StopRequest);
    }
  }
}

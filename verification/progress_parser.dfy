/** The two recognisers of aria2c's progress summary line, e.g.
      [#bc945d 16GiB/31GiB(52%) CN:16 DL:80MiB ETA:3m12s]
    `ParsePanel` is the control panel's `parse_aria2c_output` and `ParseStandalone`
    the one of the stand-alone CivitAI downloader. Both follow what Python's
    `re.search` does with their patterns: the first position where the mandatory
    head matches wins, every group is greedy, `.*?` stops at the first position
    where the rest matches and never crosses a line break. A line that does not
    match gives `None`, the model of the all-`None` five-tuple. */
module ProgressParser {
  import opened Text

  /** The five fields the parser returns on a match. */
  datatype Sample = Sample(downloaded: string, total: string, percent: nat, speed: string, eta: string)

  /** What the mandatory head of a pattern captured, and the text after it. */
  datatype Head = Head(downloaded: string, total: string, percent: nat, rest: string)

  predicate IsUnitLetter(c: char) { c == 'K' || c == 'M' || c == 'G' }

  /** `(?:[KMG]i?B)?` */
  function OptionalUnit(s: string): (r: (string, string))
    ensures r.0 + r.1 == s
  {
    if |s| >= 3 && IsUnitLetter(s[0]) && s[1] == 'i' && s[2] == 'B' then (s[..3], s[3..])
    else if |s| >= 2 && IsUnitLetter(s[0]) && s[1] == 'B' then (s[..2], s[2..])
    else ([], s)
  }

  /** `[KMG]iB` */
  function BinaryUnit(s: string): (r: Option<(string, string)>)
    ensures r.Some? ==> r.value.0 + r.value.1 == s
  {
    if |s| >= 3 && IsUnitLetter(s[0]) && s[1] == 'i' && s[2] == 'B' then Some((s[..3], s[3..])) else None
  }

  /** `(?:\.\d+)?` */
  function OptionalFraction(s: string): (r: (string, string))
    ensures r.0 + r.1 == s
  {
    if s != [] && s[0] == '.' then
      var digits := Span(s[1..], IsDigit);
      if digits.0 != [] then
        assert s == "." + digits.0 + digits.1;
        ("." + digits.0, digits.1)
      else ([], s)
    else ([], s)
  }

  /** `\[#[0-9a-fA-F]+\s+` anchored at the start of `s`; gives what follows it. */
  function Marker(s: string): Option<string> {
    if !StartsWith(s, "[#") then None
    else
      var id := Span(s[2..], IsHex);
      var gap := Span(id.1, IsSpace);
      if id.0 == [] || gap.0 == [] then None else Some(gap.1)
  }

  /** A size with its optional unit, `[\d.]+(?:[KMG]i?B)?`: the number, the unit and what follows. */
  function PanelSize(s: string): Option<(string, string, string)> {
    var num := Span(s, IsNumChar);
    var unit := OptionalUnit(num.1);
    if num.0 == [] then None else Some((num.0, unit.0, unit.1))
  }

  /** A size with a mandatory binary unit, `[\d.]+[KMG]iB`. */
  function BinarySize(s: string): Option<(string, string, string)> {
    var num := Span(s, IsNumChar);
    var unit := BinaryUnit(num.1);
    if num.0 == [] || unit.None? then None else Some((num.0, unit.value.0, unit.value.1))
  }

  /** `(\d+(?:\.\d+)?)%\)`, read as `int(float(...))`: the integer part, and what follows. */
  function PanelPercent(s: string): Option<(nat, string)> {
    var whole := Span(s, IsDigit);
    var frac := OptionalFraction(whole.1);
    if whole.0 == [] || !StartsWith(frac.1, "%)") then None
    else Some((DecimalValue(whole.0), frac.1[2..]))
  }

  /** `(\d+)%\)`, read as `int(...)`. */
  function IntPercent(s: string): Option<(nat, string)> {
    var whole := Span(s, IsDigit);
    if whole.0 == [] || !StartsWith(whole.1, "%)") then None
    else Some((DecimalValue(whole.0), whole.1[2..]))
  }

  /** The head of the control-panel pattern, anchored at the start of `s`:
      `\[#[0-9a-fA-F]+\s+([\d.]+(?:[KMG]i?B)?)/(?:([\d.]+)(?:[KMG]i?B)?)\((\d+(?:\.\d+)?)%\)`.
      The downloaded size keeps its unit, the total loses it (its unit is outside the group). */
  function PanelHead(s: string): Option<Head> {
    match Marker(s)
    case None => None
    case Some(a) =>
      match PanelSize(a)
      case None => None
      case Some(done) =>
        if !StartsWith(done.2, "/") then None
        else
          match PanelSize(done.2[1..])
          case None => None
          case Some(total) =>
            if !StartsWith(total.2, "(") then None
            else
              match PanelPercent(total.2[1..])
              case None => None
              case Some(pc) => Some(Head(done.0 + done.1, total.0, pc.0, pc.1))
  }

  /** The head of the stand-alone pattern, anchored at the start of `s`:
      `\[#[0-9a-fA-F]+\s+([\d.]+[KMG]iB)/([\d.]+[KMG]iB)\((\d+)%\)`. Both sizes keep their unit. */
  function StandaloneHead(s: string): Option<Head> {
    match Marker(s)
    case None => None
    case Some(a) =>
      match BinarySize(a)
      case None => None
      case Some(done) =>
        if !StartsWith(done.2, "/") then None
        else
          match BinarySize(done.2[1..])
          case None => None
          case Some(total) =>
            if !StartsWith(total.2, "(") then None
            else
              match IntPercent(total.2[1..])
              case None => None
              case Some(pc) => Some(Head(done.0 + done.1, total.0 + total.1, pc.0, pc.1))
  }

  /** `CN:\d+\s+DL:` anchored at the start of `s`; gives what follows `DL:`. */
  function ConnectionsAt(s: string): Option<string> {
    if !StartsWith(s, "CN:") then None
    else
      var cn := Span(s[3..], IsDigit);
      var gap := Span(cn.1, IsSpace);
      if cn.0 == [] || gap.0 == [] || !StartsWith(gap.1, "DL:") then None
      else Some(gap.1[3..])
  }

  /** `.*?CN:\d+\s+DL:` */
  function FindConnections(s: string): Option<string>
    decreases |s|
  {
    match ConnectionsAt(s)
    case Some(r) => Some(r)
    case None => if s == [] || s[0] == '\n' then None else FindConnections(s[1..])
  }

  /** `.*?ETA:` */
  function FindEta(s: string): Option<string>
    decreases |s|
  {
    if StartsWith(s, "ETA:") then Some(s[4..])
    else if s == [] || s[0] == '\n' then None
    else FindEta(s[1..])
  }

  /** `(?:(\d+)h)?` and its `m` and `s` siblings: the digits in front of `unit`, if any. */
  function EtaPart(s: string, unit: char): (Option<string>, string) {
    var digits := Span(s, IsDigit);
    if digits.0 != [] && StartsWith(digits.1, [unit]) then (Some(digits.0), digits.1[1..]) else (None, s)
  }

  /** The ETA text: the present parts, each with its unit letter, or "Unknown". */
  function EtaText(h: Option<string>, m: Option<string>, sec: Option<string>): string {
    if h.None? && m.None? && sec.None? then "Unknown"
    else
      (if h.Some? then h.value + "h" else "")
      + (if m.Some? then m.value + "m" else "")
      + (if sec.Some? then sec.value + "s" else "")
  }

  /** The hours, minutes and seconds groups read from just after `ETA:`. */
  function EtaAt(s: string): string {
    var h := EtaPart(s, 'h');
    var m := EtaPart(h.1, 'm');
    var sec := EtaPart(m.1, 's');
    EtaText(h.0, m.0, sec.0)
  }

  /** The optional tail of the control-panel pattern,
      `(?:.*?CN:\d+\s+DL:([\d.]+(?:[KMG]i?B)?)?(?:.*?ETA:(?:(\d+)h)?(?:(\d+)m)?(?:(\d+)s)?)?)?`,
      as the (speed, eta) pair with their defaults "0B" and "Unknown". */
  function PanelTail(s: string): (string, string) {
    match FindConnections(s)
    case None => ("0B", "Unknown")
    case Some(r) =>
      var (speed, after) := match PanelSize(r) case None => ("0B", r) case Some(z) => (z.0 + z.1, z.2);
      match FindEta(after)
      case None => (speed, "Unknown")
      case Some(e) => (speed, EtaAt(e))
  }

  /** The optional tail of the stand-alone pattern,
      `(?:\s+CN:\d+\s+DL:([\d.]+[KMG]iB)(?:\s+ETA:(\d+h)?(\d+m)?(\d+s)?)?)?`. */
  function StandaloneTail(s: string): (string, string) {
    var gap := Span(s, IsSpace);
    match (if gap.0 == [] then None else ConnectionsAt(gap.1))
    case None => ("0B", "Unknown")
    case Some(r) =>
      match BinarySize(r)
      case None => ("0B", "Unknown")
      case Some(z) =>
        var gap2 := Span(z.2, IsSpace);
        if gap2.0 != [] && StartsWith(gap2.1, "ETA:") then (z.0 + z.1, EtaAt(gap2.1[4..]))
        else (z.0 + z.1, "Unknown")
  }

  function PanelSearch(s: string): Option<Sample>
    decreases |s|
  {
    match PanelHead(s)
    case Some(h) =>
      var tail := PanelTail(h.rest);
      Some(Sample(h.downloaded, h.total, h.percent, tail.0, tail.1))
    case None => if s == [] then None else PanelSearch(s[1..])
  }

  function StandaloneSearch(s: string): Option<Sample>
    decreases |s|
  {
    match StandaloneHead(s)
    case Some(h) =>
      var tail := StandaloneTail(h.rest);
      Some(Sample(h.downloaded, h.total, h.percent, tail.0, tail.1))
    case None => if s == [] then None else StandaloneSearch(s[1..])
  }

  /** `parse_aria2c_output` of the control panel. */
  function ParsePanel(line: string): Option<Sample> {
    PanelSearch(line)
  }

  /** `parse_aria2c_output` of the stand-alone CivitAI downloader. */
  function ParseStandalone(line: string): Option<Sample> {
    StandaloneSearch(line)
  }
}


/** What the two recognisers of `ProgressParser` make of the lines aria2c prints. */
module ProgressFacts {
  import opened Text
  import opened ProgressParser

  /** The fields of a progress summary line as aria2c prints it:
      `[#<gid> <done><unit>/<total><unit>(<whole>[.<frac>]%) CN:<n> DL:<rate><unit> ETA:[<h>h][<m>m][<s>s]]` */
  datatype Summary = Summary(
    gid: string, doneNum: string, doneUnit: string, totalNum: string, totalUnit: string,
    whole: string, frac: string, connections: string, rateNum: string, rateUnit: string,
    hours: Option<string>, minutes: Option<string>, seconds: Option<string>)

  predicate AllHex(s: string) { forall k :: 0 <= k < |s| ==> IsHex(s[k]) }

  predicate AllNum(s: string) { forall k :: 0 <= k < |s| ==> IsNumChar(s[k]) }

  /** A size unit: none, decimal or binary. */
  predicate IsUnit(u: string) { u in {"", "KB", "MB", "GB", "KiB", "MiB", "GiB"} }

  predicate IsBinaryUnit(u: string) { u in {"KiB", "MiB", "GiB"} }

  predicate DigitsPart(p: Option<string>) { p.None? || (p.value != [] && AllDigits(p.value)) }

  predicate WellFormed(x: Summary) {
    && x.gid != [] && AllHex(x.gid)
    && x.doneNum != [] && AllNum(x.doneNum) && IsUnit(x.doneUnit)
    && x.totalNum != [] && AllNum(x.totalNum) && IsUnit(x.totalUnit)
    && x.whole != [] && AllDigits(x.whole) && AllDigits(x.frac)
    && x.connections != [] && AllDigits(x.connections)
    && x.rateNum != [] && AllNum(x.rateNum) && IsUnit(x.rateUnit)
    && DigitsPart(x.hours) && DigitsPart(x.minutes) && DigitsPart(x.seconds)
  }

  function PartText(p: Option<string>, unit: char): string {
    if p.Some? then p.value + [unit] else ""
  }

  function EtaField(x: Summary): string {
    PartText(x.hours, 'h') + (PartText(x.minutes, 'm') + PartText(x.seconds, 's'))
  }

  function FracText(frac: string): string {
    if frac == [] then "" else "." + frac
  }

  /** Everything after `%)`. */
  function TailText(x: Summary): string {
    " CN:" + (x.connections + (" DL:" + (x.rateNum + (x.rateUnit + (" ETA:" + (EtaField(x) + "]"))))))
  }

  /** From the percent on. */
  function PercentText(x: Summary): string {
    x.whole + (FracText(x.frac) + ("%)" + TailText(x)))
  }

  /** From the downloaded size on. */
  function SizesText(x: Summary): string {
    x.doneNum + (x.doneUnit + ("/" + (x.totalNum + (x.totalUnit + ("(" + PercentText(x))))))
  }

  /** The line aria2c prints for `x`. */
  function Render(x: Summary): string {
    "[#" + (x.gid + (" " + SizesText(x)))
  }

  /** No digits in front of `unit` at the start of `s`. */
  predicate NoPart(s: string, unit: char) {
    var d := Span(s, IsDigit);
    d.0 == [] || !StartsWith(d.1, [unit])
  }

  /** A literal prefix is recognised and dropped. */
  lemma PrefixOf(lit: string, rest: string)
    ensures StartsWith(lit + rest, lit) && (lit + rest)[|lit|..] == rest
  {
    assert (lit + rest)[..|lit|] == lit;
  }

  /** One blank before a non-blank. */
  lemma BlankOf(rest: string)
    requires rest != [] && !IsSpace(rest[0])
    ensures Span(" " + rest, IsSpace) == (" ", rest)
  {
    SpanOf(" ", rest, IsSpace);
  }

  lemma MarkerOf(gid: string, rest: string)
    requires gid != [] && AllHex(gid) && rest != [] && !IsSpace(rest[0])
    ensures Marker("[#" + (gid + (" " + rest))) == Some(rest)
  {
    var s := "[#" + (gid + (" " + rest));
    assert s[2..] == gid + (" " + rest);
    SpanOf(gid, " " + rest, IsHex);
    SpanOf(" ", rest, IsSpace);
  }

  lemma UnitOf(u: string, rest: string)
    requires IsUnit(u) && rest != [] && !IsUnitLetter(rest[0])
    ensures OptionalUnit(u + rest) == (u, rest)
  {
    var s := u + rest;
    if u == "" {
      assert s == rest;
    } else if |u| == 2 {
      assert s[..2] == u && s[2..] == rest;
    } else {
      assert s[..3] == u && s[3..] == rest;
    }
  }

  lemma BinaryUnitOf(u: string, rest: string)
    requires IsBinaryUnit(u)
    ensures BinaryUnit(u + rest) == Some((u, rest))
  {
    var s := u + rest;
    assert s[..3] == u && s[3..] == rest;
  }

  lemma PanelSizeOf(num: string, u: string, rest: string)
    requires num != [] && AllNum(num) && IsUnit(u)
    requires rest != [] && !IsNumChar(rest[0]) && !IsUnitLetter(rest[0])
    ensures PanelSize(num + (u + rest)) == Some((num, u, rest))
  {
    assert u + rest != [] && (u == [] ==> (u + rest)[0] == rest[0]) && (u != [] ==> (u + rest)[0] == u[0]);
    SpanOf(num, u + rest, IsNumChar);
    UnitOf(u, rest);
  }

  lemma BinarySizeOf(num: string, u: string, rest: string)
    requires num != [] && AllNum(num) && IsBinaryUnit(u)
    ensures BinarySize(num + (u + rest)) == Some((num, u, rest))
  {
    assert (u + rest)[0] == u[0];
    SpanOf(num, u + rest, IsNumChar);
    BinaryUnitOf(u, rest);
  }

  lemma PanelPercentOf(whole: string, frac: string, rest: string)
    requires whole != [] && AllDigits(whole) && AllDigits(frac)
    ensures PanelPercent(whole + (FracText(frac) + ("%)" + rest))) == Some((DecimalValue(whole), rest))
  {
    var t := FracText(frac) + ("%)" + rest);
    assert t[0] == '.' || t[0] == '%';
    SpanOf(whole, t, IsDigit);
    FractionOf(frac, "%)" + rest);
    PrefixOf("%)", rest);
  }

  lemma FractionOf(frac: string, rest: string)
    requires AllDigits(frac) && rest != [] && rest[0] == '%'
    ensures OptionalFraction(FracText(frac) + rest) == (FracText(frac), rest)
  {
    if frac != [] {
      var t := "." + (frac + rest);
      assert FracText(frac) + rest == t;
      assert t[1..] == frac + rest;
      SpanOf(frac, rest, IsDigit);
    } else {
      assert FracText(frac) + rest == rest;
    }
  }

  lemma IntPercentOf(whole: string, rest: string)
    requires whole != [] && AllDigits(whole)
    ensures IntPercent(whole + ("%)" + rest)) == Some((DecimalValue(whole), rest))
  {
    SpanOf(whole, "%)" + rest, IsDigit);
    PrefixOf("%)", rest);
  }

  /** A decimal percent does not fit `(\d+)%\)`. */
  lemma IntPercentRejectsFraction(whole: string, frac: string, rest: string)
    requires whole != [] && AllDigits(whole) && frac != []
    ensures IntPercent(whole + (FracText(frac) + rest)) == None
  {
    var t := FracText(frac) + rest;
    assert t[0] == '.';
    SpanOf(whole, t, IsDigit);
  }

  lemma EtaPartOf(p: Option<string>, unit: char, rest: string)
    requires DigitsPart(p) && !IsDigit(unit)
    requires p.None? ==> NoPart(rest, unit)
    ensures EtaPart(PartText(p, unit) + rest, unit) == (p, rest)
  {
    if p.Some? {
      assert PartText(p, unit) + rest == p.value + ([unit] + rest);
      SpanOf(p.value, [unit] + rest, IsDigit);
      assert ([unit] + rest)[1..] == rest;
    } else {
      assert PartText(p, unit) + rest == rest;
    }
  }

  lemma NoPartOf(p: Option<string>, u: char, rest: string, unit: char)
    requires DigitsPart(p) && !IsDigit(u) && u != unit
    requires p.None? ==> NoPart(rest, unit)
    ensures NoPart(PartText(p, u) + rest, unit)
  {
    if p.Some? {
      assert PartText(p, u) + rest == p.value + ([u] + rest);
      SpanOf(p.value, [u] + rest, IsDigit);
    } else {
      assert PartText(p, u) + rest == rest;
    }
  }

  /** The ETA groups read back exactly the parts that were printed. */
  lemma EtaOf(x: Summary)
    requires DigitsPart(x.hours) && DigitsPart(x.minutes) && DigitsPart(x.seconds)
    ensures EtaAt(EtaField(x) + "]") == EtaText(x.hours, x.minutes, x.seconds)
  {
    var sr := PartText(x.seconds, 's') + "]";
    var ms := PartText(x.minutes, 'm') + sr;
    assert EtaField(x) + "]" == PartText(x.hours, 'h') + ms;
    SpanOf([], "]", IsDigit);
    assert NoPart("]", 's') && NoPart("]", 'm') && NoPart("]", 'h');
    EtaPartOf(x.seconds, 's', "]");
    NoPartOf(x.seconds, 's', "]", 'm');
    NoPartOf(x.seconds, 's', "]", 'h');
    EtaPartOf(x.minutes, 'm', sr);
    NoPartOf(x.minutes, 'm', sr, 'h');
    EtaPartOf(x.hours, 'h', ms);
  }

  /** From the total's `(` on. */
  function AfterTotal(x: Summary): string { "(" + PercentText(x) }

  /** From the `/` between the sizes on. */
  function AfterDone(x: Summary): string { "/" + (x.totalNum + (x.totalUnit + AfterTotal(x))) }

  lemma PanelSizesOf(x: Summary)
    requires WellFormed(x)
    ensures PanelSize(SizesText(x)) == Some((x.doneNum, x.doneUnit, AfterDone(x)))
    ensures StartsWith(AfterDone(x), "/") && PanelSize(AfterDone(x)[1..]) == Some((x.totalNum, x.totalUnit, AfterTotal(x)))
    ensures StartsWith(AfterTotal(x), "(") && AfterTotal(x)[1..] == PercentText(x)
  {
    assert SizesText(x) == x.doneNum + (x.doneUnit + AfterDone(x));
    PanelSizeOf(x.doneNum, x.doneUnit, AfterDone(x));
    PrefixOf("/", x.totalNum + (x.totalUnit + AfterTotal(x)));
    PanelSizeOf(x.totalNum, x.totalUnit, AfterTotal(x));
    PrefixOf("(", PercentText(x));
  }

  lemma BinarySizesOf(x: Summary)
    requires WellFormed(x) && IsBinaryUnit(x.doneUnit) && IsBinaryUnit(x.totalUnit)
    ensures BinarySize(SizesText(x)) == Some((x.doneNum, x.doneUnit, AfterDone(x)))
    ensures StartsWith(AfterDone(x), "/") && BinarySize(AfterDone(x)[1..]) == Some((x.totalNum, x.totalUnit, AfterTotal(x)))
    ensures StartsWith(AfterTotal(x), "(") && AfterTotal(x)[1..] == PercentText(x)
  {
    assert SizesText(x) == x.doneNum + (x.doneUnit + AfterDone(x));
    BinarySizeOf(x.doneNum, x.doneUnit, AfterDone(x));
    PrefixOf("/", x.totalNum + (x.totalUnit + AfterTotal(x)));
    BinarySizeOf(x.totalNum, x.totalUnit, AfterTotal(x));
    PrefixOf("(", PercentText(x));
  }

  /** The control-panel head reads the done size with its unit, the total without
      its unit, and the integer part of the percent. */
  lemma PanelHeadOf(x: Summary)
    requires WellFormed(x)
    ensures PanelHead(Render(x)) == Some(Head(x.doneNum + x.doneUnit, x.totalNum, DecimalValue(x.whole), TailText(x)))
  {
    MarkerOf(x.gid, SizesText(x));
    PanelSizesOf(x);
    PanelPercentOf(x.whole, x.frac, TailText(x));
  }

  lemma IntPercentOfSummary(x: Summary)
    requires x.whole != [] && AllDigits(x.whole) && x.frac == []
    ensures IntPercent(PercentText(x)) == Some((DecimalValue(x.whole), TailText(x)))
  {
    assert PercentText(x) == x.whole + ("%)" + TailText(x));
    IntPercentOf(x.whole, TailText(x));
  }

  /** The stand-alone head in terms of the pieces it recognises one after the other. */
  lemma StandaloneHeadFrom(s: string, a: string, done: (string, string, string), total: (string, string, string), pc: (nat, string))
    requires Marker(s) == Some(a) && BinarySize(a) == Some(done)
    requires StartsWith(done.2, "/") && BinarySize(done.2[1..]) == Some(total)
    requires StartsWith(total.2, "(") && IntPercent(total.2[1..]) == Some(pc)
    ensures StandaloneHead(s) == Some(Head(done.0 + done.1, total.0 + total.1, pc.0, pc.1))
  {
  }

  /** The stand-alone head keeps both units; it needs binary units and an integer percent. */
  lemma StandaloneHeadOf(x: Summary)
    requires WellFormed(x) && IsBinaryUnit(x.doneUnit) && IsBinaryUnit(x.totalUnit) && x.frac == []
    ensures StandaloneHead(Render(x)) == Some(Head(x.doneNum + x.doneUnit, x.totalNum + x.totalUnit, DecimalValue(x.whole), TailText(x)))
  {
    MarkerOf(x.gid, SizesText(x));
    BinarySizesOf(x);
    IntPercentOfSummary(x);
    StandaloneHeadFrom(Render(x), SizesText(x), (x.doneNum, x.doneUnit, AfterDone(x)),
      (x.totalNum, x.totalUnit, AfterTotal(x)), (DecimalValue(x.whole), TailText(x)));
  }

  /** A size whose unit is not binary is no `[\d.]+[KMG]iB`. */
  lemma BinarySizeRejects(num: string, u: string, rest: string)
    requires num != [] && AllNum(num) && IsUnit(u) && !IsBinaryUnit(u)
    requires rest != [] && (rest[0] == '/' || rest[0] == '(')
    ensures BinarySize(num + (u + rest)) == None
  {
    assert (u == [] ==> (u + rest)[0] == rest[0]) && (u != [] ==> (u + rest)[0] == u[0] && (u + rest)[1] == 'B');
    SpanOf(num, u + rest, IsNumChar);
  }

  /** Both units binary: the head stops at the decimal point of the percent. */
  lemma FractionAfterBinarySizes(x: Summary)
    requires WellFormed(x) && x.frac != [] && IsBinaryUnit(x.doneUnit) && IsBinaryUnit(x.totalUnit)
    ensures StandaloneHead(Render(x)) == None
  {
    MarkerOf(x.gid, SizesText(x));
    BinarySizesOf(x);
    IntPercentRejectsFraction(x.whole, x.frac, "%)" + TailText(x));
  }

  /** A binary done size followed by a total without a binary unit. */
  lemma TotalUnitRejected(x: Summary)
    requires WellFormed(x) && IsBinaryUnit(x.doneUnit) && !IsBinaryUnit(x.totalUnit)
    ensures StandaloneHead(Render(x)) == None
  {
    MarkerOf(x.gid, SizesText(x));
    assert SizesText(x) == x.doneNum + (x.doneUnit + AfterDone(x));
    BinarySizeOf(x.doneNum, x.doneUnit, AfterDone(x));
    PrefixOf("/", x.totalNum + (x.totalUnit + AfterTotal(x)));
    BinarySizeRejects(x.totalNum, x.totalUnit, AfterTotal(x));
  }

  /** A done size without a binary unit. */
  lemma DoneUnitRejected(x: Summary)
    requires WellFormed(x) && !IsBinaryUnit(x.doneUnit)
    ensures StandaloneHead(Render(x)) == None
  {
    MarkerOf(x.gid, SizesText(x));
    assert SizesText(x) == x.doneNum + (x.doneUnit + AfterDone(x));
    BinarySizeRejects(x.doneNum, x.doneUnit, AfterDone(x));
  }

  /** With a decimal percent the stand-alone head does not match at the line's start. */
  lemma StandaloneHeadRejectsFraction(x: Summary)
    requires WellFormed(x) && x.frac != []
    ensures StandaloneHead(Render(x)) == None
  {
    if !IsBinaryUnit(x.doneUnit) {
      DoneUnitRejected(x);
    } else if !IsBinaryUnit(x.totalUnit) {
      TotalUnitRejected(x);
    } else {
      FractionAfterBinarySizes(x);
    }
  }

  lemma DigitsOf(n: string, rest: string)
    requires n != [] && AllDigits(n) && rest != [] && !IsDigit(rest[0])
    ensures Span(n + rest, IsDigit) == (n, rest)
  {
    SpanOf(n, rest, IsDigit);
  }

  lemma BlankDlOf(rest: string)
    ensures Span(" DL:" + rest, IsSpace) == (" ", "DL:" + rest)
  {
    assert " DL:" + rest == " " + ("DL:" + rest);
    BlankOf("DL:" + rest);
  }

  /** `CN:<n> DL:` followed by `rest`. */
  lemma ConnectionsOf(n: string, rest: string)
    requires n != [] && AllDigits(n)
    ensures ConnectionsAt("CN:" + (n + (" DL:" + rest))) == Some(rest)
  {
    var s := "CN:" + (n + (" DL:" + rest));
    assert s[..3] == "CN:";
    assert s[3..] == n + (" DL:" + rest);
    DigitsOf(n, " DL:" + rest);
    BlankDlOf(rest);
    PrefixOf("DL:", rest);
  }

  /** The lazy `.*?CN:` of the control panel skips the one blank in front of `CN:`. */
  lemma FindConnectionsOf(n: string, rest: string)
    requires n != [] && AllDigits(n)
    ensures FindConnections(" " + ("CN:" + (n + (" DL:" + rest)))) == Some(rest)
  {
    var s := " " + ("CN:" + (n + (" DL:" + rest)));
    assert !StartsWith(s, "CN:") by { assert s[0] != 'C'; }
    assert s[1..] == "CN:" + (n + (" DL:" + rest));
    ConnectionsOf(n, rest);
  }

  /** The lazy `.*?ETA:` skips the one blank in front of `ETA:`. */
  lemma FindEtaOf(rest: string)
    ensures FindEta(" ETA:" + rest) == Some(rest)
  {
    var s := " ETA:" + rest;
    assert !StartsWith(s, "ETA:") by { assert s[0] != 'E'; }
    assert s[1..] == "ETA:" + rest;
    PrefixOf("ETA:", rest);
  }

  /** Rate and ETA of the control-panel tail. */
  lemma PanelTailOf(x: Summary)
    requires WellFormed(x)
    ensures PanelTail(TailText(x)) == (x.rateNum + x.rateUnit, EtaText(x.hours, x.minutes, x.seconds))
  {
    var eta := EtaField(x) + "]";
    var afterRate := " ETA:" + eta;
    var dl := x.rateNum + (x.rateUnit + afterRate);
    assert TailText(x) == " " + ("CN:" + (x.connections + (" DL:" + dl)));
    FindConnectionsOf(x.connections, dl);
    PanelSizeOf(x.rateNum, x.rateUnit, afterRate);
    FindEtaOf(eta);
    EtaOf(x);
  }

  /** The stand-alone `\s+ETA:` after the rate. */
  lemma BlankEtaOf(rest: string)
    ensures var gap := Span(" " + ("ETA:" + rest), IsSpace);
            gap.0 != [] && StartsWith(gap.1, "ETA:") && gap.1[4..] == rest
  {
    BlankOf("ETA:" + rest);
    PrefixOf("ETA:", rest);
  }

  /** The stand-alone tail in terms of the pieces it recognises one after the other. */
  lemma StandaloneTailFrom(s: string, r: string, z: (string, string, string), eta: string)
    requires Span(s, IsSpace).0 != [] && ConnectionsAt(Span(s, IsSpace).1) == Some(r)
    requires BinarySize(r) == Some(z)
    requires Span(z.2, IsSpace).0 != [] && StartsWith(Span(z.2, IsSpace).1, "ETA:") && Span(z.2, IsSpace).1[4..] == eta
    ensures StandaloneTail(s) == (z.0 + z.1, EtaAt(eta))
  {
  }

  /** Rate and ETA of the stand-alone tail. */
  lemma StandaloneTailOf(x: Summary)
    requires WellFormed(x) && IsBinaryUnit(x.rateUnit)
    ensures StandaloneTail(TailText(x)) == (x.rateNum + x.rateUnit, EtaText(x.hours, x.minutes, x.seconds))
  {
    var eta := EtaField(x) + "]";
    var gapped := " " + ("ETA:" + eta);
    var dl := x.rateNum + (x.rateUnit + gapped);
    var cn := "CN:" + (x.connections + (" DL:" + dl));
    assert TailText(x) == " " + cn;
    BlankOf(cn);
    ConnectionsOf(x.connections, dl);
    BinarySizeOf(x.rateNum, x.rateUnit, gapped);
    BlankEtaOf(eta);
    StandaloneTailFrom(TailText(x), dl, (x.rateNum, x.rateUnit, gapped), eta);
    EtaOf(x);
  }

  /** A summary line parses, in the control panel, to the done size with its unit,
      the total without its unit, the integer part of the percent (not clamped),
      the rate and the ETA parts. */
  lemma PanelParsesSummary(x: Summary)
    requires WellFormed(x)
    ensures ParsePanel(Render(x)) == Some(Sample(x.doneNum + x.doneUnit, x.totalNum, DecimalValue(x.whole),
                                                 x.rateNum + x.rateUnit, EtaText(x.hours, x.minutes, x.seconds)))
  {
    PanelHeadOf(x);
    PanelTailOf(x);
  }

  /** With binary units and an integer percent, the stand-alone parser keeps both units. */
  lemma StandaloneParsesSummary(x: Summary)
    requires WellFormed(x) && IsBinaryUnit(x.doneUnit) && IsBinaryUnit(x.totalUnit) && IsBinaryUnit(x.rateUnit)
    requires x.frac == []
    ensures ParseStandalone(Render(x)) == Some(Sample(x.doneNum + x.doneUnit, x.totalNum + x.totalUnit, DecimalValue(x.whole),
                                                      x.rateNum + x.rateUnit, EtaText(x.hours, x.minutes, x.seconds)))
  {
    StandaloneHeadOf(x);
    StandaloneTailOf(x);
  }

  /** A line without the `[#` marker gives no sample in the control panel. */
  lemma {:induction false} PanelNeedsMarker(line: string)
    requires !Contains(line, "[#")
    ensures ParsePanel(line) == None
  {
    if line != [] {
      PanelNeedsMarker(line[1..]);
    }
  }

  /** A line without the `[#` marker gives no sample in the stand-alone downloader. */
  lemma {:induction false} StandaloneNeedsMarker(line: string)
    requires !Contains(line, "[#")
    ensures ParseStandalone(line) == None
  {
    if line != [] {
      StandaloneNeedsMarker(line[1..]);
    }
  }

  lemma {:induction false} NoBracketNoMarker(s: string)
    requires '[' !in s
    ensures !Contains(s, "[#")
  {
    if s != [] {
      assert s[0] != '[';
      NoBracketNoMarker(s[1..]);
    }
  }

  lemma NoBracketCat(a: string, b: string)
    requires '[' !in a && '[' !in b
    ensures '[' !in a + b
  {
  }

  lemma NoBracketWhere(s: string, p: char -> bool)
    requires forall k :: 0 <= k < |s| ==> p(s[k])
    requires !p('[')
    ensures '[' !in s
  {
  }

  lemma NoBracketPart(p: Option<string>, u: char)
    requires DigitsPart(p) && u != '['
    ensures '[' !in PartText(p, u)
  {
    if p.Some? {
      NoBracketWhere(p.value, IsNumChar);
      NoBracketCat(p.value, [u]);
    }
  }

  lemma NoBracketInTail(x: Summary)
    requires WellFormed(x)
    ensures '[' !in TailText(x)
  {
    NoBracketPart(x.hours, 'h');
    NoBracketPart(x.minutes, 'm');
    NoBracketPart(x.seconds, 's');
    NoBracketCat(PartText(x.minutes, 'm'), PartText(x.seconds, 's'));
    NoBracketCat(PartText(x.hours, 'h'), PartText(x.minutes, 'm') + PartText(x.seconds, 's'));
    NoBracketCat(EtaField(x), "]");
    NoBracketCat(" ETA:", EtaField(x) + "]");
    var t := " ETA:" + (EtaField(x) + "]");
    assert '[' !in x.rateUnit;
    NoBracketCat(x.rateUnit, t);
    NoBracketWhere(x.rateNum, IsNumChar);
    NoBracketCat(x.rateNum, x.rateUnit + t);
    NoBracketCat(" DL:", x.rateNum + (x.rateUnit + t));
    NoBracketWhere(x.connections, IsNumChar);
    NoBracketCat(x.connections, " DL:" + (x.rateNum + (x.rateUnit + t)));
    NoBracketCat(" CN:", x.connections + (" DL:" + (x.rateNum + (x.rateUnit + t))));
  }

  lemma NoBracketInSummary(x: Summary)
    requires WellFormed(x)
    ensures '[' !in Render(x)[1..]
  {
    NoBracketInTail(x);
    NoBracketCat("%)", TailText(x));
    assert '[' !in FracText(x.frac) by { if x.frac != [] { NoBracketWhere(x.frac, IsNumChar); NoBracketCat(".", x.frac); } }
    NoBracketCat(FracText(x.frac), "%)" + TailText(x));
    NoBracketWhere(x.whole, IsNumChar);
    NoBracketCat(x.whole, FracText(x.frac) + ("%)" + TailText(x)));
    NoBracketCat("(", PercentText(x));
    assert '[' !in x.totalUnit && '[' !in x.doneUnit;
    NoBracketCat(x.totalUnit, AfterTotal(x));
    NoBracketWhere(x.totalNum, IsNumChar);
    NoBracketCat(x.totalNum, x.totalUnit + AfterTotal(x));
    NoBracketCat("/", x.totalNum + (x.totalUnit + AfterTotal(x)));
    NoBracketCat(x.doneUnit, AfterDone(x));
    NoBracketWhere(x.doneNum, IsNumChar);
    NoBracketCat(x.doneNum, x.doneUnit + AfterDone(x));
    assert SizesText(x) == x.doneNum + (x.doneUnit + AfterDone(x));
    NoBracketCat(" ", SizesText(x));
    NoBracketWhere(x.gid, IsHex);
    NoBracketCat(x.gid, " " + SizesText(x));
    NoBracketCat("#", x.gid + (" " + SizesText(x)));
    assert Render(x)[1..] == "#" + (x.gid + (" " + SizesText(x)));
  }

  /** The stand-alone pattern wants an integer percent: a line with a decimal one such as `52.5%` is no sample. */
  lemma StandaloneRejectsDecimalPercent(x: Summary)
    requires WellFormed(x) && x.frac != []
    ensures ParseStandalone(Render(x)) == None
  {
    StandaloneHeadRejectsFraction(x);
    NoBracketInSummary(x);
    NoBracketNoMarker(Render(x)[1..]);
    StandaloneNeedsMarker(Render(x)[1..]);
  }

  /** The fields of the progress line quoted in the parser's code comment. */
  function CommentSummary(): Summary {
    Summary("bc945d", "16", "GiB", "31", "GiB", "52", "", "16", "80", "MiB", None, Some("3"), Some("12"))
  }

  lemma CommentSummaryWellFormed()
    ensures WellFormed(CommentSummary())
  {
    var x := CommentSummary();
    assert AllHex(x.gid);
  }

  lemma CommentSummaryTail()
    ensures TailText(CommentSummary()) == " CN:16 DL:80MiB ETA:3m12s]"
  {
    var x := CommentSummary();
    assert PartText(x.minutes, 'm') == "3m";
    assert PartText(x.seconds, 's') == "12s";
    assert EtaField(x) == "3m12s";
  }

  lemma CommentSummaryText()
    ensures Render(CommentSummary()) == "[#bc945d 16GiB/31GiB(52%) CN:16 DL:80MiB ETA:3m12s]"
  {
    CommentSummarySizes();
    CommentLineChunks();
  }

  lemma CommentSummaryPercent()
    ensures PercentText(CommentSummary()) == "52%)" + " CN:16 DL:80MiB ETA:3m12s]"
  {
    var x := CommentSummary();
    CommentSummaryTail();
    assert FracText(x.frac) == "";
  }

  lemma CommentSummarySizes()
    ensures SizesText(CommentSummary()) == "16GiB/31GiB(" + ("52%)" + " CN:16 DL:80MiB ETA:3m12s]")
  {
    var x := CommentSummary();
    CommentSummaryPercent();
    assert SizesText(x) == "16" + ("GiB" + ("/" + ("31" + ("GiB" + ("(" + PercentText(x))))));
  }

  lemma CommentLineChunks()
    ensures "[#bc945d " + ("16GiB/31GiB(" + ("52%)" + " CN:16 DL:80MiB ETA:3m12s]"))
         == "[#bc945d 16GiB/31GiB(52%) CN:16 DL:80MiB ETA:3m12s]"
  {
  }

  /** Illustrates one case: the fields of the sample summary spell the figures of
      the code comment's line. `CommentExamplePanel` and `CommentExampleStandalone`
      use it; the general parse is `PanelParsesSummary` and `StandaloneParsesSummary`. */
  lemma CommentSummaryFields()
    ensures var x := CommentSummary();
      && x.doneNum + x.doneUnit == "16GiB" && x.totalNum + x.totalUnit == "31GiB"
      && x.rateNum + x.rateUnit == "80MiB" && DecimalValue(x.whole) == 52
      && EtaText(x.hours, x.minutes, x.seconds) == "3m12s"
  {
  }

  /** Illustrates `PanelParsesSummary` on the progress line of the code comment:
      the control panel drops the total's unit. */
  lemma CommentExamplePanel()
    ensures ParsePanel("[#bc945d 16GiB/31GiB(52%) CN:16 DL:80MiB ETA:3m12s]")
         == Some(Sample("16GiB", "31", 52, "80MiB", "3m12s"))
  {
    CommentSummaryWellFormed();
    CommentSummaryText();
    CommentSummaryFields();
    PanelParsesSummary(CommentSummary());
  }

  /** Illustrates `StandaloneParsesSummary` on the same line: the stand-alone
      downloader keeps the total's unit. */
  lemma CommentExampleStandalone()
    ensures ParseStandalone("[#bc945d 16GiB/31GiB(52%) CN:16 DL:80MiB ETA:3m12s]")
         == Some(Sample("16GiB", "31GiB", 52, "80MiB", "3m12s"))
  {
    CommentSummaryWellFormed();
    CommentSummaryText();
    CommentSummaryFields();
    StandaloneParsesSummary(CommentSummary());
  }
}

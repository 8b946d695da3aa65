/**
 Re-indenting generated code. A scanner goes through each line, carrying over whether it is
 inside a string or a block comment, and counts the braces that are neither. Only leading
 blanks change, and formatting twice is formatting once.
 */
module Indentation {
  import opened Text

  /** What the scanner carries from line to line. */
  datatype Carried = Carried(inBlock: bool, inString: bool, quote: char)

  datatype Counts = Counts(opens: nat, closes: nat, leadingCloses: nat, preprocessor: bool)

  /** The scanner inside a line; `atStart` as long as only blanks and closing braces were seen. */
  datatype Scan = Scan(carried: Carried, atStart: bool, counts: Counts)

  predicate IsBlank(c: char) {
    c == ' ' || c == '\t'
  }

  // ---------- one character ----------

  /** A quote opens a string; the same quote closes it unless a backslash stands before it. */
  function StringState(line: Text, i: nat, s: Carried): Carried
    requires i < |line|
  {
    var c := line[i];
    if !s.inString && (c == '"' || c == '\'') then s.(inString := true, quote := c)
    else if s.inString && c == s.quote && (i == 0 || line[i - 1] != '\\') then s.(inString := false)
    else s
  }

  function NextChar(line: Text, i: nat): char {
    if i + 1 < |line| then line[i + 1] else '\0'
  }

  function BraceCount(c: char, s: Scan): Scan {
    var start := s.atStart && (IsLibrarySpace(c) || c == '}');
    var n := s.counts;
    s.(atStart := start,
       counts := if c == '{' then n.(opens := n.opens + 1)
                 else if c == '}' then n.(closes := n.closes + 1, leadingCloses := n.leadingCloses + if start then 1 else 0)
                 else n)
  }

  /** The place of the first character that is no blank, or the length. */
  function FirstNonBlank(line: Text): (i: nat)
    ensures i <= |line| && (i < |line| ==> !IsBlank(line[i])) && forall j | 0 <= j < i :: IsBlank(line[j])
  {
    if line == [] || !IsBlank(line[0]) then 0 else 1 + FirstNonBlank(line[1..])
  }

  /** Code, that is, neither in a string nor in a comment. */
  predicate InCode(s: Carried) {
    !s.inString && !s.inBlock
  }

  /** What the scanner has seen at the end of the line, from character `i` on. A line comment ends the line. */
  function ScanFrom(line: Text, i: nat, s: Scan): Scan
    requires i <= |line|
    decreases |line| - i
  {
    if i == |line| then s
    else
      var c, next := line[i], NextChar(line, i);
      var t := if s.carried.inBlock then s.carried else StringState(line, i, s.carried);
      if InCode(t) && c == '/' && next == '/' then s.(carried := t)
      else if InCode(t) && c == '/' && next == '*' then ScanFrom(line, i + 2, s.(carried := t.(inBlock := true)))
      else if t.inBlock && c == '*' && next == '/' then ScanFrom(line, i + 2, s.(carried := t.(inBlock := false)))
      else ScanFrom(line, i + 1, ScanChar(line, i, s.(carried := t)))
  }

  /** A character that belongs to no comment mark. */
  function ScanChar(line: Text, i: nat, s: Scan): Scan
    requires i < |line|
  {
    if !InCode(s.carried) then s
    else
      var counted := BraceCount(line[i], s);
      if i == FirstNonBlank(line) && line[i] == '#' then counted.(counts := counted.counts.(preprocessor := true))
      else counted
  }

  const NOTHING := Counts(0, 0, 0, false)

  /** The scan of a whole line. */
  function ScanOf(line: Text, s: Carried): Scan {
    ScanFrom(line, 0, Scan(s, true, NOTHING))
  }

  method ScanLine(line: Text, s: Carried) returns (result: Counts, after: Carried)
    ensures result == ScanOf(line, s).counts && after == ScanOf(line, s).carried
  {
    var scan := Scan(s, true, NOTHING);
    var i := 0;
    while i < |line|
      invariant 0 <= i <= |line| && ScanFrom(line, i, scan) == ScanOf(line, s)
      decreases |line| - i
    {
      var c, next := line[i], NextChar(line, i);
      if !scan.carried.inBlock {
        scan := scan.(carried := StringState(line, i, scan.carried));
      }
      if InCode(scan.carried) && c == '/' && next == '/' {
        return scan.counts, scan.carried;
      }
      if InCode(scan.carried) && c == '/' && next == '*' {
        scan := scan.(carried := scan.carried.(inBlock := true));
        i := i + 1;
      } else if scan.carried.inBlock && c == '*' && next == '/' {
        scan := scan.(carried := scan.carried.(inBlock := false));
        i := i + 1;
      } else {
        scan := ScanChar(line, i, scan);
      }
      i := i + 1;
    }
    result, after := scan.counts, scan.carried;
  }

  // ---------- leading blanks do not matter ----------

  /** A string is open with a quote. */
  predicate QuoteOk(s: Carried) {
    s.inString ==> s.quote == '"' || s.quote == '\''
  }

  lemma {:induction false} ScanKeepsQuote(line: Text, i: nat, s: Scan)
    requires i <= |line| && QuoteOk(s.carried)
    ensures QuoteOk(ScanFrom(line, i, s).carried)
    decreases |line| - i
  {
    if i < |line| {
      var t := if s.carried.inBlock then s.carried else StringState(line, i, s.carried);
      if i + 2 <= |line| {
        ScanKeepsQuote(line, i + 2, s.(carried := t.(inBlock := true)));
        ScanKeepsQuote(line, i + 2, s.(carried := t.(inBlock := false)));
      }
      ScanKeepsQuote(line, i + 1, ScanChar(line, i, s.(carried := t)));
    }
  }

  lemma {:induction false} SkipBlanks(line: Text, i: nat, s: Carried)
    requires i <= FirstNonBlank(line) && QuoteOk(s)
    ensures ScanFrom(line, i, Scan(s, true, NOTHING)) == ScanFrom(line, FirstNonBlank(line), Scan(s, true, NOTHING))
    decreases |line| - i
  {
    if i < FirstNonBlank(line) {
      SkipBlanks(line, i + 1, s);
    }
  }

  /** Behind its leading blanks, a line is scanned like the rest of it alone. */
  lemma {:induction false} ScanShifted(line: Text, n: nat, j: nat, s: Scan)
    requires n == FirstNonBlank(line) < |line| && j <= |line| - n
    ensures ScanFrom(line, n + j, s) == ScanFrom(line[n..], j, s)
    decreases |line| - j
  {
    var rest := line[n..];
    if j < |rest| {
      var t := if s.carried.inBlock then s.carried else StringState(line, n + j, s.carried);
      assert t == if s.carried.inBlock then s.carried else StringState(rest, j, s.carried) by {
        if 0 < n && j == 0 { assert IsBlank(line[n - 1]); }
      }
      assert NextChar(line, n + j) == NextChar(rest, j);
      assert FirstNonBlank(rest) == 0;
      if j + 2 <= |rest| {
        ScanShifted(line, n, j + 2, s.(carried := t.(inBlock := true)));
        ScanShifted(line, n, j + 2, s.(carried := t.(inBlock := false)));
      }
      ScanShifted(line, n, j + 1, ScanChar(line, n + j, s.(carried := t)));
    }
  }

  lemma ShiftedWhole(line: Text, n: nat, s: Scan)
    requires n == FirstNonBlank(line) < |line|
    ensures ScanFrom(line, n, s) == ScanFrom(line[n..], 0, s)
  {
    ScanShifted(line, n, 0, s);
  }

  function Trim(line: Text): Text {
    line[FirstNonBlank(line)..]
  }

  /** Counts and carried state do not depend on leading blanks. */
  lemma ScanIgnoresBlanks(line: Text, s: Carried)
    requires FirstNonBlank(line) < |line| && QuoteOk(s)
    ensures ScanOf(line, s) == ScanOf(Trim(line), s)
  {
    SkipBlanks(line, 0, s);
    ShiftedWhole(line, FirstNonBlank(line), Scan(s, true, NOTHING));
  }

  // ---------- formatting lines ----------

  predicate Empty(line: Text) {
    forall i | 0 <= i < |line| :: IsSpace(line[i])
  }

  function Max(a: int, b: int): int {
    if a > b then a else b
  }

  /** What is carried between lines. */
  datatype State = State(level: nat, carried: Carried)

  /** The indentation of a line: one level less for each closing brace at its start. */
  function IndentOf(level: nat, c: Counts): (n: nat) {
    if c.leadingCloses > 0 then Max(0, level - c.leadingCloses) else level
  }

  function FormatLine(line: Text, st: State): Text {
    if Empty(line) then []
    else
      var c := ScanOf(line, st.carried).counts;
      if c.preprocessor then Trim(line) else Spaces(2 * IndentOf(st.level, c)) + Trim(line)
  }

  /** A preprocessor line leaves the level as it is, and an empty line everything. */
  function StateAfter(line: Text, st: State): State {
    if Empty(line) then st
    else
      var scan := ScanOf(line, st.carried);
      State(if scan.counts.preprocessor then st.level else Max(0, st.level - scan.counts.closes + scan.counts.opens),
            scan.carried)
  }

  const START := State(0, Carried(false, false, '\0'))

  function StateTo(lines: seq<Text>, n: nat): State
    requires n <= |lines|
  {
    if n == 0 then START else StateAfter(lines[n - 1], StateTo(lines, n - 1))
  }

  function FormatTo(lines: seq<Text>, n: nat): (out: seq<Text>)
    requires n <= |lines|
    ensures |out| == n && forall k | 0 <= k < n :: out[k] == FormatLine(lines[k], StateTo(lines, k))
  {
    if n == 0 then [] else FormatTo(lines, n - 1) + [FormatLine(lines[n - 1], StateTo(lines, n - 1))]
  }

  lemma TrimOfSpaces(n: nat, line: Text)
    requires !Empty(line)
    ensures FirstNonBlank(line) < |line|
    ensures Trim(Spaces(n) + Trim(line)) == Trim(line) && FirstNonBlank(Spaces(n) + Trim(line)) == n < n + |Trim(line)|
    ensures !Empty(Spaces(n) + Trim(line))
  {
    var k :| 0 <= k < |line| && !IsSpace(line[k]);
    var first, t := FirstNonBlank(line), Trim(line);
    assert !IsBlank(line[k]) && first <= k;
    var s := Spaces(n) + t;
    assert s[n + (k - first)] == line[k];
    assert s[n..] == t;
  }

  /** However many spaces replace the leading blanks of a line, it is scanned as before. */
  lemma ReindentedScan(line: Text, n: nat, s: Carried)
    requires !Empty(line) && QuoteOk(s)
    ensures var out := Spaces(n) + Trim(line);
            !Empty(out) && Trim(out) == Trim(line) && ScanOf(out, s) == ScanOf(line, s)
  {
    TrimOfSpaces(n, line);
    ScanIgnoresBlanks(line, s);
    ScanIgnoresBlanks(Spaces(n) + Trim(line), s);
  }

  /** The indentation that a line gets. */
  function Indent(line: Text, st: State): nat {
    var c := ScanOf(line, st.carried).counts;
    if c.preprocessor then 0 else 2 * IndentOf(st.level, c)
  }

  lemma FormatLineIs(line: Text, st: State)
    requires !Empty(line)
    ensures FormatLine(line, st) == Spaces(Indent(line, st)) + Trim(line)
  {
    assert Spaces(0) + Trim(line) == Trim(line);
  }

  /** A formatted line is scanned like the line itself, and is formatted to itself. */
  lemma FormattedLine(line: Text, st: State)
    requires QuoteOk(st.carried)
    ensures FormatLine(FormatLine(line, st), st) == FormatLine(line, st)
    ensures StateAfter(FormatLine(line, st), st) == StateAfter(line, st)
    ensures QuoteOk(StateAfter(line, st).carried)
  {
    ScanKeepsQuote(line, 0, Scan(st.carried, true, NOTHING));
    if !Empty(line) {
      var out := FormatLine(line, st);
      FormatLineIs(line, st);
      ReindentedScan(line, Indent(line, st), st.carried);
      FormatLineIs(out, st);
    }
  }

  lemma {:induction false} FormattedState(lines: seq<Text>, n: nat)
    requires n <= |lines|
    ensures StateTo(FormatTo(lines, |lines|), n) == StateTo(lines, n) && QuoteOk(StateTo(lines, n).carried)
  {
    if 0 < n {
      FormattedState(lines, n - 1);
      FormattedLine(lines[n - 1], StateTo(lines, n - 1));
    }
  }

  lemma FormatLinesTwice(lines: seq<Text>)
    ensures var out := FormatTo(lines, |lines|); FormatTo(out, |out|) == out
  {
    var out := FormatTo(lines, |lines|);
    forall k | 0 <= k < |out| ensures FormatTo(out, |out|)[k] == out[k] {
      FormattedState(lines, k);
      FormattedLine(lines[k], StateTo(lines, k));
    }
  }

  // ---------- texts ----------

  /** The place of the first line break, or the length. */
  function LineEnd(s: Text): (e: nat)
    ensures e <= |s| && (e < |s| ==> s[e] == '\n') && forall j | 0 <= j < e :: s[j] != '\n'
  {
    if s == [] || s[0] == '\n' then 0 else 1 + LineEnd(s[1..])
  }

  lemma LineEndIs(s: Text, e: nat)
    requires e < |s| && s[e] == '\n' && forall j | 0 <= j < e :: s[j] != '\n'
    ensures LineEnd(s) == e
  {
  }

  function AfterLine(s: Text): Text {
    if LineEnd(s) == |s| then [] else s[LineEnd(s) + 1..]
  }

  /** The lines of a text, as `std::getline` reads them. */
  function Lines(s: Text): seq<Text>
    decreases |s|
  {
    if s == [] then [] else [s[..LineEnd(s)]] + Lines(AfterLine(s))
  }

  /** Every line with its line break. */
  function Unlines(lines: seq<Text>): Text {
    if lines == [] then [] else lines[0] + (['\n'] + Unlines(lines[1..]))
  }

  lemma {:induction false} UnlinesSnoc(lines: seq<Text>, line: Text)
    ensures Unlines(lines + [line]) == Unlines(lines) + (line + ['\n'])
  {
    if lines == [] {
      assert ([] + [line])[1..] == [];
      assert line + (['\n'] + []) == [] + (line + ['\n']);
    } else {
      UnlinesSnoc(lines[1..], line);
      assert (lines + [line])[1..] == lines[1..] + [line];
    }
  }

  function FormatText(code: Text): Text {
    Unlines(FormatTo(Lines(code), |Lines(code)|))
  }

  /** The first `k` lines are formatted, and the rest of the text holds the others. */
  predicate Done(lines: seq<Text>, k: nat, rest: Text, st: State, out: Text) {
    k <= |lines| && Lines(rest) == lines[k..] && st == StateTo(lines, k) && out == Unlines(FormatTo(lines, k))
  }

  /** The same, to be unfolded only where `Done` is mentioned. */
  ghost predicate DoneSoFar(code: Text, k: nat, rest: Text, st: State, out: Text) {
    forall lines {:trigger Done(lines, k, rest, st, out)} | lines == Lines(code) :: Done(lines, k, rest, st, out)
  }

  lemma OneMoreDone(lines: seq<Text>, k: nat, rest: Text, st: State, out: Text)
    requires Done(lines, k, rest, st, out) && rest != []
    ensures var line := rest[..LineEnd(rest)];
            Done(lines, k + 1, AfterLine(rest), StateAfter(line, st), out + (FormatLine(line, st) + ['\n']))
  {
    var line := rest[..LineEnd(rest)];
    assert lines[k..][0] == line && lines[k..][1..] == lines[k + 1..];
    UnlinesSnoc(FormatTo(lines, k), FormatLine(line, st));
  }

  lemma OneMoreLine(code: Text, k: nat, rest: Text, st: State, out: Text)
    requires DoneSoFar(code, k, rest, st, out) && rest != []
    ensures var line := rest[..LineEnd(rest)];
            DoneSoFar(code, k + 1, AfterLine(rest), StateAfter(line, st), out + (FormatLine(line, st) + ['\n']))
  {
    assert Done(Lines(code), k, rest, st, out);
    OneMoreDone(Lines(code), k, rest, st, out);
  }

  lemma FormattingEnds(code: Text, k: nat, st: State, out: Text)
    requires DoneSoFar(code, k, [], st, out)
    ensures out == FormatText(code)
  {
    assert Done(Lines(code), k, [], st, out);
    assert Lines(code)[k..] == [];
  }

  method FormatIndentation(code: Text) returns (out: Text)
    ensures out == FormatText(code)
  {
    out := [];
    var st := START;
    var pos := 0;
    ghost var k := 0;
    assert code[0..] == code;
    while pos < |code|
      invariant 0 <= pos <= |code| && DoneSoFar(code, k, code[pos..], st, out)
    {
      OneMoreLine(code, k, code[pos..], st, out);
      var line, next := GetLine(code, pos);
      var formatted;
      formatted, st := FormatOne(line, st);
      out := out + (formatted + ['\n']);
      pos := next;
      k := k + 1;
    }
    assert code[pos..] == [];
    FormattingEnds(code, k, st, out);
  }

  /** The line at a place, and the place behind it. */
  method GetLine(code: Text, pos: nat) returns (line: Text, next: nat)
    requires pos < |code|
    ensures pos < next <= |code|
    ensures line == code[pos..][..LineEnd(code[pos..])] && code[next..] == AfterLine(code[pos..])
  {
    ghost var s := code[pos..];
    var e := pos;
    while e < |code| && code[e] != '\n'
      invariant pos <= e <= |code| && forall j | 0 <= j < e - pos :: s[j] != '\n'
    {
      e := e + 1;
    }
    if e < |code| { LineEndIs(s, e - pos); }
    line := code[pos..e];
    next := if e == |code| then e else e + 1;
  }

  /** One line: scan it, indent it, and carry on. */
  method FormatOne(line: Text, st: State) returns (formatted: Text, after: State)
    ensures formatted == FormatLine(line, st) && after == StateAfter(line, st)
  {
    if Empty(line) {
      return [], st;
    }
    var c, carried := ScanLine(line, st.carried);
    var trimmed := Trim(line);
    if c.preprocessor {
      return trimmed, State(st.level, carried);
    }
    var current := st.level;
    if c.leadingCloses > 0 {
      current := Max(0, st.level - c.leadingCloses);
    }
    formatted := Spaces(current * 2) + trimmed;
    after := State(Max(0, st.level - c.closes + c.opens), carried);
  }

  predicate NoBreaks(lines: seq<Text>) {
    forall k, i | 0 <= k < |lines| && 0 <= i < |lines[k]| :: lines[k][i] != '\n'
  }

  lemma {:induction false} LinesNoBreaks(s: Text)
    ensures NoBreaks(Lines(s))
    decreases |s|
  {
    if s != [] { LinesNoBreaks(AfterLine(s)); }
  }

  /** Lines that were put together are read back. */
  lemma {:induction false} LinesOfUnlines(lines: seq<Text>)
    requires NoBreaks(lines)
    ensures Lines(Unlines(lines)) == lines
  {
    if lines != [] {
      var line, rest := lines[0], Unlines(lines[1..]);
      LinesOfUnlines(lines[1..]);
      var s := line + (['\n'] + rest);
      LineEndIs(s, |line|);
      assert s[..|line|] == line && s[|line| + 1..] == rest;
    }
  }

  lemma FormattedNoBreaks(code: Text)
    ensures NoBreaks(FormatTo(Lines(code), |Lines(code)|))
  {
    LinesNoBreaks(code);
  }

  /** Only the leading blanks differ, and where there are some afterwards, they are an even number of spaces. */
  ghost predicate SameButIndent(line: Text, out: Text) {
    if Empty(line) then out == [] else exists n: nat :: out == Spaces(2 * n) + Trim(line)
  }

  lemma LineLayout(line: Text, st: State)
    ensures SameButIndent(line, FormatLine(line, st))
  {
    if !Empty(line) {
      FormatLineIs(line, st);
      var c := ScanOf(line, st.carried).counts;
      assert Indent(line, st) == 2 * (if c.preprocessor then 0 else IndentOf(st.level, c));
    }
  }

  /** The formatted text has the same lines up to leading blanks; a line of blanks becomes empty. */
  lemma LayoutOnly(code: Text)
    ensures var lines, out := Lines(code), Lines(FormatText(code));
            |out| == |lines| && forall k | 0 <= k < |lines| :: SameButIndent(lines[k], out[k])
  {
    var lines := Lines(code);
    FormattedNoBreaks(code);
    LinesOfUnlines(FormatTo(lines, |lines|));
    forall k | 0 <= k < |lines| ensures SameButIndent(lines[k], Lines(FormatText(code))[k]) {
      LineLayout(lines[k], StateTo(lines, k));
    }
  }

  /** Formatting a formatted text changes nothing. */
  lemma FormatTwice(code: Text)
    ensures FormatText(FormatText(code)) == FormatText(code)
  {
    FormattedNoBreaks(code);
    LinesOfUnlines(FormatTo(Lines(code), |Lines(code)|));
    FormatLinesTwice(Lines(code));
  }
}

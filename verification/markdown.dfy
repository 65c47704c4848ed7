/**
 The Markdown masks of scripts/check-docs.py: fenced blocks and comments, then inline code, are blanked out
 without moving any other character, so that later offsets and line numbers stay those of the file.
 */
module Markdown {
  import opened Options
  import opened Markup

  /** Where str.splitlines ends a line. */
  predicate IsBreak(c: char) {
    c as int in {10, 11, 12, 13, 28, 29, 30, 133, 8232, 8233}
  }

  /** Line feed to carriage return, the three separators from file to record, next line, and the two of Unicode; all are white space. */
  lemma BreaksAre(c: char)
    ensures IsBreak(c) <==> 10 <= c as int <= 13 || 28 <= c as int <= 30 || c as int == 0x85 || c as int == 0x2028 || c as int == 0x2029
    ensures IsBreak(c) ==> IsSpace(c)
  {
  }

  /** Same length, every line feed in place, every other character kept or turned into a space. */
  ghost predicate Masks(text: string, masked: string) {
    && |masked| == |text|
    && forall i :: 0 <= i < |text| ==> masked[i] == text[i] || (text[i] != '\n' && masked[i] == ' ')
  }

  lemma MasksBoth(a: string, b: string, maskedA: string, maskedB: string)
    requires Masks(a, maskedA) && Masks(b, maskedB)
    ensures Masks(a + b, maskedA + maskedB)
  {
  }

  function Blank(text: string): (blanked: string)
    ensures |blanked| == |text|
    ensures forall i :: 0 <= i < |text| ==> blanked[i] == if text[i] == '\n' then '\n' else ' '
  {
    seq(|text|, i requires 0 <= i < |text| => if text[i] == '\n' then '\n' else ' ')
  }

  // ---- Lines ----

  /** The length of the first line with its ending; a carriage return and line feed end it together. */
  function LineLength(text: string): (n: nat)
    requires text != ""
    ensures 1 <= n <= |text|
    ensures forall i :: 0 <= i < n - 2 ==> !IsBreak(text[i])
    ensures n >= 2 ==> !IsBreak(text[n - 2]) || (text[n - 2] == '\r' && text[n - 1] == '\n')
    ensures n < |text| ==> IsBreak(text[n - 1]) && !(text[n - 1] == '\r' && text[n] == '\n')
  {
    if IsBreak(text[0]) then if text[0] == '\r' && |text| > 1 && text[1] == '\n' then 2 else 1
    else if |text| == 1 then 1
    else
      var rest := text[1..];
      1 + LineLength(rest)
  }

  function SplitLines(text: string): (lines: seq<string>)
    ensures forall i :: 0 <= i < |lines| ==> lines[i] != ""
    ensures lines == [] <==> text == ""
  {
    if text == "" then [] else [text[..LineLength(text)]] + SplitLines(text[LineLength(text)..])
  }

  function Join(lines: seq<string>): string {
    if lines == [] then "" else lines[0] + Join(lines[1..])
  }

  lemma {:induction false} JoinBoth(a: seq<string>, b: seq<string>)
    ensures Join(a + b) == Join(a) + Join(b)
  {
    if a == [] {
      assert a + b == b;
    } else {
      assert (a + b)[1..] == a[1..] + b;
      JoinBoth(a[1..], b);
    }
  }

  lemma JoinFirst(line: string, lines: seq<string>)
    ensures Join([line] + lines) == line + Join(lines)
  {
    assert ([line] + lines)[1..] == lines;
  }

  /** Splitting loses nothing. */
  lemma {:induction false} SplitJoins(text: string)
    ensures Join(SplitLines(text)) == text
  {
    hide Join, LineLength;
    JoinNone();
    if text != "" {
      var n := LineLength(text);
      SplitJoins(text[n..]);
      JoinFirst(text[..n], SplitLines(text[n..]));
      assert text == text[..n] + text[n..];
    }
  }

  lemma JoinNext(lines: seq<string>, i: nat)
    requires i < |lines|
    ensures Join(lines[..i + 1]) == Join(lines[..i]) + lines[i]
    ensures |Join(lines[..i])| + |lines[i]| <= |Join(lines)|
    ensures Join(lines)[|Join(lines[..i])|..|Join(lines[..i])| + |lines[i]|] == lines[i]
  {
    hide Join;
    JoinOne(lines[i]);
    JoinBoth(lines[..i], [lines[i]]);
    assert lines[..i] + [lines[i]] == lines[..i + 1];
    JoinBoth(lines[..i + 1], lines[i + 1..]);
    assert lines[..i + 1] + lines[i + 1..] == lines;
  }

  lemma JoinOne(line: string)
    ensures Join([line]) == line
  {
    assert [line][1..] == [];
    assert line + "" == line;
  }

  /** One line with its ending: nothing breaks it before, and only a carriage return and line feed end it together. */
  ghost predicate OneLine(line: string) {
    && line != ""
    && forall i :: 0 <= i < |line| - 1 ==> !IsBreak(line[i]) || (i == |line| - 2 && line[i] == '\r' && line[i + 1] == '\n')
  }

  /** A line ends before the next one, and not between a carriage return and a line feed. */
  ghost predicate EndsBefore(line: string, next: string) {
    line != "" && next != "" && IsBreak(line[|line| - 1]) && !(line[|line| - 1] == '\r' && next[0] == '\n')
  }

  ghost predicate CutsLines(lines: seq<string>) {
    && (forall i :: 0 <= i < |lines| ==> OneLine(lines[i]))
    && (forall i :: 0 <= i < |lines| - 1 ==> EndsBefore(lines[i], lines[i + 1]))
  }

  lemma TailLine(line: string)
    requires OneLine(line) && |line| >= 2 && !IsBreak(line[0])
    ensures OneLine(line[1..])
  {
    hide IsBreak;
    var tail := line[1..];
    forall i | 0 <= i < |tail| - 1
      ensures !IsBreak(tail[i]) || (i == |tail| - 2 && tail[i] == '\r' && tail[i + 1] == '\n')
    {
      assert tail[i] == line[i + 1] && tail[i + 1] == line[i + 2];
    }
  }

  lemma {:induction false} LengthIs(text: string, n: nat)
    requires 1 <= n <= |text| && OneLine(text[..n])
    requires n < |text| ==> IsBreak(text[n - 1]) && !(text[n - 1] == '\r' && text[n] == '\n')
    ensures LineLength(text) == n
  {
    hide IsBreak;
    BreaksAre('\r');
    var line := text[..n];
    assert line[0] == text[0] && (n >= 2 ==> line[1] == text[1]);
    if !IsBreak(text[0]) && |text| > 1 {
      TailLine(line);
      assert text[1..][..n - 1] == line[1..];
      LengthIs(text[1..], n - 1);
    }
  }

  lemma {:induction false} SplitCuts(text: string)
    ensures CutsLines(SplitLines(text))
    ensures text != "" ==> SplitLines(text) != [] && SplitLines(text)[0] != "" && SplitLines(text)[0][0] == text[0]
    decreases |text|
  {
    hide LineLength, IsBreak;
    if text != "" {
      var n := LineLength(text);
      SplitCuts(text[n..]);
      assert SplitLines(text)[1..] == SplitLines(text[n..]);
      assert OneLine(text[..n]);
      assert n < |text| ==> EndsBefore(text[..n], SplitLines(text[n..])[0]);
    }
  }

  lemma {:induction false} CutIsSplit(lines: seq<string>)
    requires CutsLines(lines)
    ensures SplitLines(Join(lines)) == lines
    decreases |lines|
  {
    hide Join, LineLength, IsBreak;
    JoinNone();
    if lines != [] {
      var first, rest := lines[0], lines[1..];
      assert [first] + rest == lines;
      JoinFirst(first, rest);
      CutIsSplit(rest);
      var text := Join(lines);
      assert text[..|first|] == first && text[|first|..] == Join(rest);
      if rest != [] {
        assert EndsBefore(lines[0], lines[1]);
        JoinFirst(rest[0], rest[1..]);
        assert [rest[0]] + rest[1..] == rest;
      }
      LengthIs(text, |first|);
    }
  }

  /** There is one way to cut a text into lines, and it is the one taken. */
  lemma SplitIs(text: string, lines: seq<string>)
    ensures SplitLines(text) == lines <==> Join(lines) == text && CutsLines(lines)
  {
    hide SplitLines, Join, CutsLines;
    SplitJoins(text);
    SplitCuts(text);
    if CutsLines(lines) {
      CutIsSplit(lines);
    }
  }

  function WithoutBreak(line: string): string {
    if line == "" || !IsBreak(line[|line| - 1]) then line
    else if |line| >= 2 && line[|line| - 2] == '\r' && line[|line| - 1] == '\n' then line[..|line| - 2]
    else line[..|line| - 1]
  }

  /** What is left of a line without its ending goes up to its first break. */
  lemma WithoutBreakMeans(line: string)
    requires OneLine(line)
    ensures var kept := WithoutBreak(line);
            && kept <= line && (forall i :: 0 <= i < |kept| ==> !IsBreak(line[i]))
            && (|kept| < |line| ==> IsBreak(line[|kept|]))
  {
    hide IsBreak;
    BreaksAre('\r');
    BreaksAre('\n');
    var n := |line|;
    assert n >= 2 && line[n - 2] == '\r' && line[n - 1] == '\n' ==> IsBreak(line[n - 2]);
    forall i | 0 <= i < |WithoutBreak(line)|
      ensures !IsBreak(line[i])
    {
      var next := if i + 1 < n then line[i + 1] else line[i];
    }
  }

  // ---- Fences ----

  /** The number of `c` at `from`, up to `most`. */
  function Run(text: string, from: nat, c: char, most: nat): (n: nat)
    requires from <= |text|
    ensures n <= most && from + n <= |text|
    ensures forall i :: from <= i < from + n ==> text[i] == c
    ensures n < most && from + n < |text| ==> text[from + n] != c
    decreases most
  {
    if most == 0 || from == |text| || text[from] != c then 0 else 1 + Run(text, from + 1, c, most - 1)
  }

  /** Up to three spaces. */
  function Indent(line: string, from: nat): (n: nat)
    requires from <= |line|
    ensures n <= 3 && from + n <= |line| && forall i :: from <= i < from + n ==> line[i] == ' '
    ensures n < 3 && from + n < |line| ==> line[from + n] != ' '
  {
    Run(line, from, ' ', 3)
  }

  lemma IndentIs(line: string, from: nat, n: nat)
    requires from + n <= |line| && n <= 3 && forall i :: from <= i < from + n ==> line[i] == ' '
    requires n < 3 && from + n < |line| ==> line[from + n] != ' '
    ensures Indent(line, from) == n
  {
    hide Run;
    RunIs(line, from, ' ', 3, n);
  }

  /** A quote marker and the blank that may follow it. */
  function PastQuote(line: string, mark: nat): (next: nat)
    requires mark < |line|
    ensures mark < next <= |line| && next <= mark + 2 && (next == mark + 2 ==> line[mark + 1] in " \t")
  {
    if mark + 1 < |line| && line[mark + 1] in " \t" then mark + 2 else mark + 1
  }

  /** Quote markers are made of blanks and angle brackets. */
  lemma {:induction false} QuoteMeans(line: string, from: nat)
    requires from <= |line|
    ensures forall i :: from <= i < QuoteEnd(line, from) ==> line[i] in " >\t"
    decreases |line| - from
  {
    hide Indent, PastQuote;
    var mark := from + Indent(line, from);
    if mark < |line| && line[mark] == '>' {
      QuoteMeans(line, PastQuote(line, mark));
    }
  }

  /** Where block quote markers, each with up to three spaces before and one blank after, end. */
  function QuoteEnd(line: string, from: nat): (end: nat)
    requires from <= |line|
    ensures from <= end <= |line|
    decreases |line| - from
  {
    var mark := from + Indent(line, from);
    if mark == |line| || line[mark] != '>' then from
    else QuoteEnd(line, PastQuote(line, mark))
  }

  /** Brackets at `marks`, each after at most three spaces and with the one blank that may follow it, fill the line up to `end`. */
  ghost predicate QuotedBy(line: string, from: nat, marks: seq<nat>, end: nat)
    decreases marks
  {
    if marks == [] then end == from
    else
      var mark := marks[0];
      && from <= mark <= from + 3 && mark < |line| && line[mark] == '>' && (forall i :: from <= i < mark ==> line[i] == ' ')
      && QuotedBy(line, if mark + 1 < |line| && (line[mark + 1] == ' ' || line[mark + 1] == '\t') then mark + 2 else mark + 1, marks[1..], end)
  }

  /** No further bracket follows within three spaces. */
  ghost predicate QuotesOver(line: string, end: nat) {
    forall mark :: end <= mark <= end + 3 && mark < |line| && line[mark] == '>' ==> exists i :: end <= i < mark && line[i] != ' '
  }

  /** The quote markers of a line can be read up to their end, and no further. */
  lemma {:induction false} QuoteLast(line: string, from: nat) returns (marks: seq<nat>)
    requires from <= |line|
    ensures QuotedBy(line, from, marks, QuoteEnd(line, from)) && QuotesOver(line, QuoteEnd(line, from))
    decreases |line| - from
  {
    hide Indent, QuotesOver;
    var mark := from + Indent(line, from);
    if mark < |line| && line[mark] == '>' {
      var rest := QuoteLast(line, PastQuote(line, mark));
      marks := [mark] + rest;
      assert marks[1..] == rest;
    } else {
      marks := [];
      NoneFollows(line, from);
    }
  }

  lemma NoneFollows(line: string, end: nat)
    requires end <= |line|
    ensures QuotesOver(line, end) <==> end + Indent(line, end) == |line| || line[end + Indent(line, end)] != '>'
  {
    hide Indent;
    var mark := end + Indent(line, end);
    assert mark < end + 3 && mark < |line| ==> line[mark] != ' ';
  }

  /** They end nowhere else. */
  lemma {:induction false} QuoteIs(line: string, from: nat, marks: seq<nat>, end: nat)
    requires from <= |line| && QuotedBy(line, from, marks, end) && QuotesOver(line, end)
    ensures QuoteEnd(line, from) == end
    decreases marks
  {
    hide Indent, QuotesOver;
    if marks == [] {
      NoneFollows(line, from);
    } else {
      IndentIs(line, from, marks[0] - from);
      QuoteIs(line, PastQuote(line, marks[0]), marks[1..], end);
    }
  }

  function RStrip(line: string): (kept: string)
    ensures kept <= line && (forall i :: |kept| <= i < |line| ==> line[i] in "\r\n")
    ensures kept != "" ==> kept[|kept| - 1] !in "\r\n"
  {
    if line != "" && line[|line| - 1] in "\r\n" then RStrip(line[..|line| - 1]) else line
  }

  datatype Fence = Fence(mark: char, length: nat)

  /** A fence run at the start of the line, inside any block quotes, and what follows it. */
  function Marker(line: string): (marker: Option<(Fence, string)>)
    ensures marker.Some? ==> marker.value.0.mark in "`~" && marker.value.0.length >= 3
  {
    var content := RStrip(line[QuoteEnd(line, 0)..]);
    var from := Indent(content, 0);
    if from == |content| || content[from] !in "`~" then None
    else
      var length := Run(content, from, content[from], |content|);
      if length < 3 then None else Some((Fence(content[from], length), content[from + length..]))
  }

  lemma {:induction false} RunIs(text: string, from: nat, c: char, most: nat, n: nat)
    requires from + n <= |text| && n <= most && forall i :: from <= i < from + n ==> text[i] == c
    requires n < most && from + n < |text| ==> text[from + n] != c
    ensures Run(text, from, c, most) == n
    decreases n
  {
    if n > 0 {
      RunIs(text, from + 1, c, most - 1, n - 1);
    }
  }

  /** Where a fence run would have to stand: after the block quotes and at most three spaces. */
  function MarkAt(line: string): (at: nat)
    ensures at <= |line|
  {
    var quote := QuoteEnd(line, 0);
    quote + Indent(line, quote)
  }

  predicate ThreeAt(line: string, at: nat) {
    at + 3 <= |line| && line[at] in "`~" && line[at + 1] == line[at] && line[at + 2] == line[at]
  }

  lemma MarkPlace(line: string)
    ensures MarkAt(line) == QuoteEnd(line, 0) + Indent(line, QuoteEnd(line, 0))
  {
  }

  /** There is a marker exactly when three marks stand there; it is their whole run, followed by the rest of the line. */
  lemma MarkerMeans(line: string)
    ensures Marker(line).Some? <==> ThreeAt(line, MarkAt(line))
    ensures Marker(line).Some? ==>
              var at, fence, rest := MarkAt(line), Marker(line).value.0, Marker(line).value.1;
              var after := at + fence.length;
              && after <= |line| && (forall i :: at <= i < after ==> line[i] == fence.mark)
              && (after < |line| ==> line[after] != fence.mark) && rest == RStrip(line[after..])
  {
    hide QuoteEnd, Indent, Run, RStrip, Clipped, ThreeAt, MarkAt;
    var quote := QuoteEnd(line, 0);
    assert MarkAt(line) == quote + Indent(line, quote) by { MarkPlace(line); }
    var content := RStrip(line[quote..]);
    Stripped(line, quote);
    SameIndent(line, quote, content);
    var from := Indent(content, 0);
    RunOf(line, quote, content, from);
    if from < |content| && content[from] in "`~" {
      RestOf(line, quote, from + Run(content, from, content[from], |content|));
    }
  }

  /** The end of a line with its line break gone. */
  ghost predicate Clipped(line: string, quote: nat, content: string) {
    && quote + |content| <= |line| && (forall i :: quote <= i < quote + |content| ==> line[i] == content[i - quote])
    && (forall i :: quote + |content| <= i < |line| ==> line[i] in "\r\n")
  }

  lemma Stripped(line: string, quote: nat)
    requires quote <= |line|
    ensures Clipped(line, quote, RStrip(line[quote..]))
  {
    hide RStrip;
    var tail := line[quote..];
    assert forall i :: quote <= i < |line| ==> line[i] == tail[i - quote];
  }

  lemma SameIndent(line: string, quote: nat, content: string)
    requires Clipped(line, quote, content)
    ensures Indent(line, quote) == Indent(content, 0)
  {
    hide Indent;
    IndentIs(line, quote, Indent(content, 0));
  }

  lemma RunOf(line: string, quote: nat, content: string, from: nat)
    requires Clipped(line, quote, content) && from <= |content|
    ensures if from == |content| || content[from] !in "`~" then !ThreeAt(line, quote + from)
            else
              var at, n := quote + from, Run(content, from, content[from], |content|);
              && (n >= 3 <==> ThreeAt(line, at)) && 0 < n && at + n <= |line|
              && (forall i :: at <= i < at + n ==> line[i] == content[from]) && (at + n < |line| ==> line[at + n] != content[from])
  {
    hide Run;
    var at := quote + from;
    if from < |content| {
      var n := Run(content, from, content[from], |content|);
      forall i | at <= i < at + n
        ensures line[i] == content[from]
      {
        assert content[i - quote] == content[from];
      }
    }
  }

  lemma {:induction false} RestOf(line: string, quote: nat, n: nat)
    requires quote <= |line| && 0 < n <= |RStrip(line[quote..])|
    ensures RStrip(line[quote..])[n..] == RStrip(line[quote + n..])
  {
    hide RStrip;
    var content, rest := RStrip(line[quote..]), RStrip(line[quote + n..]);
    Stripped(line, quote);
    Stripped(line, quote + n);
    assert content[|content| - 1] == line[quote + |content| - 1];
    assert rest != [] ==> rest[|rest| - 1] == line[quote + n + |rest| - 1];
    assert |rest| == |content| - n;
  }

  /** A backtick fence's info string holds no backtick. */
  function OpensFence(line: string): Option<Fence> {
    var marker := Marker(line);
    if marker.Some? && (marker.value.0.mark == '~' || '`' !in marker.value.1) then Some(marker.value.0) else None
  }

  predicate ClosesFence(line: string, fence: Fence) {
    var marker := Marker(line);
    && marker.Some? && marker.value.0.mark == fence.mark && marker.value.0.length >= fence.length
    && forall c :: c in marker.value.1 ==> IsSpace(c)
  }

  /** `n` times `c` at `at`, and no more. */
  ghost predicate WholeRun(line: string, at: nat, c: char, n: nat) {
    && at + n <= |line| && (forall i :: at <= i < at + n ==> line[i] == c)
    && (at + n < |line| ==> line[at + n] != c)
  }

  /** A line opens a fence with its whole run of marks, and only a tilde fence may have a backtick after them. */
  lemma OpeningMeans(line: string, fence: Fence)
    ensures OpensFence(line) == Some(fence) <==>
              && fence.length >= 3 && WholeRun(line, MarkAt(line), fence.mark, fence.length)
              && (fence.mark == '~' || (fence.mark == '`' && forall i :: MarkAt(line) + fence.length <= i < |line| ==> line[i] != '`'))
  {
    hide Marker, MarkAt, RStrip;
    MarkerMeans(line);
    var at := MarkAt(line);
    if Marker(line).Some? {
      var n := Marker(line).value.0.length;
      RestMeans(line, at + n);
    }
  }

  /** A line closes a fence with a whole run of the same mark, at least as long, and nothing but white space after it. */
  lemma ClosingLine(line: string, fence: Fence)
    ensures ClosesFence(line, fence) <==>
              && (fence.mark == '`' || fence.mark == '~')
              && exists n: nat :: n >= 3 && n >= fence.length && WholeRun(line, MarkAt(line), fence.mark, n) &&
                                  forall i :: MarkAt(line) + n <= i < |line| ==> IsSpace(line[i])
  {
    hide Marker, MarkAt, RStrip, IsSpace;
    MarkerMeans(line);
    var at := MarkAt(line);
    if Marker(line).Some? {
      var n := Marker(line).value.0.length;
      RestMeans(line, at + n);
      assert WholeRun(line, at, Marker(line).value.0.mark, n);
    }
  }

  /** Dropping the line break loses neither backticks nor anything but white space. */
  lemma RestMeans(line: string, from: nat)
    requires from <= |line|
    ensures '`' in RStrip(line[from..]) <==> exists i :: from <= i < |line| && line[i] == '`'
    ensures (forall c :: c in RStrip(line[from..]) ==> IsSpace(c)) <==> forall i :: from <= i < |line| ==> IsSpace(line[i])
  {
    hide RStrip;
    var rest := RStrip(line[from..]);
    Stripped(line, from);
    forall i | from <= i < |line|
      ensures line[i] in rest || line[i] in "\r\n"
    {
      if i < from + |rest| {
        assert rest[i - from] == line[i];
      }
    }
    forall c | c in rest
      ensures exists i :: from <= i < |line| && line[i] == c
    {
      var k :| 0 <= k < |rest| && rest[k] == c;
      assert line[from + k] == c;
    }
  }

  // ---- Code spans ----

  /** A run of exactly `n` backticks at `at`. */
  predicate ExactRun(text: string, at: nat, n: nat) {
    && at + n <= |text| && (forall i :: at <= i < at + n ==> text[i] == '`')
    && (at > 0 ==> text[at - 1] != '`') && (at + n < |text| ==> text[at + n] != '`')
  }

  /** That is, the backticks counted from there are `n` in all, and none stands before them. */
  lemma ExactRunMeans(text: string, at: nat, n: nat)
    requires at <= |text|
    ensures ExactRun(text, at, n) <==> Run(text, at, '`', |text|) == n && (at > 0 ==> text[at - 1] != '`')
  {
    hide Run;
    if ExactRun(text, at, n) {
      RunIs(text, at, '`', |text|, n);
    }
  }

  /** A code span: it opens with a run of `n` backticks and closes with the next run of exactly `n`. */
  ghost predicate CodeSpan(text: string, start: nat, end: nat) {
    exists n: nat :: n > 0 && SpanOf(text, start, end, n)
  }

  ghost predicate SpanOf(text: string, start: nat, end: nat, n: nat) {
    && start + 2 * n < end <= |text|
    && (forall i :: start <= i < start + n ==> text[i] == '`') && text[start + n] != '`'
    && ExactRun(text, end - n, n)
    && forall k :: start + n <= k < end - n ==> !ExactRun(text, k, n)
  }

  ghost predicate NoRun(text: string, from: nat, n: nat) {
    forall k :: from <= k ==> !ExactRun(text, k, n)
  }

  method FindRun(text: string, start: nat, n: nat) returns (at: Option<nat>)
    requires start <= |text| && n > 0
    ensures at.Some? ==> start <= at.value && ExactRun(text, at.value, n) && forall k :: start <= k < at.value ==> !ExactRun(text, k, n)
    ensures at.None? ==> NoRun(text, start, n)
  {
    for i := start to |text|
      invariant forall k :: start <= k < i ==> !ExactRun(text, k, n)
    {
      if ExactRun(text, i, n) {
        return Some(i);
      }
    }
    at := None;
  }

  method CodeSpanEnd(text: string, start: nat) returns (end: nat, closing: Option<nat>)
    requires start < |text| && text[start] == '`'
    ensures start < end <= |text| && (forall i :: start <= i < end ==> text[i] == '`') && (end < |text| ==> text[end] != '`')
    ensures closing.Some? ==> end < closing.value <= |text| && SpanOf(text, start, closing.value, end - start)
    ensures closing.None? ==> NoRun(text, end, end - start)
  {
    end := start;
    while end < |text| && text[end] == '`'
      invariant start <= end <= |text| && forall i :: start <= i < end ==> text[i] == '`'
    {
      end := end + 1;
    }
    var found := FindRun(text, end, end - start);
    closing := if found.Some? then Some(found.value + (end - start)) else None;
  }

  // ---- Tokens ----

  datatype Kind = Escape | Literal | Plain | Unclosed | Code | Comment | Inline

  /** A stretch of text and how the scanner read it. */
  datatype Token = Token(kind: Kind, begin: nat, end: nat)

  /** The tokens cover the text up to `end` without gap or overlap. */
  ghost predicate Tiles(tokens: seq<Token>, end: nat) {
    && (tokens == [] ==> end == 0)
    && (tokens != [] ==> tokens[0].begin == 0 && tokens[|tokens| - 1].end == end)
    && (forall k :: 0 <= k < |tokens| ==> tokens[k].begin < tokens[k].end <= end)
    && (forall k :: 0 < k < |tokens| ==> tokens[k - 1].end == tokens[k].begin)
  }

  ghost predicate Hidden(tokens: seq<Token>, i: nat) {
    exists k :: 0 <= k < |tokens| && (tokens[k].kind.Code? || tokens[k].kind.Comment?) && tokens[k].begin <= i < tokens[k].end
  }

  /** Blank exactly in code and comments. */
  ghost predicate HidesIn(text: string, masked: string, tokens: seq<Token>) {
    && |masked| == |text|
    && forall i :: 0 <= i < |text| ==> masked[i] == if Hidden(tokens, i) && text[i] != '\n' then ' ' else text[i]
  }

  lemma HidesMasks(text: string, masked: string, tokens: seq<Token>)
    requires HidesIn(text, masked, tokens)
    ensures Masks(text, masked)
  {
  }

  lemma HiddenNext(tokens: seq<Token>, token: Token)
    ensures forall i: nat :: Hidden(tokens + [token], i) <==>
              Hidden(tokens, i) || ((token.kind.Code? || token.kind.Comment?) && token.begin <= i < token.end)
  {
    var all := tokens + [token];
    forall i: nat | Hidden(tokens, i)
      ensures Hidden(all, i)
    {
      var k :| 0 <= k < |tokens| && (tokens[k].kind.Code? || tokens[k].kind.Comment?) && tokens[k].begin <= i < tokens[k].end;
      assert all[k] == tokens[k];
    }
    assert all[|tokens|] == token;
  }

  lemma TilesNext(tokens: seq<Token>, token: Token)
    requires Tiles(tokens, token.begin) && token.begin < token.end
    ensures Tiles(tokens + [token], token.end)
  {
  }

  lemma NothingRead(text: string)
    ensures Tiles([], 0) && HidesIn(text, text, []) && HidesIn("", "", [])
  {
  }

  /** One more token: hidden or shown. */
  lemma HidesNext(text: string, masked: string, tokens: seq<Token>, token: Token)
    requires HidesIn(text, masked, tokens) && token.begin < token.end <= |text|
    ensures token.kind.Code? || token.kind.Comment? ==>
              HidesIn(text, masked[..token.begin] + Blank(text[token.begin..token.end]) + masked[token.end..], tokens + [token])
    ensures !token.kind.Code? && !token.kind.Comment? ==> HidesIn(text, masked, tokens + [token])
  {
    hide Hidden;
    HiddenNext(tokens, token);
  }

  // ---- Inline code ----

  /** How each stretch must have been read. */
  ghost predicate TokenOk(text: string, token: Token) {
    && token.begin < token.end <= |text|
    && match token.kind
       case Escape => text[token.begin] == '\\' && token.end == if token.begin + 2 <= |text| then token.begin + 2 else |text|
       case Literal => LiteralStop(text, token.begin) == Some(token.end)
       case Plain => token.end == token.begin + 1 && text[token.begin] !in "`\\" && LiteralStop(text, token.begin).None?
       case Unclosed =>
         && ExactRunFrom(text, token.begin, token.end)
         && NoRun(text, token.end, token.end - token.begin)
       case Code => CodeSpan(text, token.begin, token.end)
       case Comment => false
       case Inline => false
  }

  /** All the backticks there are from `begin` on. */
  ghost predicate ExactRunFrom(text: string, begin: nat, end: nat) {
    && begin < end <= |text| && (forall i :: begin <= i < end ==> text[i] == '`') && (end < |text| ==> text[end] != '`')
  }

  /**
   Reading from the left, every backtick outside escapes and literal markup belongs to a code span or to a run
   that nothing closes; exactly the code spans are blanked.
   */
  method WithoutInlineCode(text: string) returns (result: string, ghost tokens: seq<Token>)
    ensures Masks(text, result) && HidesIn(text, result, tokens) && Tiles(tokens, |text|)
    ensures forall k :: 0 <= k < |tokens| ==> TokenOk(text, tokens[k])
  {
    hide CodeSpan, SpanOf, Hidden, Tiles, HidesIn, Masks, ExactRun;
    result, tokens := text, [];
    NothingRead(text);
    var cursor := 0;
    while cursor < |text|
      invariant cursor <= |text| + 1 && |result| == |text|
      invariant HidesIn(text, result, tokens) && Tiles(tokens, if cursor < |text| then cursor else |text|)
      invariant forall k :: 0 <= k < |tokens| ==> TokenOk(text, tokens[k])
    {
      var start, kind := cursor, Plain;
      if text[cursor] == '\\' {
        cursor, kind := cursor + 2, Escape;
      } else {
        var literal := LiteralMarkupEnd(text, cursor);
        if literal.Some? {
          cursor, kind := literal.value, Literal;
        } else if text[cursor] != '`' {
          cursor := cursor + 1;
        } else {
          var end, stop := CodeSpanEnd(text, cursor);
          if stop.None? {
            cursor, kind := end, Unclosed;
          } else {
            SpanFound(text, cursor, stop.value, end - cursor);
            cursor, kind := stop.value, Code;
          }
        }
      }
      ghost var token := Token(kind, start, if cursor < |text| then cursor else |text|);
      HidesNext(text, result, tokens, token);
      TilesNext(tokens, token);
      if kind.Code? {
        result := result[..start] + Blank(text[start..cursor]) + result[cursor..];
      }
      tokens := tokens + [token];
    }
    HidesMasks(text, result, tokens);
  }

  /** The closing run is the next exact one: a span has one end. */
  lemma SpanUnique(text: string, start: nat, a: nat, b: nat, n: nat)
    requires n > 0 && SpanOf(text, start, a, n) && SpanOf(text, start, b, n)
    ensures a == b
  {
    hide ExactRun;
  }

  lemma RunUnique(text: string, start: nat, a: nat, b: nat)
    requires ExactRunFrom(text, start, a) && ExactRunFrom(text, start, b)
    ensures a == b
  {
  }

  /** Two readings of the same place agree. */
  lemma TokenUnique(text: string, a: Token, b: Token)
    requires TokenOk(text, a) && TokenOk(text, b) && a.begin == b.begin
    ensures a == b
  {
    hide LiteralStop, ExactRun;
    var start := a.begin;
    if text[start] == '`' {
      if a.kind.Code? {
        var n: nat :| n > 0 && SpanOf(text, start, a.end, n);
        TicksUnique(text, start, n, a, b);
      } else if b.kind.Code? {
        var n: nat :| n > 0 && SpanOf(text, start, b.end, n);
        TicksUnique(text, start, n, b, a);
      } else {
        RunUnique(text, start, a.end, b.end);
      }
    }
  }

  lemma TicksUnique(text: string, start: nat, n: nat, span: Token, other: Token)
    requires TokenOk(text, other) && other.begin == start && n > 0 && SpanOf(text, start, span.end, n)
    ensures other.kind.Code? && other.end == span.end
  {
    hide LiteralStop, ExactRun, NoRun, SpanOf, ExactRunFrom;
    SpanTicks(text, start, span.end, n);
    if other.kind.Unclosed? {
      RunUnique(text, start, start + n, other.end);
    }
    if other.kind.Code? {
      var m: nat :| m > 0 && SpanOf(text, start, other.end, m);
      SpanTicks(text, start, other.end, m);
      RunUnique(text, start, start + n, start + m);
      SpanUnique(text, start, span.end, other.end, n);
    }
  }

  /** A span opens with its whole run, and is closed by another. */
  lemma SpanTicks(text: string, start: nat, end: nat, n: nat)
    requires n > 0 && SpanOf(text, start, end, n)
    ensures start < |text| && text[start] == '`' && ExactRunFrom(text, start, start + n) && !NoRun(text, start + n, n)
  {
    hide ExactRun;
    assert ExactRun(text, end - n, n);
  }

  /** There is one way to read a text: what is blanked is determined. */
  lemma InlineUnique(text: string, a: seq<Token>, b: seq<Token>)
    requires Tiles(a, |text|) && Tiles(b, |text|)
    requires forall k :: 0 <= k < |a| ==> TokenOk(text, a[k])
    requires forall k :: 0 <= k < |b| ==> TokenOk(text, b[k])
    ensures a == b
  {
    hide TokenOk;
    InlinePrefix(text, a, b, 0);
  }

  lemma {:induction false} InlinePrefix(text: string, a: seq<Token>, b: seq<Token>, n: nat)
    requires Tiles(a, |text|) && Tiles(b, |text|)
    requires forall k :: 0 <= k < |a| ==> TokenOk(text, a[k])
    requires forall k :: 0 <= k < |b| ==> TokenOk(text, b[k])
    requires n <= |a| && n <= |b| && a[..n] == b[..n]
    ensures a == b
    decreases |a| - n
  {
    hide TokenOk;
    SameBegin(a, b, n, |text|);
    if n < |a| {
      TokenUnique(text, a[n], b[n]);
      InlinePrefix(text, a, b, n + 1);
    }
  }

  /** Tilings that agree so far go on together, or end together. */
  lemma SameBegin(a: seq<Token>, b: seq<Token>, n: nat, end: nat)
    requires Tiles(a, end) && Tiles(b, end) && n <= |a| && n <= |b| && a[..n] == b[..n]
    ensures n < |a| <==> n < |b|
    ensures n < |a| && n < |b| ==> a[n].begin == b[n].begin
    ensures n == |a| ==> a == b
  {
    if n > 0 {
      assert a[n - 1] == a[..n][n - 1] == b[..n][n - 1] == b[n - 1];
      assert n < |a| ==> a[n - 1].end == a[n].begin;
      assert n < |b| ==> b[n - 1].end == b[n].begin;
    }
  }

  lemma SpanFound(text: string, start: nat, end: nat, n: nat)
    requires n > 0 && SpanOf(text, start, end, n)
    ensures CodeSpan(text, start, end)
  {
  }

  // ---- Blocks ----

  predicate StartsAt(text: string, at: nat, word: string) {
    at + |word| <= |text| && text[at..at + |word|] == word
  }

  /** The word follows what comes before `at`, wherever that is, the end of the text included. */
  lemma StartsAtMeans(before: string, word: string, text: string)
    ensures StartsAt(text, |before|, word) && before <= text <==> exists rest :: text == before + word + rest
  {
    if before + word <= text {
      assert text == before + word + text[|before| + |word|..];
      assert text[|before|..|before| + |word|] == word;
    }
    if StartsAt(text, |before|, word) && before <= text {
      assert text == before + word + text[|before| + |word|..];
    }
  }

  const OPEN := "<!--"
  const CLOSE := "-->"

  /** A comment read from `begin` ends with the first closing mark, if there is one. */
  ghost predicate EndsComment(line: string, begin: nat, end: nat, closed: bool) {
    && (if closed then end >= 3 && begin + 3 <= end && StartsAt(line, end - 3, CLOSE) else end == |line|)
    && forall k :: begin <= k < (if closed then end - 3 else |line|) ==> !StartsAt(line, k, CLOSE)
  }

  method FindClose(line: string, begin: nat) returns (at: Option<nat>)
    requires begin <= |line|
    ensures at.Some? ==> begin <= at.value && at.value + 3 <= |line| && EndsComment(line, begin, at.value + 3, true)
    ensures at.None? ==> EndsComment(line, begin, |line|, false)
  {
    for i := begin to |line|
      invariant forall k :: begin <= k < i ==> !StartsAt(line, k, CLOSE)
    {
      if StartsAt(line, i, CLOSE) {
        return Some(i);
      }
    }
    at := None;
  }

  /** A fenced block starts inside the text of a would-be code span. */
  ghost predicate FenceWithin(text: string) {
    exists i :: 1 <= i < |SplitLines(text)| && OpensFence(WithoutBreak(SplitLines(text)[i])).Some?
  }

  /** Line by line: none in the first line, then in whichever line opens one. */
  lemma FenceWithinNext(text: string)
    ensures text == "" ==> !FenceWithin(text)
    ensures text != "" ==>
              var rest := text[LineLength(text)..];
              FenceWithin(text) <==> rest != "" && (OpensFence(WithoutBreak(rest[..LineLength(rest)])).Some? || FenceWithin(rest))
  {
    hide LineLength, OpensFence, WithoutBreak;
    if text != "" {
      var rest := text[LineLength(text)..];
      var lines, later := SplitLines(text), SplitLines(rest);
      assert lines[1..] == later;
      if rest != "" {
        assert later[0] == rest[..LineLength(rest)];
        assert lines[1] == later[0];
      }
      assert forall i :: 1 <= i < |later| ==> later[i] == lines[i + 1];
      assert forall i :: 2 <= i < |lines| ==> lines[i] == later[i - 1];
    }
  }

  function TicksEnd(text: string, at: nat): nat
    requires at <= |text|
  {
    at + Run(text, at, '`', |text|)
  }

  /** The code span that a backtick run at `at` opens, without a fenced block in it. */
  ghost predicate OpensSpan(text: string, at: nat, closing: nat)
    requires at <= |text|
  {
    var end := TicksEnd(text, at);
    SpanOf(text, at, closing, end - at) && end <= closing && !FenceWithin(text[end..closing])
  }

  /** Where reading of a backtick run stops: after the code span, or after the run when no span or a fence is in the way. */
  ghost function RunStop(text: string, at: nat): nat
    requires at <= |text|
  {
    if closing: nat :| OpensSpan(text, at, closing) then closing else TicksEnd(text, at)
  }

  lemma TicksAt(text: string, at: nat, end: nat)
    requires ExactRunFrom(text, at, end)
    ensures TicksEnd(text, at) == end
  {
  }

  lemma RunOpens(text: string, at: nat, end: nat, closing: nat)
    requires ExactRunFrom(text, at, end) && SpanOf(text, at, closing, end - at) && end <= closing && !FenceWithin(text[end..closing])
    ensures RunStop(text, at) == closing
  {
    hide SpanOf, FenceWithin, Run;
    TicksAt(text, at, end);
    assert OpensSpan(text, at, closing);
    var found: nat := RunStop(text, at);
    SpanUnique(text, at, closing, found, end - at);
  }

  lemma RunOpensNone(text: string, at: nat, end: nat)
    requires ExactRunFrom(text, at, end)
    requires NoRun(text, end, end - at) || exists closing: nat :: SpanOf(text, at, closing, end - at) && end <= closing && FenceWithin(text[end..closing])
    ensures RunStop(text, at) == end
  {
    hide FenceWithin, Run, OpensSpan, SpanOf, NoRun;
    TicksAt(text, at, end);
    if found: nat :| OpensSpan(text, at, found) {
      SpanOpened(text, at, end, found);
    }
  }

  /** A run that opens a span is closed, and by no span with a fence in it. */
  lemma SpanOpened(text: string, at: nat, end: nat, found: nat)
    requires ExactRunFrom(text, at, end) && OpensSpan(text, at, found)
    ensures !NoRun(text, end, end - at)
    ensures forall closing: nat :: SpanOf(text, at, closing, end - at) && end <= closing ==> !FenceWithin(text[end..closing])
  {
    hide FenceWithin, Run, ExactRun;
    TicksAt(text, at, end);
    assert ExactRun(text, found - (end - at), end - at);
    forall closing: nat | SpanOf(text, at, closing, end - at) && end <= closing
      ensures !FenceWithin(text[end..closing])
    {
      SpanUnique(text, at, closing, found, end - at);
    }
  }

  method RunEnd(text: string, start: nat) returns (stop: nat)
    requires start < |text| && text[start] == '`'
    ensures start < stop <= |text| && stop == RunStop(text, start)
  {
    hide ExactRun, SplitLines, OpensFence, WithoutBreak, SpanOf, NoRun, RunStop;
    var opening, closing := CodeSpanEnd(text, start);
    if closing.Some? {
      var lines := SplitLines(text[opening..closing.value]);
      for i := 1 to |lines|
        invariant forall k :: 1 <= k < i ==> OpensFence(WithoutBreak(lines[k])).None?
      {
        if OpensFence(WithoutBreak(lines[i])).Some? {
          assert FenceWithin(text[opening..closing.value]);
          RunOpensNone(text, start, opening);
          return opening;
        }
      }
      RunOpens(text, start, opening, closing.value);
      return closing.value;
    }
    RunOpensNone(text, start, opening);
    stop := opening;
  }

  /** Where inline markup that begins at `at` ends: literal markup, else a backtick run and the span it opens. */
  ghost function InlineStop(text: string, at: nat): nat
    requires at < |text|
  {
    if LiteralStop(text, at).Some? then LiteralStop(text, at).value
    else if text[at] == '`' then RunStop(text, at)
    else at
  }

  /** How far inline reading reaches at `at`, when what came before reaches to `was`. */
  ghost function Reach(text: string, at: nat, was: nat): nat
    requires at < |text|
  {
    if was > at then was else InlineStop(text, at)
  }

  /** The line `line` stands at `start` in the text. */
  ghost predicate Stands(text: string, line: string, start: nat) {
    start + |line| <= |text| && text[start..start + |line|] == line
  }

  /**
   How a stretch of an unfenced line must have been read. `was` is how far inline markup of earlier lines reaches;
   `continued` says that a comment of an earlier line reaches into this stretch, `open` that it is left open.
   */
  ghost predicate StretchOk(text: string, line: string, start: nat, token: Token, was: nat, continued: bool, open: bool)
    requires Stands(text, line, start)
  {
    && token.begin < token.end <= |line|
    && var at := start + token.begin;
       match token.kind
       case Escape =>
         && !continued && was <= at && line[token.begin] == '\\'
         && token.end == if token.begin + 2 <= |line| then token.begin + 2 else |line|
       case Plain =>
         && !continued && was <= at && token.end == token.begin + 1 && line[token.begin] !in "`\\"
         && !StartsAt(line, token.begin, OPEN) && LiteralStop(text, at).None?
       case Comment =>
         (continued || (was <= at && StartsAt(line, token.begin, OPEN))) && EndsComment(line, token.begin, token.end, !open)
       case Inline =>
         && !continued && InlineAt(text, line, start, token.begin, was)
         && token.end == if Reach(text, at, was) - start <= |line| then Reach(text, at, was) - start else |line|
       case Literal => false
       case Unclosed => false
       case Code => false
  }

  /** Inline markup reaches to `begin` or starts there. */
  ghost predicate InlineAt(text: string, line: string, start: nat, begin: nat, was: nat)
    requires Stands(text, line, start) && begin < |line|
  {
    || was > start + begin
    || (line[begin] != '\\' && !StartsAt(line, begin, OPEN) && (line[begin] == '`' || LiteralStop(text, start + begin).Some?))
  }

  /** How far inline markup reaches once these stretches were read. */
  ghost function InlineAfter(text: string, start: nat, tokens: seq<Token>, was: nat): nat
    requires forall k :: 0 <= k < |tokens| ==> start + tokens[k].begin < |text|
  {
    if tokens == [] then was
    else
      var last := tokens[|tokens| - 1];
      if last.kind.Inline? then Reach(text, start + last.begin, was) else InlineAfter(text, start, tokens[..|tokens| - 1], was)
  }

  lemma InlineNext(text: string, start: nat, tokens: seq<Token>, token: Token, was: nat)
    requires forall k :: 0 <= k < |tokens| ==> start + tokens[k].begin < |text|
    requires start + token.begin < |text|
    ensures InlineAfter(text, start, tokens + [token], was) ==
            if token.kind.Inline? then Reach(text, start + token.begin, was) else InlineAfter(text, start, tokens, was)
  {
    assert (tokens + [token])[..|tokens|] == tokens;
  }

  /** What one line leaves to the next inside it. */
  datatype Within = Within(inComment: bool, inlineEnd: nat)

  /** A line read from `was` to `now`. */
  ghost predicate LineRead(text: string, line: string, start: nat, tokens: seq<Token>, was: Within, now: Within)
    requires Stands(text, line, start)
  {
    && Tiles(tokens, |line|)
    && (forall k :: 0 <= k < |tokens| ==>
          StretchOk(text, line, start, tokens[k], was.inlineEnd, k == 0 && was.inComment, now.inComment && k == |tokens| - 1))
    && (now.inComment ==> tokens != [] && tokens[|tokens| - 1].kind.Comment?)
    && now.inlineEnd == InlineAfter(text, start, tokens, was.inlineEnd)
  }

  /** Two readings of the same place agree, when both leave a comment open or neither does. */
  lemma StretchUnique(text: string, line: string, start: nat, a: Token, b: Token, was: nat, continued: bool, openA: bool, openB: bool)
    requires Stands(text, line, start) && a.begin == b.begin
    requires StretchOk(text, line, start, a, was, continued, openA) && StretchOk(text, line, start, b, was, continued, openB)
    ensures a == b && (a.kind.Comment? ==> openA == openB || a.end == |line|)
  {
    hide LiteralStop, InlineStop;
    var at := start + a.begin;
    assert text[at] == line[a.begin];
    if StartsAt(line, a.begin, OPEN) {
      assert line[a.begin] == line[a.begin..a.begin + 4][0] == '<';
    }
    if a.kind.Comment? && b.kind.Comment? {
      CommentUnique(line, a.begin, a.end, !openA, b.end, !openB);
    }
  }

  lemma CommentUnique(line: string, begin: nat, a: nat, closedA: bool, b: nat, closedB: bool)
    requires EndsComment(line, begin, a, closedA) && EndsComment(line, begin, b, closedB)
    ensures a == b && closedA == closedB
  {
    if closedA {
      assert StartsAt(line, a - 3, CLOSE);
    }
    if closedB {
      assert StartsAt(line, b - 3, CLOSE);
    }
  }

  /** There is one way to read a line from where the last left off. */
  lemma LineUnique(text: string, line: string, start: nat, a: seq<Token>, b: seq<Token>, was: Within, nowA: Within, nowB: Within)
    requires Stands(text, line, start)
    requires LineRead(text, line, start, a, was, nowA) && LineRead(text, line, start, b, was, nowB)
    ensures a == b && (line != "" ==> nowA == nowB)
  {
    hide StretchOk, InlineAfter;
    LinePrefix(text, line, start, a, b, was, nowA, nowB, 0);
    if a != [] {
      var last := |a| - 1;
      LastOpen(text, line, start, a[last], was.inlineEnd, last == 0 && was.inComment, nowA.inComment, nowB.inComment);
    }
  }

  lemma LastOpen(text: string, line: string, start: nat, token: Token, was: nat, continued: bool, openA: bool, openB: bool)
    requires Stands(text, line, start) && token.end == |line| && (openA || openB ==> token.kind.Comment?)
    requires StretchOk(text, line, start, token, was, continued, openA) && StretchOk(text, line, start, token, was, continued, openB)
    ensures openA == openB
  {
    hide LiteralStop, InlineStop;
    if token.kind.Comment? {
      CommentUnique(line, token.begin, token.end, !openA, token.end, !openB);
    }
  }

  lemma {:induction false} LinePrefix(text: string, line: string, start: nat, a: seq<Token>, b: seq<Token>, was: Within, nowA: Within,
                                      nowB: Within, n: nat)
    requires Stands(text, line, start)
    requires LineRead(text, line, start, a, was, nowA) && LineRead(text, line, start, b, was, nowB)
    requires n <= |a| && n <= |b| && a[..n] == b[..n]
    ensures a == b
    decreases |a| - n
  {
    hide StretchOk, InlineAfter;
    SameBegin(a, b, n, |line|);
    if n < |a| {
      StretchUnique(text, line, start, a[n], b[n], was.inlineEnd, n == 0 && was.inComment, nowA.inComment && n == |a| - 1,
                    nowB.inComment && n == |b| - 1);
      LinePrefix(text, line, start, a, b, was, nowA, nowB, n + 1);
    }
  }

  /** Reading up to the middle of a line: nothing is open any more. */
  ghost predicate PartRead(text: string, line: string, start: nat, tokens: seq<Token>, end: nat, was: Within)
    requires Stands(text, line, start)
  {
    && Tiles(tokens, end) && end <= |line|
    && (forall k :: 0 <= k < |tokens| ==> StretchOk(text, line, start, tokens[k], was.inlineEnd, k == 0 && was.inComment, false))
  }

  lemma PartNext(text: string, line: string, start: nat, tokens: seq<Token>, token: Token, was: Within)
    requires Stands(text, line, start) && PartRead(text, line, start, tokens, token.begin, was)
    requires StretchOk(text, line, start, token, was.inlineEnd, tokens == [] && was.inComment, false)
    ensures PartRead(text, line, start, tokens + [token], token.end, was)
    ensures InlineAfter(text, start, tokens + [token], was.inlineEnd) ==
            if token.kind.Inline? then Reach(text, start + token.begin, was.inlineEnd) else InlineAfter(text, start, tokens, was.inlineEnd)
  {
    hide StretchOk, InlineAfter;
    StretchWithin(text, line, start, token, was.inlineEnd, tokens == [] && was.inComment, false);
    TilesNext(tokens, token);
    InlineNext(text, start, tokens, token, was.inlineEnd);
  }

  lemma StretchWithin(text: string, line: string, start: nat, token: Token, was: nat, continued: bool, open: bool)
    requires Stands(text, line, start) && StretchOk(text, line, start, token, was, continued, open)
    ensures token.begin < token.end <= |line| && start + token.begin < |text|
  {
  }

  lemma PartWhole(text: string, line: string, start: nat, tokens: seq<Token>, was: Within)
    requires Stands(text, line, start) && PartRead(text, line, start, tokens, |line|, was)
    ensures LineRead(text, line, start, tokens, was, Within(false, InlineAfter(text, start, tokens, was.inlineEnd)))
  {
    hide StretchOk, InlineAfter;
  }

  /** The line ends inside a comment. */
  lemma PartOpen(text: string, line: string, start: nat, tokens: seq<Token>, token: Token, was: Within)
    requires Stands(text, line, start) && PartRead(text, line, start, tokens, token.begin, was)
    requires token.end == |line| && token.kind.Comment?
    requires StretchOk(text, line, start, token, was.inlineEnd, tokens == [] && was.inComment, true)
    ensures LineRead(text, line, start, tokens + [token], was, Within(true, InlineAfter(text, start, tokens, was.inlineEnd)))
  {
    hide StretchOk, InlineAfter;
    StretchWithin(text, line, start, token, was.inlineEnd, tokens == [] && was.inComment, true);
    TilesNext(tokens, token);
    InlineNext(text, start, tokens, token, was.inlineEnd);
  }

  lemma ShownNext(line: string, masked: string, tokens: seq<Token>, token: Token)
    requires Tiles(tokens, token.begin) && token.begin < token.end <= |line| && HidesIn(line[..token.begin], masked, tokens)
    ensures !token.kind.Code? && !token.kind.Comment? ==>
              HidesIn(line[..token.end], masked + line[token.begin..token.end], tokens + [token])
    ensures token.kind.Comment? ==>
              HidesIn(line[..token.end], masked + Blank(line[token.begin..token.end]), tokens + [token])
  {
    hide Hidden;
    HiddenNext(tokens, token);
    NotHiddenYet(tokens, token.begin);
  }

  lemma NotHiddenYet(tokens: seq<Token>, end: nat)
    requires Tiles(tokens, end)
    ensures forall i: nat :: i >= end ==> !Hidden(tokens, i)
  {
  }

  /** What the loop below knows between two of its steps: either a stretch is pending at `at`, or reading is up to date. */
  ghost predicate Scanning(text: string, line: string, start: nat, tokens: seq<Token>, at: nat, was: Within, now: Within)
    requires Stands(text, line, start) && at <= |line|
    requires forall k :: 0 <= k < |tokens| ==> start + tokens[k].begin < |text|
  {
    && was.inlineEnd <= now.inlineEnd && (was.inlineEnd <= |text| ==> now.inlineEnd <= |text|)
    && (tokens == [] <==> at == 0) && (at == 0 && was.inComment ==> now.inComment)
    && (now.inComment ==> now.inlineEnd <= start + at)
    && (now.inComment && at < |line| ==> (at == 0 && was.inComment) || StartsAt(line, at, OPEN))
    && (if now.inlineEnd > start + at && at < |line|
        then now.inlineEnd == Reach(text, start + at, was.inlineEnd) && InlineAt(text, line, start, at, was.inlineEnd)
        else now.inlineEnd == InlineAfter(text, start, tokens, was.inlineEnd))
  }

  /** The stretches read so far, and whether a comment is left open at the end of the line. */
  ghost predicate ReadSoFar(text: string, line: string, start: nat, tokens: seq<Token>, at: nat, was: Within, now: Within)
    requires Stands(text, line, start)
  {
    if now.inComment && at == |line| then LineRead(text, line, start, tokens, was, now) else PartRead(text, line, start, tokens, at, was)
  }

  lemma ScanStart(text: string, line: string, start: nat, was: Within)
    requires Stands(text, line, start) && line != "" && (was.inComment ==> was.inlineEnd <= start)
    ensures ReadSoFar(text, line, start, [], 0, was, was) && Scanning(text, line, start, [], 0, was, was)
  {
    hide LiteralStop, StartsAt;
  }

  lemma ScanEnd(text: string, line: string, start: nat, tokens: seq<Token>, was: Within, now: Within)
    requires Stands(text, line, start) && forall k :: 0 <= k < |tokens| ==> start + tokens[k].begin < |text|
    requires ReadSoFar(text, line, start, tokens, |line|, was, now) && Scanning(text, line, start, tokens, |line|, was, now)
    ensures LineRead(text, line, start, tokens, was, now)
    ensures was.inlineEnd <= now.inlineEnd && (now.inComment ==> now.inlineEnd <= start + |line|)
    ensures was.inlineEnd <= |text| ==> now.inlineEnd <= |text|
  {
    hide PartRead, LineRead, InlineAfter;
    if !now.inComment {
      PartWhole(text, line, start, tokens, was);
    }
  }

  /** Whether the step made of the situation `before` is the one the line calls for. */
  ghost predicate NextStretch(text: string, line: string, start: nat, token: Token, before: Within, after: Within)
    requires Stands(text, line, start) && token.begin < |line|
  {
    var at := start + token.begin;
    if before.inComment then
      && token.kind.Comment? && EndsComment(line, token.begin, token.end, !after.inComment) && after.inlineEnd == before.inlineEnd
      && (after.inComment ==> token.end == |line|)
    else
      && after == before
      && (if before.inlineEnd > at then
            token.kind.Inline? && token.end == if before.inlineEnd - start <= |line| then before.inlineEnd - start else |line|
          else if line[token.begin] == '\\' then
            token.kind.Escape? && token.end == if token.begin + 2 <= |line| then token.begin + 2 else |line|
          else
            && token.kind.Plain? && token.end == token.begin + 1 && line[token.begin] != '`'
            && !StartsAt(line, token.begin, OPEN) && LiteralStop(text, at).None?)
  }

  lemma ScanNext(text: string, line: string, start: nat, tokens: seq<Token>, token: Token, was: Within, before: Within, after: Within)
    requires Stands(text, line, start) && forall k :: 0 <= k < |tokens| ==> start + tokens[k].begin < |text|
    requires token.begin < token.end <= |line|
    requires ReadSoFar(text, line, start, tokens, token.begin, was, before)
    requires Scanning(text, line, start, tokens, token.begin, was, before)
    requires NextStretch(text, line, start, token, before, after)
    ensures ReadSoFar(text, line, start, tokens + [token], token.end, was, after)
    ensures Scanning(text, line, start, tokens + [token], token.end, was, after)
  {
    hide LiteralStop, StartsAt, EndsComment, InlineAfter, InlineStop, PartRead, LineRead;
    InlineNext(text, start, tokens, token, was.inlineEnd);
    if after.inComment {
      PartOpen(text, line, start, tokens, token, was);
    } else {
      PartNext(text, line, start, tokens, token, was);
    }
  }

  /** A turn that only changes state: a comment opens, or inline markup is found. */
  lemma ScanTurn(text: string, line: string, start: nat, tokens: seq<Token>, at: nat, was: Within, before: Within, after: Within)
    requires Stands(text, line, start) && forall k :: 0 <= k < |tokens| ==> start + tokens[k].begin < |text|
    requires at < |line| && Scanning(text, line, start, tokens, at, was, before)
    requires ReadSoFar(text, line, start, tokens, at, was, before)
    requires !before.inComment && before.inlineEnd <= start + at && line[at] != '\\'
    requires if after.inComment then StartsAt(line, at, OPEN) && after.inlineEnd == before.inlineEnd
             else
               && !StartsAt(line, at, OPEN) && (line[at] == '`' || LiteralStop(text, start + at).Some?)
               && after.inlineEnd == InlineStop(text, start + at) && start + at < after.inlineEnd <= |text|
    ensures Scanning(text, line, start, tokens, at, was, after) && ReadSoFar(text, line, start, tokens, at, was, after)
  {
    hide LiteralStop, StartsAt, InlineAfter, PartRead, LineRead, InlineStop;
  }

  /**
   Blank the comments of one unfenced line. Two branches only change state, so the measure is lexicographic:
   what is left of the line, then whether a comment or an inline span is being read.
   */
  method MaskLine(text: string, line: string, lineStart: nat, wasComment: bool, wasInline: nat)
    returns (masked: string, inComment: bool, inlineEnd: nat, ghost tokens: seq<Token>)
    requires Stands(text, line, lineStart) && line != ""
    requires wasComment ==> wasInline <= lineStart
    ensures HidesIn(line, masked, tokens)
    ensures LineRead(text, line, lineStart, tokens, Within(wasComment, wasInline), Within(inComment, inlineEnd))
    ensures wasInline <= inlineEnd && (inComment ==> inlineEnd <= lineStart + |line|)
    ensures wasInline <= |text| ==> inlineEnd <= |text|
  {
    hide Hidden, Tiles, HidesIn, PartRead, LineRead, EndsComment, LiteralStop, RunStop, InlineAfter, StartsAt, Scanning, ReadSoFar;
    masked, inComment, inlineEnd, tokens := "", wasComment, wasInline, [];
    ghost var was := Within(wasComment, wasInline);
    NothingRead(line);
    ScanStart(text, line, lineStart, was);
    assert line[..0] == "";
    ghost var at: nat := 0;
    var cursor := 0;
    while cursor < |line|
      invariant cursor <= |line| + 1 && at == (if cursor <= |line| then cursor else |line|)
      invariant HidesIn(line[..at], masked, tokens) && Tiles(tokens, at)
      invariant forall k :: 0 <= k < |tokens| ==> lineStart + tokens[k].begin < |text|
      invariant ReadSoFar(text, line, lineStart, tokens, at, was, Within(inComment, inlineEnd))
      invariant Scanning(text, line, lineStart, tokens, at, was, Within(inComment, inlineEnd))
      decreases |line| - cursor, if inComment || inlineEnd > lineStart + cursor then 0 else 1
    {
      assert text[lineStart + cursor] == line[cursor];
      var start, kind, stop := cursor, Plain, cursor;
      ghost var before := Within(inComment, inlineEnd);
      if inComment {
        var close := FindClose(line, cursor);
        kind, stop := Comment, if close.None? then |line| else close.value + 3;
        inComment := close.None?;
      } else if inlineEnd > lineStart + cursor {
        kind, stop := Inline, if |line| < inlineEnd - lineStart then |line| else inlineEnd - lineStart;
      } else if line[cursor] == '\\' {
        kind, stop := Escape, cursor + 2;
      } else if StartsAt(line, cursor, OPEN) {
        inComment := true;
        ScanTurn(text, line, lineStart, tokens, at, was, before, Within(true, inlineEnd));
        continue;
      } else {
        var literal := LiteralMarkupEnd(text, lineStart + cursor);
        if literal.Some? {
          inlineEnd := literal.value;
          ScanTurn(text, line, lineStart, tokens, at, was, before, Within(false, inlineEnd));
          continue;
        } else if line[cursor] == '`' {
          inlineEnd := RunEnd(text, lineStart + cursor);
          ScanTurn(text, line, lineStart, tokens, at, was, before, Within(false, inlineEnd));
          continue;
        }
        stop := cursor + 1;
      }
      var upto := if stop <= |line| then stop else |line|;
      ghost var token := Token(kind, start, upto);
      ShownNext(line, masked, tokens, token);
      ScanNext(text, line, lineStart, tokens, token, was, before, Within(inComment, inlineEnd));
      TilesNext(tokens, token);
      masked := masked + if kind.Comment? then Blank(line[start..upto]) else line[start..upto];
      tokens, at := tokens + [token], upto;
      cursor := stop;
    }
    assert line[..at] == line;
    ScanEnd(text, line, lineStart, tokens, was, Within(inComment, inlineEnd));
  }

  /** What one line hands to the next: an open fence, an open comment, and where the last inline span ends. */
  datatype Carry = Carry(fence: Option<Fence>, inComment: bool, inlineEnd: nat)

  datatype Reading = Fenced | Opening | Read(masked: string, tokens: seq<Token>)

  /** One line: all blank inside or at the edge of a fence, otherwise without its comments. */
  ghost predicate LineStep(text: string, line: string, start: nat, out: string, was: Carry, now: Carry, reading: Reading) {
    match reading
    case Fenced =>
      && was.fence.Some? && out == Blank(line)
      && now == was.(fence := if ClosesFence(line, was.fence.value) then None else was.fence)
    case Opening =>
      && was.fence.None? && !was.inComment && was.inlineEnd <= start && OpensFence(line).Some?
      && out == Blank(line) && now == was.(fence := OpensFence(line))
    case Read(masked, tokens) =>
      && was.fence.None? && (was.inComment || was.inlineEnd > start || OpensFence(line).None?)
      && HidesIn(line, masked, tokens)
      && Stands(text, line, start)
      && LineRead(text, line, start, tokens, Within(was.inComment, was.inlineEnd), Within(now.inComment, now.inlineEnd))
      && (now.inComment ==> now.inlineEnd <= start + |line|)
      && if now.inlineEnd <= start && OpensFence(masked).Some?
         then out == Blank(line) && now.fence == OpensFence(masked)
         else out == masked && now.fence.None?
  }

  /** The lines of a text were read in order, each from where the last left off. */
  ghost predicate BlocksRead(text: string, outs: seq<string>, carries: seq<Carry>, readings: seq<Reading>) {
    var lines := SplitLines(text);
    && |outs| == |readings| <= |lines| && |carries| == |outs| + 1
    && carries[0] == Carry(None, false, 0)
    && forall i :: 0 <= i < |outs| ==> LineStep(text, lines[i], |Join(lines[..i])|, outs[i], carries[i], carries[i + 1], readings[i])
  }

  lemma BlocksNext(text: string, outs: seq<string>, carries: seq<Carry>, readings: seq<Reading>, out: string, now: Carry, reading: Reading)
    requires BlocksRead(text, outs, carries, readings) && |outs| < |SplitLines(text)|
    requires LineStep(text, SplitLines(text)[|outs|], |Join(SplitLines(text)[..|outs|])|, out, carries[|outs|], now, reading)
    ensures BlocksRead(text, outs + [out], carries + [now], readings + [reading])
  {
    hide LineStep, Join, SplitLines;
    var lines := SplitLines(text);
    var outs', carries', readings' := outs + [out], carries + [now], readings + [reading];
    forall i | 0 <= i < |outs'|
      ensures LineStep(text, lines[i], |Join(lines[..i])|, outs'[i], carries'[i], carries'[i + 1], readings'[i])
    {
      if i < |outs| {
        assert LineStep(text, lines[i], |Join(lines[..i])|, outs[i], carries[i], carries[i + 1], readings[i]);
      }
    }
  }

  lemma StepMasks(text: string, line: string, start: nat, out: string, was: Carry, now: Carry, reading: Reading)
    requires LineStep(text, line, start, out, was, now, reading)
    ensures Masks(line, out)
  {
    hide Hidden, OpensFence, ClosesFence, LineRead;
    if reading.Read? {
      HidesMasks(line, reading.masked, reading.tokens);
    }
  }

  /** One line can be read in one way only. */
  lemma StepUnique(text: string, line: string, start: nat, was: Carry, outA: string, nowA: Carry, a: Reading, outB: string, nowB: Carry, b: Reading)
    requires line != "" && LineStep(text, line, start, outA, was, nowA, a) && LineStep(text, line, start, outB, was, nowB, b)
    ensures outA == outB && nowA == nowB && a == b
  {
    hide Hidden, OpensFence, ClosesFence, LineRead, Stands;
    if a.Read? && b.Read? {
      LineUnique(text, line, start, a.tokens, b.tokens, Within(was.inComment, was.inlineEnd), Within(nowA.inComment, nowA.inlineEnd),
                 Within(nowB.inComment, nowB.inlineEnd));
      assert a.masked == b.masked;
    }
  }

  /** The reading of a whole text is determined by the text. */
  lemma {:induction false} BlocksUnique(text: string, outs: seq<string>, carries: seq<Carry>, readings: seq<Reading>,
                                        outs': seq<string>, carries': seq<Carry>, readings': seq<Reading>, n: nat)
    requires BlocksRead(text, outs, carries, readings) && BlocksRead(text, outs', carries', readings')
    requires n <= |outs| && n <= |outs'|
    ensures outs[..n] == outs'[..n] && carries[..n + 1] == carries'[..n + 1]
  {
    hide LineStep, Join;
    if n > 0 {
      BlocksUnique(text, outs, carries, readings, outs', carries', readings', n - 1);
      var line, start := SplitLines(text)[n - 1], |Join(SplitLines(text)[..n - 1])|;
      assert carries[n - 1] == carries[..n][n - 1] == carries'[..n][n - 1] == carries'[n - 1];
      assert LineStep(text, line, start, outs[n - 1], carries[n - 1], carries[n], readings[n - 1]);
      assert LineStep(text, line, start, outs'[n - 1], carries'[n - 1], carries'[n], readings'[n - 1]);
      StepUnique(text, line, start, carries[n - 1], outs[n - 1], carries[n], readings[n - 1], outs'[n - 1], carries'[n], readings'[n - 1]);
      assert outs[..n] == outs[..n - 1] + [outs[n - 1]] && outs'[..n] == outs'[..n - 1] + [outs'[n - 1]];
      assert carries[..n + 1] == carries[..n] + [carries[n]] && carries'[..n + 1] == carries'[..n] + [carries'[n]];
    }
  }

  lemma BlankAgain(line: string, masked: string)
    requires Masks(line, masked)
    ensures Blank(masked) == Blank(line)
  {
  }

  /** One line of the loop below. */
  method MaskBlockLine(text: string, line: string, lineStart: nat, was: Carry)
    returns (out: string, now: Carry, ghost reading: Reading)
    requires Stands(text, line, lineStart) && line != ""
    requires was.inComment ==> was.inlineEnd <= lineStart
    ensures LineStep(text, line, lineStart, out, was, now, reading)
    ensures now.inComment ==> now.inlineEnd <= lineStart + |line|
  {
    hide OpensFence, ClosesFence, HidesIn, LineRead, Masks;
    if was.fence.Some? {
      return Blank(line), was.(fence := if ClosesFence(line, was.fence.value) then None else was.fence), Fenced;
    }
    var marker := OpensFence(line);
    if !was.inComment && was.inlineEnd <= lineStart && marker.Some? {
      return Blank(line), was.(fence := marker), Opening;
    }
    var masked, inComment, inlineEnd;
    ghost var tokens;
    masked, inComment, inlineEnd, tokens := MaskLine(text, line, lineStart, was.inComment, was.inlineEnd);
    reading := Read(masked, tokens);
    HidesMasks(line, masked, tokens);
    BlankAgain(line, masked);
    marker := OpensFence(masked);
    if inlineEnd <= lineStart && marker.Some? {
      out, now := Blank(masked), Carry(marker, inComment, inlineEnd);
    } else {
      out, now := masked, Carry(None, inComment, inlineEnd);
    }
  }

  /** Blank fenced blocks and comments of a whole text. */
  method WithoutBlocks(text: string) returns (result: string, ghost outs: seq<string>, ghost carries: seq<Carry>, ghost readings: seq<Reading>)
    ensures Masks(text, result) && result == Join(outs)
    ensures |outs| == |SplitLines(text)| && BlocksRead(text, outs, carries, readings)
  {
    hide LineStep, Join, SplitLines, Masks;
    var lines := SplitLines(text);
    var carry := Carry(None, false, 0);
    var offset := 0;
    result, outs, carries, readings := "", [], [carry], [];
    SplitJoins(text);
    JoinNone();
    ghost var done := "";
    assert lines[..0] == [];
    for i := 0 to |lines|
      invariant |outs| == i && BlocksRead(text, outs, carries, readings) && carries[i] == carry
      invariant done == Join(lines[..i]) && offset == |done| && result == Join(outs) && Masks(done, result)
      invariant carry.inComment ==> carry.inlineEnd <= offset
    {
      var line := lines[i];
      JoinNext(lines, i);
      var out, now;
      ghost var reading;
      out, now, reading := MaskBlockLine(text, line, offset, carry);
      BlocksNext(text, outs, carries, readings, out, now, reading);
      StepMasks(text, line, offset, out, carry, now, reading);
      MasksBoth(done, line, result, out);
      JoinLast(outs, out);
      done := done + line;
      offset := offset + |line|;
      carry, result := now, result + out;
      outs, carries, readings := outs + [out], carries + [now], readings + [reading];
    }
    assert lines[..|lines|] == lines;
  }

  lemma JoinNone()
    ensures Join([]) == "" && Masks("", "")
  {
  }

  lemma JoinLast(lines: seq<string>, line: string)
    ensures Join(lines + [line]) == Join(lines) + line
  {
    JoinBoth(lines, [line]);
    JoinOne(line);
  }
}

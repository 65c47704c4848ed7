/** Heading anchors of scripts/check-docs.py: one slug for each heading, made unique by a counter. */
module Anchors {
  import opened Options
  import opened Markup
  import opened Markdown

  /** The decimal digits of a number. */
  function Decimal(n: nat): (digits: string)
    ensures digits != "" && forall c :: c in digits ==> '0' <= c <= '9'
  {
    if n < 10 then [Digit(n)] else Decimal(n / 10) + [Digit(n % 10)]
  }

  function Digit(d: nat): (c: char)
    requires d < 10
    ensures '0' <= c <= '9'
  {
    '0' + d as char
  }

  lemma {:induction false} DecimalInjective(m: nat, n: nat)
    requires Decimal(m) == Decimal(n)
    ensures m == n
  {
    var a, b := Decimal(m), Decimal(n);
    assert |a| == 1 <==> m < 10;
    assert |b| == 1 <==> n < 10;
    assert a[|a| - 1] == Digit(m % 10) && b[|b| - 1] == Digit(n % 10);
    if m >= 10 && n >= 10 {
      assert a[..|a| - 1] == Decimal(m / 10) && b[..|b| - 1] == Decimal(n / 10);
      DecimalInjective(m / 10, n / 10);
    }
  }

  function Candidate(base: string, number: nat): string {
    if number == 0 then base else base + "-" + Decimal(number)
  }

  lemma CandidateInjective(base: string, m: nat, n: nat)
    requires Candidate(base, m) == Candidate(base, n)
    ensures m == n
  {
    hide Decimal;
    assert m > 0 <==> |Candidate(base, m)| > |base|;
    assert n > 0 <==> |Candidate(base, n)| > |base|;
    if m > 0 && n > 0 {
      assert (base + "-" + Decimal(m))[|base| + 1..] == Decimal(m);
      assert (base + "-" + Decimal(n))[|base| + 1..] == Decimal(n);
      DecimalInjective(m, n);
    }
  }

  ghost function Candidates(base: string, count: nat): (all: set<string>)
    ensures forall j :: 0 <= j < count ==> Candidate(base, j) in all
  {
    set j | 0 <= j < count :: Candidate(base, j)
  }

  /** The first candidates of one base are all different. */
  lemma {:induction false} CandidatesDiffer(base: string, count: nat)
    ensures |Candidates(base, count)| == count
  {
    hide Candidate;
    if count > 0 {
      CandidatesDiffer(base, count - 1);
      forall j | 0 <= j < count - 1
        ensures Candidate(base, j) != Candidate(base, count - 1)
      {
        if Candidate(base, j) == Candidate(base, count - 1) {
          CandidateInjective(base, j, count - 1);
        }
      }
      assert Candidates(base, count) == Candidates(base, count - 1) + {Candidate(base, count - 1)};
    } else {
      assert Candidates(base, 0) == {};
    }
  }

  lemma {:induction false} SubsetSize(a: set<string>, b: set<string>)
    requires a <= b
    ensures |a| <= |b|
  {
    if a != {} {
      var x :| x in a;
      SubsetSize(a - {x}, b - {x});
    }
  }

  /** So the candidates taken can never outnumber the slugs given out. */
  lemma Pigeonhole(base: string, count: nat, taken: set<string>)
    requires forall j :: 0 <= j < count ==> Candidate(base, j) in taken
    ensures count <= |taken|
  {
    CandidatesDiffer(base, count);
    SubsetSize(Candidates(base, count), taken);
  }

  /** The smallest number whose candidate is free. */
  ghost predicate FirstFree(base: string, taken: set<string>, number: nat) {
    && Candidate(base, number) !in taken
    && forall j :: 0 <= j < number ==> Candidate(base, j) in taken
  }

  /** Count up to the first free candidate; there is one within as many steps as slugs are taken. */
  method UniqueSlug(base: string, generated: set<string>) returns (slug: string, number: nat)
    ensures FirstFree(base, generated, number) && slug == Candidate(base, number)
    ensures number <= |generated|
  {
    slug, number := base, 0;
    while slug in generated
      invariant slug == Candidate(base, number) && number <= |generated|
      invariant forall j :: 0 <= j < number ==> Candidate(base, j) in generated
      decreases |generated| - number
    {
      number := number + 1;
      Pigeonhole(base, number, generated);
      slug := base + "-" + Decimal(number);
    }
  }

  // ---- Headings ----

  predicate IsBlank(c: char) { c == ' ' || c == '\t' }

  function SkipBlanks(line: string, from: nat): (end: nat)
    requires from <= |line|
    ensures from <= end <= |line|
    decreases |line| - from
  {
    if from < |line| && IsBlank(line[from]) then SkipBlanks(line, from + 1) else from
  }

  /** Where the longest run at the end of the line, of characters for which `wanted` holds, begins. */
  function TrailingRun(line: string, end: nat, wanted: char -> bool): (begin: nat)
    requires end <= |line|
    ensures begin <= end
  {
    if end > 0 && wanted(line[end - 1]) then TrailingRun(line, end - 1, wanted) else end
  }

  /** Drop a closing sequence: blanks, number signs, perhaps blanks. */
  function WithoutClosing(title: string): string {
    var marks := TrailingRun(title, |title|, IsBlank);
    var blanks := TrailingRun(title, marks, c => c == '#');
    var begin := TrailingRun(title, blanks, IsBlank);
    if begin < blanks < marks then title[..begin] else title
  }

  /** One to six number signs, then the end of the line or a blank and the title. */
  function AtxHeading(line: string): Option<string> {
    var from := Run(line, 0, ' ', 3);
    var marks := Run(line, from, '#', |line|);
    var after := from + marks;
    if marks == 0 || marks > 6 || (after < |line| && !IsBlank(line[after])) then None
    else Some(WithoutClosing(line[SkipBlanks(line, after)..]))
  }

  /** A row of equals signs or of hyphens, which makes a heading of the line before it. */
  predicate SetextMark(line: string) {
    var from := Run(line, 0, ' ', 3);
    var marks := if from < |line| && line[from] in "=-" then Run(line, from, line[from], |line|) else 0;
    marks > 0 && SkipBlanks(line, from + marks) == |line|
  }

  function Strip(line: string): string {
    if line != "" && IsSpace(line[0]) then Strip(line[1..])
    else if line != "" && IsSpace(line[|line| - 1]) then Strip(line[..|line| - 1])
    else line
  }

  function HeadingOf(previous: string, line: string): Option<string> {
    var atx := AtxHeading(line);
    if atx.Some? then atx
    else if Strip(previous) != "" && SetextMark(line) then Some(Strip(previous))
    else None
  }

  function Unquoted(line: string): string { line[QuoteEnd(line, 0)..] }

  /** The headings of the first lines and the line a Setext mark would turn into the next one. */
  function Headings(lines: seq<string>): (seq<string>, string) {
    if lines == [] then ([], "")
    else
      var (headings, previous) := Headings(lines[..|lines| - 1]);
      var line := lines[|lines| - 1];
      var content := Unquoted(line);
      var heading := HeadingOf(previous, content);
      if heading.Some? then (headings + [heading.value], "") else (headings, content)
  }

  // ---- Which lines are headings, by their characters ----

  /** Up to three spaces, then `marks` number signs, then blanks up to `text`, where the title starts or the line ends. */
  ghost predicate AtxAt(line: string, from: nat, marks: nat, text: nat) {
    && from <= 3 && 1 <= marks <= 6 && from + marks <= text <= |line| && (from + marks == text ==> text == |line|)
    && (forall i :: 0 <= i < from ==> line[i] == ' ') && (forall i :: from <= i < from + marks ==> line[i] == '#')
    && (forall i :: from + marks <= i < text ==> line[i] == ' ' || line[i] == '\t')
    && (text < |line| ==> line[text] != ' ' && line[text] != '\t')
  }

  /** From `at` on a title is nothing but blanks, number signs and perhaps blanks. */
  ghost predicate ClosedFrom(title: string, at: nat) {
    exists a: nat, b: nat :: ClosedBy(title, at, a, b)
  }

  ghost predicate ClosedBy(title: string, at: nat, a: nat, b: nat) {
    && at < a < b <= |title| && (forall i :: a <= i < b ==> title[i] == '#')
    && (forall i :: at <= i < a ==> title[i] == ' ' || title[i] == '\t')
    && (forall i :: b <= i < |title| ==> title[i] == ' ' || title[i] == '\t')
  }

  /** `kept` is the title up to its first closing sequence, or all of it when there is none. */
  ghost predicate Kept(title: string, kept: string) {
    && kept <= title && (forall p: nat :: p < |kept| ==> !ClosedFrom(title, p))
    && (|kept| < |title| ==> ClosedFrom(title, |kept|))
  }

  ghost predicate AtxRow(line: string, title: string) {
    exists from: nat, marks: nat, text: nat :: AtxAt(line, from, marks, text) && Kept(line[text..], title)
  }

  /** Up to three spaces, then equals signs or hyphens of one kind, then perhaps blanks. */
  ghost predicate SetextRow(line: string) {
    exists from: nat, end: nat :: SetextAt(line, from, end)
  }

  ghost predicate SetextAt(line: string, from: nat, end: nat) {
    && from <= 3 && from < end <= |line| && (line[from] == '=' || line[from] == '-')
    && (forall i :: 0 <= i < from ==> line[i] == ' ') && (forall i :: from <= i < end ==> line[i] == line[from])
    && (forall i :: end <= i < |line| ==> line[i] == ' ' || line[i] == '\t')
  }

  /** `title` is the line without the white space at its ends, and is not empty. */
  ghost predicate TextRow(line: string, title: string) {
    exists a: nat, b: nat :: TextAt(line, a, b) && title == line[a..b]
  }

  ghost predicate TextAt(line: string, a: nat, b: nat) {
    && a < b <= |line| && !IsSpace(line[a]) && !IsSpace(line[b - 1])
    && (forall i :: 0 <= i < a ==> IsSpace(line[i])) && (forall i :: b <= i < |line| ==> IsSpace(line[i]))
  }

  lemma {:induction false} BlanksUpTo(line: string, from: nat, end: nat)
    requires from <= end <= |line| && (forall i :: from <= i < end ==> IsBlank(line[i])) && (end < |line| ==> !IsBlank(line[end]))
    ensures SkipBlanks(line, from) == end
    decreases end - from
  {
    if from < end {
      BlanksUpTo(line, from + 1, end);
    }
  }

  lemma {:induction false} BlanksSkipped(line: string, from: nat)
    requires from <= |line|
    ensures var end := SkipBlanks(line, from);
            (forall i :: from <= i < end ==> IsBlank(line[i])) && (end < |line| ==> !IsBlank(line[end]))
    decreases |line| - from
  {
    hide IsBlank;
    if from < |line| && IsBlank(line[from]) {
      BlanksSkipped(line, from + 1);
    }
  }

  lemma {:induction false} TrailingMeans(line: string, end: nat, wanted: char -> bool)
    requires end <= |line|
    ensures var begin := TrailingRun(line, end, wanted);
            (forall i :: begin <= i < end ==> wanted(line[i])) && (begin > 0 ==> !wanted(line[begin - 1]))
    decreases end
  {
    if end > 0 && wanted(line[end - 1]) {
      TrailingMeans(line, end - 1, wanted);
    }
  }

  /** Where a closing sequence can only be. */
  lemma ClosingPlace(title: string)
    ensures forall p: nat :: ClosedFrom(title, p) ==> |WithoutClosing(title)| <= p
    ensures WithoutClosing(title) <= title && (WithoutClosing(title) != title ==> ClosedFrom(title, |WithoutClosing(title)|))
  {
    hide TrailingRun;
    var hashes: char -> bool := c => c == '#';
    var marks := TrailingRun(title, |title|, IsBlank);
    var blanks := TrailingRun(title, marks, hashes);
    var begin := TrailingRun(title, blanks, IsBlank);
    TrailingMeans(title, |title|, IsBlank);
    TrailingMeans(title, marks, hashes);
    TrailingMeans(title, blanks, IsBlank);
    assert WithoutClosing(title) == if begin < blanks < marks then title[..begin] else title;
    if begin < blanks < marks {
      assert ClosedBy(title, begin, blanks, marks);
    }
    forall p: nat, a: nat, b: nat | ClosedBy(title, p, a, b)
      ensures begin <= p && begin < blanks < marks
    {
      ClosedHere(title, p, a, b, begin, blanks, marks);
    }
  }

  lemma ClosedHere(title: string, p: nat, a: nat, b: nat, begin: nat, blanks: nat, marks: nat)
    requires ClosedBy(title, p, a, b) && begin <= blanks <= marks <= |title|
    requires (forall i :: marks <= i < |title| ==> IsBlank(title[i])) && (marks > 0 ==> !IsBlank(title[marks - 1]))
    requires (forall i :: blanks <= i < marks ==> title[i] == '#') && (blanks > 0 ==> title[blanks - 1] != '#')
    requires (forall i :: begin <= i < blanks ==> IsBlank(title[i])) && (begin > 0 ==> !IsBlank(title[begin - 1]))
    ensures begin <= p && begin < blanks < marks
  {
    assert title[b - 1] == '#' && IsBlank(title[a - 1]);
    assert b == marks;
    assert a == blanks;
  }

  lemma ClosingIs(title: string, kept: string)
    ensures WithoutClosing(title) == kept <==> Kept(title, kept)
  {
    hide WithoutClosing, ClosedFrom;
    ClosingPlace(title);
    if Kept(title, kept) {
      assert |kept| == |WithoutClosing(title)|;
    }
  }

  /** A line is an ATX heading exactly as its characters say, with exactly that title. */
  lemma AtxMeans(line: string, title: string)
    ensures AtxHeading(line) == Some(title) <==> AtxRow(line, title)
  {
    hide Run, SkipBlanks, WithoutClosing, Kept;
    var from := Run(line, 0, ' ', 3);
    var marks := Run(line, from, '#', |line|);
    var after := from + marks;
    BlanksSkipped(line, after);
    var text := SkipBlanks(line, after);
    ClosingIs(line[text..], title);
    if AtxHeading(line) == Some(title) {
      assert AtxAt(line, from, marks, text);
    }
    if f: nat, m: nat, t: nat :| AtxAt(line, f, m, t) && Kept(line[t..], title) {
      AtxHere(line, f, m, t);
    }
  }

  lemma AtxHere(line: string, from: nat, marks: nat, text: nat)
    requires AtxAt(line, from, marks, text)
    ensures Run(line, 0, ' ', 3) == from && Run(line, from, '#', |line|) == marks && SkipBlanks(line, from + marks) == text
    ensures AtxHeading(line) == Some(WithoutClosing(line[text..]))
  {
    hide Run, SkipBlanks, WithoutClosing;
    RunIs(line, 0, ' ', 3, from);
    RunIs(line, from, '#', |line|, marks);
    BlanksUpTo(line, from + marks, text);
  }

  /** A Setext mark, by its characters. */
  lemma SetextMeans(line: string)
    ensures SetextMark(line) <==> SetextRow(line)
  {
    hide Run, SkipBlanks;
    var from := Run(line, 0, ' ', 3);
    if from < |line| && line[from] in "=-" {
      var marks := Run(line, from, line[from], |line|);
      BlanksSkipped(line, from + marks);
      if SetextMark(line) {
        assert SetextAt(line, from, from + marks);
      }
    }
    if f: nat, e: nat :| SetextAt(line, f, e) {
      RunIs(line, 0, ' ', 3, f);
      RunIs(line, f, line[f], |line|, e - f);
      BlanksUpTo(line, e, |line|);
    }
  }

  lemma {:induction false} StripIs(line: string, a: nat, b: nat)
    requires a <= b <= |line| && (a < b ==> !IsSpace(line[a]) && !IsSpace(line[b - 1]))
    requires (forall i :: 0 <= i < a ==> IsSpace(line[i])) && (forall i :: b <= i < |line| ==> IsSpace(line[i]))
    ensures Strip(line) == line[a..b]
    decreases |line|
  {
    hide IsSpace;
    if a > 0 {
      assert line[1..][a - 1..b - 1] == line[a..b];
      StripIs(line[1..], a - 1, b - 1);
    } else if b > 0 && b < |line| {
      assert line[..|line| - 1][..b] == line[..b];
      StripIs(line[..|line| - 1], 0, b);
    } else if b < |line| {
      StripIs(line[1..], 0, 0);
    }
  }

  lemma StripRuns(line: string) returns (a: nat, b: nat)
    ensures a <= b <= |line| && (a < b ==> !IsSpace(line[a]) && !IsSpace(line[b - 1]))
    ensures (forall i :: 0 <= i < a ==> IsSpace(line[i])) && (forall i :: b <= i < |line| ==> IsSpace(line[i]))
  {
    hide IsSpace;
    a, b := 0, |line|;
    while a < |line| && IsSpace(line[a])
      invariant a <= |line| && forall i :: 0 <= i < a ==> IsSpace(line[i])
    {
      a := a + 1;
    }
    while b > a && IsSpace(line[b - 1])
      invariant a <= b <= |line| && forall i :: b <= i < |line| ==> IsSpace(line[i])
    {
      b := b - 1;
    }
  }

  /** What a Setext mark makes a heading of: the line before without the white space around it. */
  lemma TextMeans(line: string, title: string)
    ensures Strip(line) == title != "" <==> TextRow(line, title)
  {
    hide IsSpace, Strip;
    var a, b := StripRuns(line);
    StripIs(line, a, b);
    if title != "" && title == line[a..b] {
      assert TextAt(line, a, b);
    }
    if c: nat, d: nat :| TextAt(line, c, d) && title == line[c..d] {
      StripIs(line, c, d);
    }
  }

  // ---- The headings of a text ----

  /** Line `k` is a heading with this title: an ATX heading, or a Setext mark under a text line that is no heading itself. */
  ghost predicate Titled(lines: seq<string>, k: nat, title: string)
    requires k < |lines|
    decreases k, 0
  {
    || AtxRow(Unquoted(lines[k]), title)
    || (k > 0 && SetextRow(Unquoted(lines[k])) && TextRow(Unquoted(lines[k - 1]), title) && !HeadingLine(lines, k - 1))
  }

  ghost predicate HeadingLine(lines: seq<string>, k: nat)
    requires k < |lines|
    decreases k, 1
  {
    exists title :: Titled(lines, k, title)
  }

  /** A line makes a heading exactly when it is one, or when it underlines the text before it. */
  lemma HeadingMeans(previous: string, line: string, title: string)
    ensures HeadingOf(previous, line) == Some(title) <==> AtxRow(line, title) || (SetextRow(line) && TextRow(previous, title))
  {
    hide AtxHeading, AtxRow, SetextMark, SetextRow, Strip, TextRow;
    AtxMeans(line, title);
    SetextMeans(line);
    TextMeans(previous, title);
    TextMeans(previous, Strip(previous));
    if AtxHeading(line).Some? {
      AtxMeans(line, AtxHeading(line).value);
      NotBoth(line, AtxHeading(line).value);
    }
  }

  lemma NotBoth(line: string, title: string)
    requires AtxRow(line, title)
    ensures !SetextRow(line)
  {
    hide Kept;
    var from: nat, marks: nat, text: nat :| AtxAt(line, from, marks, text) && Kept(line[text..], title);
    assert line[from] == '#';
  }

  /** Whether a line is a heading is decided by it and the lines before it. */
  lemma {:induction false} HeadingPrefix(lines: seq<string>, n: nat, k: nat)
    requires k < n <= |lines|
    ensures forall title :: Titled(lines[..n], k, title) <==> Titled(lines, k, title)
    ensures HeadingLine(lines[..n], k) <==> HeadingLine(lines, k)
    decreases k
  {
    hide AtxRow, SetextRow, TextRow, Unquoted;
    if k > 0 {
      HeadingPrefix(lines, n, k - 1);
    }
    assert forall title :: Titled(lines[..n], k, title) <==> Titled(lines, k, title);
  }

  lemma LinePrefixes(lines: seq<string>, n: nat)
    requires n <= |lines|
    ensures forall k, title :: 0 <= k < n ==> (Titled(lines[..n], k, title) <==> Titled(lines, k, title))
    ensures forall k :: 0 <= k < n ==> (HeadingLine(lines[..n], k) <==> HeadingLine(lines, k))
  {
    hide Titled, HeadingLine;
    forall k, title | 0 <= k < n
      ensures Titled(lines[..n], k, title) <==> Titled(lines, k, title)
    {
      HeadingPrefix(lines, n, k);
    }
    forall k | 0 <= k < n
      ensures HeadingLine(lines[..n], k) <==> HeadingLine(lines, k)
    {
      HeadingPrefix(lines, n, k);
    }
  }

  /** The headings of a text are its heading lines in order, each with its title. */
  lemma {:induction false} HeadingLines(lines: seq<string>) returns (at: seq<nat>)
    ensures |at| == |Headings(lines).0| && (forall j, k :: 0 <= j < k < |at| ==> at[j] < at[k])
    ensures forall k: nat :: k in at <==> k < |lines| && HeadingLine(lines, k)
    ensures forall j :: 0 <= j < |at| ==> at[j] < |lines| && Titled(lines, at[j], Headings(lines).0[j])
    ensures Headings(lines).1 == if lines == [] || HeadingLine(lines, |lines| - 1) then "" else Unquoted(lines[|lines| - 1])
    decreases |lines|
  {
    hide Titled, HeadingLine, HeadingOf, Unquoted;
    if lines == [] {
      at := [];
    } else {
      var n := |lines| - 1;
      at := HeadingLines(lines[..n]);
      LinePrefixes(lines, n);
      var previous, line := Headings(lines[..n]).1, Unquoted(lines[n]);
      LastHeading(lines, previous);
      if HeadingOf(previous, line).Some? {
        at := at + [n];
      }
    }
  }

  lemma LastHeading(lines: seq<string>, previous: string)
    requires lines != []
    requires var n := |lines| - 1;
             previous == if n == 0 || HeadingLine(lines, n - 1) then "" else Unquoted(lines[n - 1])
    ensures var heading := HeadingOf(previous, Unquoted(lines[|lines| - 1]));
            && (HeadingLine(lines, |lines| - 1) <==> heading.Some?)
            && (heading.Some? ==> Titled(lines, |lines| - 1, heading.value))
  {
    hide HeadingOf, AtxRow, SetextRow, TextRow, Unquoted;
    var n := |lines| - 1;
    var line := Unquoted(lines[n]);
    NoText();
    forall title
      ensures HeadingOf(previous, line) == Some(title) <==> Titled(lines, n, title)
    {
      HeadingMeans(previous, line, title);
    }
  }

  lemma NoText()
    ensures forall title :: !TextRow("", title)
  {
  }

  /** Every heading has the first free candidate of its own slug, given those before it. */
  ghost predicate Slugged(headings: seq<string>, slugs: seq<string>, slugOf: string -> string) {
    && |slugs| == |headings|
    && forall k :: 0 <= k < |slugs| ==> Chosen(headings, slugs, slugOf, k)
  }

  ghost predicate Chosen(headings: seq<string>, slugs: seq<string>, slugOf: string -> string, k: nat)
    requires k < |slugs| == |headings|
  {
    exists number: nat :: number <= k && Takes(headings, slugs, slugOf, k, number)
  }

  ghost predicate Takes(headings: seq<string>, slugs: seq<string>, slugOf: string -> string, k: nat, number: nat)
    requires k < |slugs| == |headings|
  {
    slugs[k] == Candidate(slugOf(headings[k]), number) && FirstFree(slugOf(headings[k]), Taken(slugs, k), number)
  }

  ghost function Taken(slugs: seq<string>, count: nat): set<string>
    requires count <= |slugs|
  {
    set k | 0 <= k < count :: slugs[k]
  }

  lemma SlugsDistinct(headings: seq<string>, slugs: seq<string>, slugOf: string -> string)
    requires Slugged(headings, slugs, slugOf)
    ensures forall j, k :: 0 <= j < k < |slugs| ==> slugs[j] != slugs[k]
  {
    forall j, k | 0 <= j < k < |slugs|
      ensures slugs[j] != slugs[k]
    {
      assert Chosen(headings, slugs, slugOf, k);
      var number: nat :| number <= k && Takes(headings, slugs, slugOf, k, number);
      assert slugs[j] in Taken(slugs, k);
    }
  }

  lemma TakenNext(slugs: seq<string>, slug: string)
    ensures Taken(slugs + [slug], |slugs| + 1) == Taken(slugs, |slugs|) + {slug}
  {
    var all := slugs + [slug];
    assert forall k :: 0 <= k < |slugs| ==> all[k] == slugs[k];
    assert all[|slugs|] == slug;
  }

  lemma {:induction false} TakenSize(slugs: seq<string>, count: nat)
    requires count <= |slugs| && forall j, k :: 0 <= j < k < |slugs| ==> slugs[j] != slugs[k]
    ensures |Taken(slugs, count)| == count
  {
    if count == 0 {
      assert Taken(slugs, 0) == {};
    } else {
      TakenSize(slugs, count - 1);
      assert Taken(slugs, count) == Taken(slugs, count - 1) + {slugs[count - 1]};
    }
  }

  lemma SluggedNext(headings: seq<string>, slugs: seq<string>, slugOf: string -> string, heading: string, slug: string, number: nat)
    requires Slugged(headings, slugs, slugOf) && number <= |slugs|
    requires slug == Candidate(slugOf(heading), number) && FirstFree(slugOf(heading), Taken(slugs, |slugs|), number)
    ensures Slugged(headings + [heading], slugs + [slug], slugOf)
  {
    hide FirstFree, Candidate;
    var headings', slugs' := headings + [heading], slugs + [slug];
    forall k | 0 <= k < |slugs'|
      ensures Chosen(headings', slugs', slugOf, k)
    {
      assert forall j :: 0 <= j < k ==> slugs'[j] == slugs[j];
      assert Taken(slugs', k) == Taken(slugs, k);
      if k < |slugs| {
        assert Chosen(headings, slugs, slugOf, k);
        var n: nat :| n <= k && Takes(headings, slugs, slugOf, k, n);
        assert Takes(headings', slugs', slugOf, k, n);
      } else {
        assert Takes(headings', slugs', slugOf, k, number);
      }
    }
  }

  /** The slug loop over the lines of a masked text: as many different slugs as headings. */
  method GenerateAnchors(lines: seq<string>, slugOf: string -> string) returns (generated: set<string>, ghost slugs: seq<string>)
    ensures Slugged(Headings(lines).0, slugs, slugOf)
    ensures generated == Taken(slugs, |slugs|) && |generated| == |Headings(lines).0|
  {
    hide FirstFree, Candidate, Slugged, HeadingOf;
    generated, slugs := {}, [];
    var previous := "";
    assert lines[..0] == [];
    NothingSlugged(slugOf);
    for i := 0 to |lines|
      invariant Slugged(Headings(lines[..i]).0, slugs, slugOf) && previous == Headings(lines[..i]).1
      invariant generated == Taken(slugs, |slugs|) && |generated| == |slugs|
    {
      assert lines[..i + 1][..i] == lines[..i];
      var content := Unquoted(lines[i]);
      var heading := HeadingOf(previous, content);
      if heading.Some? {
        var slug, number := UniqueSlug(slugOf(heading.value), generated);
        SluggedNext(Headings(lines[..i]).0, slugs, slugOf, heading.value, slug, number);
        TakenNext(slugs, slug);
        generated := generated + {slug};
        slugs := slugs + [slug];
        SlugsDistinct(Headings(lines[..i + 1]).0, slugs, slugOf);
        TakenSize(slugs, |slugs|);
        previous := "";
      } else {
        previous := content;
      }
    }
    assert lines[..|lines|] == lines;
    SlugCount(Headings(lines).0, slugs, slugOf);
  }

  lemma NothingSlugged(slugOf: string -> string)
    ensures Slugged([], [], slugOf) && Taken([], 0) == {}
  {
  }

  lemma SlugCount(headings: seq<string>, slugs: seq<string>, slugOf: string -> string)
    requires Slugged(headings, slugs, slugOf)
    ensures |slugs| == |headings|
  {
  }

  /** The choice is forced: the headings alone decide every slug. */
  lemma {:induction false} SlugsUnique(headings: seq<string>, a: seq<string>, b: seq<string>, slugOf: string -> string, count: nat)
    requires Slugged(headings, a, slugOf) && Slugged(headings, b, slugOf) && count <= |a|
    ensures a[..count] == b[..count]
  {
    hide Candidate;
    if count > 0 {
      var k := count - 1;
      SlugsUnique(headings, a, b, slugOf, k);
      assert forall j :: 0 <= j < k ==> a[j] == a[..k][j] && b[j] == b[..k][j];
      assert Taken(a, k) == Taken(b, k);
      assert Chosen(headings, a, slugOf, k) && Chosen(headings, b, slugOf, k);
      var m: nat :| m <= k && Takes(headings, a, slugOf, k, m);
      var n: nat :| n <= k && Takes(headings, b, slugOf, k, n);
      assert m == n;
    }
  }

  /** Headings that share a slug are numbered in order: base, base-1, base-2, ... */
  lemma {:induction false} RepeatedHeading(headings: seq<string>, slugs: seq<string>, slugOf: string -> string, base: string, k: nat)
    requires Slugged(headings, slugs, slugOf) && k < |slugs|
    requires forall j :: 0 <= j < |headings| ==> slugOf(headings[j]) == base
    ensures slugs[k] == Candidate(base, k)
  {
    hide Candidate;
    forall j | 0 <= j < k
      ensures slugs[j] == Candidate(base, j)
    {
      RepeatedHeading(headings, slugs, slugOf, base, j);
    }
    assert Chosen(headings, slugs, slugOf, k);
    var number: nat :| number <= k && Takes(headings, slugs, slugOf, k, number);
    assert forall j :: 0 <= j < k ==> slugs[j] in Taken(slugs, k);
  }
}

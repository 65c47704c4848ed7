/**
 A comment that a fence does not end. scripts/check-docs.py tracks fences and comments together so that neither
 can hide later links; one kind of line defeats this, and it is the only kind.
 */
module Swallowed {
  import opened Options
  import opened Markup
  import opened Markdown

  // ---- Where a fence run stands ----

  ghost predicate AllSpaces(line: string, from: nat, to: nat) {
    to <= |line| && forall i :: from <= i < to ==> line[i] == ' '
  }

  /** Before a fence run there are never five spaces in a row, nor four at the very start. */
  lemma {:induction false} QuoteWindows(line: string, from: nat, i: nat)
    requires from <= |line|
    ensures var at := QuoteEnd(line, from) + Indent(line, QuoteEnd(line, from));
            && (from + 4 <= at ==> !AllSpaces(line, from, from + 4))
            && (from <= i && i + 5 <= at ==> !AllSpaces(line, i, i + 5))
    decreases |line| - from
  {
    hide Indent, PastQuote;
    var mark := from + Indent(line, from);
    if mark < |line| && line[mark] == '>' {
      var next := PastQuote(line, mark);
      QuoteWindows(line, next, i);
      assert mark < i < next && AllSpaces(line, i, i + 5) ==> AllSpaces(line, next, next + 4);
    }
  }

  /** Where the run stands depends only on what comes up to it. */
  lemma {:induction false} SameMark(a: string, b: string, from: nat)
    requires |a| == |b| && from <= |a|
    requires var at := QuoteEnd(a, from) + Indent(a, QuoteEnd(a, from)); at < |a| && forall i :: 0 <= i <= at ==> a[i] == b[i]
    ensures QuoteEnd(b, from) == QuoteEnd(a, from) && Indent(b, QuoteEnd(b, from)) == Indent(a, QuoteEnd(a, from))
    decreases |a| - from
  {
    hide Indent, PastQuote;
    var mark, quote := from + Indent(a, from), QuoteEnd(a, from);
    var at := quote + Indent(a, quote);
    assert mark <= at;
    SameIndentAt(a, b, from, at);
    if a[mark] == '>' {
      assert mark + 1 <= at;
      SamePast(a, b, mark);
      SameMark(a, b, PastQuote(a, mark));
    }
  }

  lemma SameIndentAt(a: string, b: string, from: nat, at: nat)
    requires |a| == |b| && from <= |a| && from + Indent(a, from) <= at < |a| && forall i :: 0 <= i <= at ==> a[i] == b[i]
    ensures Indent(b, from) == Indent(a, from)
  {
    hide Indent;
    IndentIs(b, from, Indent(a, from));
  }

  lemma SamePast(a: string, b: string, mark: nat)
    requires |a| == |b| && mark + 1 < |a| && a[mark + 1] == b[mark + 1]
    ensures PastQuote(b, mark) == PastQuote(a, mark)
  {
  }

  /** A tilde fence is opened by what stands up to its third tilde. */
  lemma SameFence(a: string, b: string)
    requires |a| == |b| && ThreeAt(a, MarkAt(a)) && a[MarkAt(a)] == '~' && a[..MarkAt(a) + 3] == b[..MarkAt(a) + 3]
    ensures MarkAt(b) == MarkAt(a) && OpensFence(a).Some? && OpensFence(b).Some?
  {
    hide QuoteEnd, Marker, Indent;
    var at := MarkAt(a);
    assert forall i :: 0 <= i < at + 3 ==> a[i] == a[..at + 3][i] == b[i];
    SameMark(a, b, 0);
    MarkerMeans(a);
    MarkerMeans(b);
  }

  // ---- Reading such a line ----

  ghost predicate HoldsBoth(carry: Carry) {
    carry.fence.Some? && carry.inComment
  }

  /** No inline markup is read on the line. */
  ghost predicate NoInline(tokens: seq<Token>) {
    forall k :: 0 <= k < |tokens| ==> !tokens[k].kind.Inline?
  }

  lemma {:induction false} InlineReach(text: string, start: nat, tokens: seq<Token>, was: nat)
    requires forall k :: 0 <= k < |tokens| ==> start + tokens[k].begin < |text|
    requires forall k :: 0 <= k < |tokens| && tokens[k].kind.Inline? ==> Reach(text, start + tokens[k].begin, was) > start
    ensures NoInline(tokens) ==> InlineAfter(text, start, tokens, was) == was
    ensures !NoInline(tokens) ==> InlineAfter(text, start, tokens, was) > start
  {
    hide Reach;
    if tokens != [] {
      InlineReach(text, start, tokens[..|tokens| - 1], was);
    }
  }

  /** Inline reading ends before the line exactly when it reached no further before and nothing inline is on it. */
  lemma InlineEnds(text: string, line: string, start: nat, tokens: seq<Token>, was: Within, now: Within)
    requires Stands(text, line, start) && LineRead(text, line, start, tokens, was, now)
    ensures now.inlineEnd <= start <==> NoInline(tokens) && was.inlineEnd <= start
  {
    hide InlineStop;
    InlineReach(text, start, tokens, was.inlineEnd);
    if was.inlineEnd > start && tokens != [] {
      assert StretchOk(text, line, start, tokens[0], was.inlineEnd, was.inComment, now.inComment && 0 == |tokens| - 1);
    }
  }

  /** Every place of the line lies in a stretch. */
  lemma {:induction false} StretchAt(tokens: seq<Token>, end: nat, i: nat) returns (k: nat)
    requires Tiles(tokens, end) && i < end
    ensures k < |tokens| && tokens[k].begin <= i < tokens[k].end
  {
    k := |tokens| - 1;
    if i < tokens[k].begin {
      assert tokens[k - 1].end == tokens[k].begin;
      TilesFirst(tokens, end);
      k := StretchAt(tokens[..k], tokens[k].begin, i);
    }
  }

  lemma TilesFirst(tokens: seq<Token>, end: nat)
    requires Tiles(tokens, end) && |tokens| > 1
    ensures Tiles(tokens[..|tokens| - 1], tokens[|tokens| - 1].begin)
  {
    var n := |tokens| - 1;
    TilesBelow(tokens, end, n);
  }

  lemma {:induction false} TilesBelow(tokens: seq<Token>, end: nat, n: nat)
    requires Tiles(tokens, end) && n < |tokens|
    ensures forall k :: 0 <= k < n ==> tokens[k].end <= tokens[n].begin
  {
    if n > 0 {
      TilesBelow(tokens, end, n - 1);
    }
  }

  lemma HiddenIn(tokens: seq<Token>, end: nat, k: nat, i: nat)
    requires Tiles(tokens, end) && k < |tokens| && tokens[k].begin <= i < tokens[k].end
    ensures Hidden(tokens, i) <==> tokens[k].kind.Code? || tokens[k].kind.Comment?
  {
    if Hidden(tokens, i) {
      var j :| 0 <= j < |tokens| && (tokens[j].kind.Code? || tokens[j].kind.Comment?) && tokens[j].begin <= i < tokens[j].end;
      TilesBelow(tokens, end, j);
      TilesBelow(tokens, end, k);
    }
  }

  /** A whole reading of one line, with what it leaves visible. */
  ghost predicate Shown(text: string, line: string, start: nat, tokens: seq<Token>, was: Within, now: Within, masked: string) {
    && Stands(text, line, start) && LineRead(text, line, start, tokens, was, now) && HidesIn(line, masked, tokens)
    && was.inlineEnd <= start && NoInline(tokens)
  }

  lemma ShownStretch(text: string, line: string, start: nat, tokens: seq<Token>, was: Within, now: Within, masked: string, i: nat)
    returns (k: nat)
    requires Shown(text, line, start, tokens, was, now, masked) && i < |line|
    ensures k < |tokens| && tokens[k].begin <= i < tokens[k].end && !tokens[k].kind.Inline?
    ensures StretchOk(text, line, start, tokens[k], was.inlineEnd, k == 0 && was.inComment, now.inComment && k == |tokens| - 1)
    ensures Hidden(tokens, i) <==> tokens[k].kind.Comment?
    ensures k > 0 ==> tokens[k].begin >= tokens[0].end
    ensures k == 0 ==> tokens[k].begin == 0
    ensures k == |tokens| - 1 ==> tokens[k].end == |line|
  {
    hide StretchOk, Hidden;
    k := StretchAt(tokens, |line|, i);
    HiddenIn(tokens, |line|, k, i);
    TilesBelow(tokens, |line|, k);
    StretchKinds(text, line, start, tokens[k], was.inlineEnd, k == 0 && was.inComment, now.inComment && k == |tokens| - 1);
  }

  lemma StretchKinds(text: string, line: string, start: nat, token: Token, was: nat, continued: bool, open: bool)
    requires Stands(text, line, start) && StretchOk(text, line, start, token, was, continued, open)
    ensures !token.kind.Code?
  {
  }

  /** Without inline markup no visible backtick stands behind blanks and quote markers. */
  lemma NoBacktick(text: string, line: string, start: nat, tokens: seq<Token>, was: Within, now: Within, masked: string, at: nat)
    requires Shown(text, line, start, tokens, was, now, masked)
    requires at < |line| && forall i :: 0 <= i < at ==> masked[i] in " >\t"
    ensures masked[at] != '`'
  {
    hide LineRead, Tiles, Hidden, LiteralStop, NoInline;
    var k := ShownStretch(text, line, start, tokens, was, now, masked, at);
    if masked[at] == '`' && tokens[k].begin < at {
      assert tokens[k].kind.Escape? && tokens[k].begin == at - 1;
      var j := ShownStretch(text, line, start, tokens, was, now, masked, at - 1);
      ShownTiles(text, line, start, tokens, was, now, masked);
      SameStretch(tokens, |line|, j, k, at - 1);
    }
  }

  lemma ShownTiles(text: string, line: string, start: nat, tokens: seq<Token>, was: Within, now: Within, masked: string)
    requires Shown(text, line, start, tokens, was, now, masked)
    ensures Tiles(tokens, |line|)
  {
  }

  lemma SameStretch(tokens: seq<Token>, end: nat, j: nat, k: nat, i: nat)
    requires Tiles(tokens, end) && j < |tokens| && k < |tokens|
    requires tokens[j].begin <= i < tokens[j].end && tokens[k].begin <= i < tokens[k].end
    ensures j == k
  {
    TilesBelow(tokens, end, j);
    TilesBelow(tokens, end, k);
  }

  /** A comment that opens on the line has both its marks. */
  lemma CommentLong(line: string, begin: nat, end: nat)
    requires StartsAt(line, begin, OPEN) && EndsComment(line, begin, end, true)
    ensures end >= begin + 5
  {
    assert line[begin..begin + 4][0] == '<' && line[begin..begin + 4][1] == '!';
    assert line[end - 3..end][0] == '-' && line[end - 3..end][2] == '>';
    assert line[begin] == '<' && line[begin + 1] == '!' && line[begin + 2] == '-';
    assert line[begin..begin + 4][2] == '-';
  }

  /** What is hidden before a visible fence run: nothing, except the closing mark of the comment the line is read inside. */
  lemma HiddenBefore(text: string, line: string, start: nat, tokens: seq<Token>, was: Within, now: Within, masked: string, i: nat)
    requires Shown(text, line, start, tokens, was, now, masked)
    requires ThreeAt(masked, MarkAt(masked)) && i < MarkAt(masked) && Hidden(tokens, i)
    ensures was.inComment && i < 3 && StartsAt(line, 0, CLOSE)
  {
    hide LineRead, Tiles, Hidden, LiteralStop, NoInline, QuoteEnd, Indent, StartsAt, EndsComment;
    var at := MarkAt(masked);
    var k := ShownStretch(text, line, start, tokens, was, now, masked, i);
    var begin, end := tokens[k].begin, tokens[k].end;
    StretchComment(text, line, start, tokens[k], was.inlineEnd, k == 0 && was.inComment, now.inComment && k == |tokens| - 1);
    HidesRange(line, masked, tokens, k);
    assert at >= end;
    PrefixSpaces(masked, begin, end);
    if !(k == 0 && was.inComment) {
      CommentLong(line, begin, end);
      QuoteWindows(masked, 0, begin);
    } else {
      if end >= 4 {
        QuoteWindows(masked, 0, 0);
      }
    }
  }

  lemma StretchComment(text: string, line: string, start: nat, token: Token, was: nat, continued: bool, open: bool)
    requires Stands(text, line, start) && StretchOk(text, line, start, token, was, continued, open) && token.kind.Comment?
    ensures EndsComment(line, token.begin, token.end, !open) && (continued || StartsAt(line, token.begin, OPEN))
    ensures open ==> token.end == |line|
    ensures !open ==> token.end >= token.begin + 3 && StartsAt(line, token.end - 3, CLOSE)
  {
  }

  lemma HidesRange(line: string, masked: string, tokens: seq<Token>, k: nat)
    requires HidesIn(line, masked, tokens) && k < |tokens| && tokens[k].kind.Comment? && tokens[k].end <= |line|
    ensures forall j :: tokens[k].begin <= j < tokens[k].end ==> masked[j] in " \n"
  {
    forall j | tokens[k].begin <= j < tokens[k].end
      ensures masked[j] in " \n"
    {
      assert Hidden(tokens, j);
    }
  }

  /** Hidden places before the run are spaces. */
  lemma PrefixSpaces(masked: string, begin: nat, end: nat)
    requires begin <= end <= MarkAt(masked) && forall j :: begin <= j < end ==> masked[j] in " \n"
    ensures AllSpaces(masked, begin, end)
  {
    hide Indent, QuoteEnd;
    MarkPrefix(masked);
  }

  lemma MarkPrefix(line: string)
    ensures forall i :: 0 <= i < MarkAt(line) ==> line[i] in " >\t"
  {
    hide Indent, QuoteEnd;
    QuoteMeans(line, 0);
  }

  // ---- The only kind of line ----

  /** The line without the closing mark it begins with. */
  function Uncovered(line: string): string
    requires |line| >= 3
  {
    "   " + line[3..]
  }

  /** A fence that shows only once comments are hidden: the line was read inside a comment and begins with its end. */
  lemma FenceShows(text: string, line: string, start: nat, tokens: seq<Token>, was: Within, now: Within, masked: string)
    requires Shown(text, line, start, tokens, was, now, masked) && OpensFence(masked).Some?
    ensures if was.inComment then StartsAt(line, 0, CLOSE) && OpensFence(Uncovered(line)).Some? else OpensFence(line).Some?
  {
    hide LineRead, Tiles, Hidden, NoInline, QuoteEnd, Indent, StretchOk, Marker;
    MarkerMeans(masked);
    MarkPrefix(masked);
    var at := MarkAt(masked);
    NoBacktick(text, line, start, tokens, was, now, masked, at);
    var k := ShownStretch(text, line, start, tokens, was, now, masked, 0);
    if was.inComment {
      FirstHidden(text, line, start, tokens, was, now, masked);
      HiddenBefore(text, line, start, tokens, was, now, masked, 0);
      CloseIs(line);
      forall i | 3 <= i < at
        ensures masked[i] == line[i]
      {
        if Hidden(tokens, i) {
          HiddenBefore(text, line, start, tokens, was, now, masked, i);
        }
      }
      SameFence(masked, Uncovered(line));
    } else {
      forall i | 0 <= i < at
        ensures masked[i] == line[i]
      {
        if Hidden(tokens, i) {
          HiddenBefore(text, line, start, tokens, was, now, masked, i);
        }
      }
      SameFence(masked, line);
    }
  }

  lemma CloseIs(line: string)
    requires StartsAt(line, 0, CLOSE)
    ensures |line| >= 3 && line[0] == '-' && line[1] == '-' && line[2] == '>'
  {
    assert line[0..3] == CLOSE;
    assert line[0..3][0] == '-' && line[0..3][1] == '-' && line[0..3][2] == '>';
  }

  lemma FirstHidden(text: string, line: string, start: nat, tokens: seq<Token>, was: Within, now: Within, masked: string)
    requires Shown(text, line, start, tokens, was, now, masked) && was.inComment && line != ""
    ensures tokens != [] && tokens[0].kind.Comment? && Hidden(tokens, 0)
    ensures StartsAt(line, 0, CLOSE) ==> tokens[0].end == 3 && forall i :: 0 <= i < 3 ==> Hidden(tokens, i)
  {
    hide LiteralStop;
    assert StretchOk(text, line, start, tokens[0], was.inlineEnd, true, now.inComment && 0 == |tokens| - 1);
    assert tokens[0].begin <= 0 < tokens[0].end;
    if StartsAt(line, 0, CLOSE) {
      forall i | 0 <= i < 3
        ensures Hidden(tokens, i)
      {
        assert tokens[0].begin <= i < tokens[0].end;
      }
    }
  }

  /** The other way round. */
  lemma FenceUncovered(text: string, line: string, start: nat, tokens: seq<Token>, was: Within, now: Within, masked: string)
    requires Shown(text, line, start, tokens, was, now, masked)
    requires was.inComment && StartsAt(line, 0, CLOSE) && OpensFence(Uncovered(line)).Some?
    ensures OpensFence(masked).Some?
  {
    hide LineRead, Tiles, Hidden, NoInline, QuoteEnd, Indent, StretchOk, OpensFence, StartsAt, MarkAt;
    CloseIs(line);
    var bare := Uncovered(line);
    FenceStands(bare);
    MarkPrefix(bare);
    var at := MarkAt(bare);
    FirstHidden(text, line, start, tokens, was, now, masked);
    assert forall j :: 3 <= j < at + 3 ==> line[j] == bare[j] != '<';
    forall i | 0 <= i < at + 3
      ensures masked[i] == bare[i]
    {
      if i >= 3 && Hidden(tokens, i) {
        var k := ShownStretch(text, line, start, tokens, was, now, masked, i);
        StretchComment(text, line, start, tokens[k], was.inlineEnd, k == 0 && was.inComment, now.inComment && k == |tokens| - 1);
        OpenIs(line, tokens[k].begin);
      }
    }
    assert forall i :: 0 <= i < at ==> masked[i] == bare[i];
    NoBacktick(text, line, start, tokens, was, now, masked, at);
    SameFence(bare, masked);
  }

  lemma FenceStands(line: string)
    requires OpensFence(line).Some?
    ensures ThreeAt(line, MarkAt(line))
  {
    hide Marker, MarkAt;
    MarkerMeans(line);
  }

  lemma OpenIs(line: string, at: nat)
    requires StartsAt(line, at, OPEN)
    ensures at < |line| && line[at] == '<'
  {
    assert line[at..at + 4][0] == '<';
  }

  /** The last stretch is a comment that does not end. */
  ghost predicate LeftOpen(line: string, tokens: seq<Token>) {
    && tokens != []
    && var last := tokens[|tokens| - 1];
       last.kind.Comment? && !EndsComment(line, last.begin, last.end, true)
  }

  lemma LeftOpenMeans(text: string, line: string, start: nat, tokens: seq<Token>, was: Within, now: Within)
    requires Stands(text, line, start) && LineRead(text, line, start, tokens, was, now)
    ensures now.inComment <==> LeftOpen(line, tokens)
  {
    hide StretchOk, EndsComment, InlineAfter;
    if tokens != [] {
      var k := |tokens| - 1;
      assert StretchOk(text, line, start, tokens[k], was.inlineEnd, k == 0 && was.inComment, now.inComment && k == |tokens| - 1);
      if tokens[k].kind.Comment? {
        StretchComment(text, line, start, tokens[k], was.inlineEnd, k == 0 && was.inComment, now.inComment);
        if EndsComment(line, tokens[k].begin, tokens[k].end, true) {
          CommentUnique(line, tokens[k].begin, tokens[k].end, true, tokens[k].end, !now.inComment);
        }
      }
    }
  }

  /**
   The line that defeats the rule: read inside a comment it begins by ending, with a fence run next, nothing
   inline, and another comment left open at its end.
   */
  ghost predicate Defeats(line: string, was: Carry, reading: Reading) {
    && was.inComment && reading.Read?
    && StartsAt(line, 0, CLOSE) && |line| >= 3 && OpensFence(Uncovered(line)).Some?
    && NoInline(reading.tokens) && LeftOpen(line, reading.tokens)
  }

  /** Outside fences, a line leaves both a fence and a comment open exactly when it is of that kind. */
  lemma BothExactly(text: string, line: string, start: nat, out: string, was: Carry, now: Carry, reading: Reading)
    requires LineStep(text, line, start, out, was, now, reading) && was.fence.None? && (was.inComment ==> was.inlineEnd <= start)
    ensures HoldsBoth(now) <==> Defeats(line, was, reading)
  {
    hide LineRead, Stands, HidesIn, StartsAt, OpensFence, LeftOpen, NoInline;
    if reading.Read? {
      var masked, tokens := reading.masked, reading.tokens;
      var before, after := Within(was.inComment, was.inlineEnd), Within(now.inComment, now.inlineEnd);
      LeftOpenMeans(text, line, start, tokens, before, after);
      InlineEnds(text, line, start, tokens, before, after);
      if HoldsBoth(now) {
        FenceShows(text, line, start, tokens, before, after, masked);
        if was.inComment {
          CloseIs(line);
        }
      }
      if Defeats(line, was, reading) {
        FenceUncovered(text, line, start, tokens, before, after, masked);
      }
    }
  }

  // ---- Whole texts ----

  lemma {:induction false} CommentReach(text: string, outs: seq<string>, carries: seq<Carry>, readings: seq<Reading>, i: nat)
    requires BlocksRead(text, outs, carries, readings) && i <= |outs|
    ensures carries[i].inComment ==> carries[i].inlineEnd <= |Join(SplitLines(text)[..i])|
  {
    hide LineRead, Stands, HidesIn, OpensFence, ClosesFence, Join, SplitLines;
    if i > 0 {
      CommentReach(text, outs, carries, readings, i - 1);
      var lines := SplitLines(text);
      JoinNext(lines, i - 1);
      assert LineStep(text, lines[i - 1], |Join(lines[..i - 1])|, outs[i - 1], carries[i - 1], carries[i], readings[i - 1]);
    }
  }

  /** When a fence and a comment are both open after a line: they were and the fence did not close, or the line was of that kind. */
  lemma BothOpen(text: string, outs: seq<string>, carries: seq<Carry>, readings: seq<Reading>, i: nat)
    requires BlocksRead(text, outs, carries, readings) && i < |outs|
    ensures HoldsBoth(carries[i + 1]) <==>
              || (HoldsBoth(carries[i]) && !ClosesFence(SplitLines(text)[i], carries[i].fence.value))
              || (carries[i].fence.None? && Defeats(SplitLines(text)[i], carries[i], readings[i]))
  {
    hide LineRead, Stands, HidesIn, OpensFence, ClosesFence, Join, SplitLines, Defeats;
    var line, start := SplitLines(text)[i], |Join(SplitLines(text)[..i])|;
    assert LineStep(text, line, start, outs[i], carries[i], carries[i + 1], readings[i]);
    if carries[i].fence.None? {
      CommentReach(text, outs, carries, readings, i);
      BothExactly(text, line, start, outs[i], carries[i], carries[i + 1], readings[i]);
    }
  }

  /** A text without such lines never has a fence and a comment open together. */
  lemma {:induction false} NeverBoth(text: string, outs: seq<string>, carries: seq<Carry>, readings: seq<Reading>, i: nat)
    requires BlocksRead(text, outs, carries, readings) && i <= |outs|
    requires forall j :: 0 <= j < i ==> !Defeats(SplitLines(text)[j], carries[j], readings[j])
    ensures !HoldsBoth(carries[i])
  {
    hide LineStep, ClosesFence, Join, SplitLines, Defeats;
    if i > 0 {
      NeverBoth(text, outs, carries, readings, i - 1);
      BothOpen(text, outs, carries, readings, i - 1);
    }
  }

  /** A line inside a comment that never closes on it is blanked whole, whatever links it holds. */
  lemma CommentSwallows(text: string, line: string, start: nat, out: string, was: Carry, now: Carry, reading: Reading)
    requires LineStep(text, line, start, out, was, now, reading) && was.fence.None? && was.inComment && line != ""
    requires forall k :: 0 <= k < |line| ==> !StartsAt(line, k, CLOSE)
    ensures out == Blank(line) && now.inComment && (now.fence.Some? ==> OpensFence(Blank(line)).Some?)
  {
    hide OpensFence, ClosesFence, LiteralStop, InlineAfter, StartsAt;
    var tokens := reading.tokens;
    var first := tokens[0];
    assert StretchOk(text, line, start, first, was.inlineEnd, true, now.inComment && 0 == |tokens| - 1);
    assert first.end == |line| && first.begin == 0 && |tokens| == 1;
    forall i | 0 <= i < |line|
      ensures Hidden(tokens, i)
    {
      assert tokens[0].begin <= i < tokens[0].end;
    }
    assert reading.masked == Blank(line);
  }

  lemma BlankOpens(line: string)
    ensures OpensFence(Blank(line)).None?
  {
    hide Marker;
    MarkerMeans(Blank(line));
  }

  /** Once the fence closes the comment goes on: every line up to the next closing mark is lost. */
  lemma {:induction false} Lost(text: string, outs: seq<string>, carries: seq<Carry>, readings: seq<Reading>, from: nat, i: nat)
    requires BlocksRead(text, outs, carries, readings) && from <= i < |outs| && carries[from].fence.None? && carries[from].inComment
    requires forall j, k :: from <= j <= i && 0 <= k < |SplitLines(text)[j]| ==> !StartsAt(SplitLines(text)[j], k, CLOSE)
    ensures outs[i] == Blank(SplitLines(text)[i]) && carries[i + 1].fence.None? && carries[i + 1].inComment
  {
    hide LineStep, Join, SplitLines, StartsAt;
    if from < i {
      Lost(text, outs, carries, readings, from, i - 1);
    }
    var line, start := SplitLines(text)[i], |Join(SplitLines(text)[..i])|;
    CommentSwallows(text, line, start, outs[i], carries[i], carries[i + 1], readings[i]);
    BlankOpens(line);
  }

  /** The fence that came with the comment closes, and leaves the comment open. */
  lemma FenceCloses(text: string, outs: seq<string>, carries: seq<Carry>, readings: seq<Reading>, i: nat)
    requires BlocksRead(text, outs, carries, readings) && i < |outs| && HoldsBoth(carries[i])
    requires ClosesFence(SplitLines(text)[i], carries[i].fence.value)
    ensures outs[i] == Blank(SplitLines(text)[i]) && carries[i + 1] == carries[i].(fence := None)
  {
    hide Join, SplitLines, ClosesFence, OpensFence;
    var line, start := SplitLines(text)[i], |Join(SplitLines(text)[..i])|;
    assert LineStep(text, line, start, outs[i], carries[i], carries[i + 1], readings[i]);
  }

  // ---- One such text ----

  const FIRST := "<!--\n"
  const SECOND := "-->~~~ <!--\n"
  const THIRD := "~~~\n"
  const FOURTH := "[x](y)\n"
  const SAMPLE := FIRST + SECOND + THIRD + FOURTH

  lemma {:induction false} LineIs(line: string, rest: string, from: nat)
    requires from < |line| && line[|line| - 1] == '\n' && forall i :: 0 <= i < |line| - 1 ==> !IsBreak(line[i])
    ensures LineLength(line[from..] + rest) == |line| - from
    decreases |line| - from
  {
    if from + 1 < |line| {
      LineIs(line, rest, from + 1);
      assert (line[from..] + rest)[1..] == line[from + 1..] + rest;
    }
  }

  lemma SplitOne(line: string, rest: string)
    requires line != "" && line[|line| - 1] == '\n' && forall i :: 0 <= i < |line| - 1 ==> !IsBreak(line[i])
    ensures SplitLines(line + rest) == [line] + SplitLines(rest)
  {
    hide LineLength;
    LineIs(line, rest, 0);
    assert line[0..] == line;
  }

  lemma SampleLines()
    ensures SplitLines(SAMPLE) == [FIRST, SECOND, THIRD, FOURTH]
  {
    hide SplitLines, IsBreak;
    Unbroken();
    SplitOne(FIRST, SECOND + THIRD + FOURTH);
    SplitOne(SECOND, THIRD + FOURTH);
    SplitOne(THIRD, FOURTH);
    SplitOne(FOURTH, "");
    assert SAMPLE == FIRST + (SECOND + THIRD + FOURTH) && SECOND + THIRD + FOURTH == SECOND + (THIRD + FOURTH);
    assert FOURTH + "" == FOURTH && SplitLines("") == [];
  }

  lemma Unbroken()
    ensures forall line, i :: line in [FIRST, SECOND, THIRD, FOURTH] && 0 <= i < |line| - 1 ==> !IsBreak(line[i])
  {
  }

  lemma NoMark(line: string)
    requires forall i :: 0 <= i < |line| ==> line[i] !in "`~"
    ensures OpensFence(line).None?
  {
    hide Marker, QuoteEnd, Indent;
    MarkerMeans(line);
  }

  /** A line that opens a comment at once, never closes it and holds no fence mark leaves just the comment open. */
  lemma OpeningStep(text: string, line: string, start: nat, out: string, was: Carry, now: Carry, reading: Reading)
    requires LineStep(text, line, start, out, was, now, reading) && was.fence.None? && !was.inComment && was.inlineEnd <= start
    requires StartsAt(line, 0, OPEN) && forall i :: 0 <= i < |line| ==> line[i] !in "`~" && !StartsAt(line, i, CLOSE)
    ensures out == Blank(line) && now.inComment && now.fence.None?
  {
    hide OpensFence, ClosesFence, LiteralStop, InlineAfter, StartsAt, Hidden, StretchOk;
    NoMark(line);
    OpenIs(line, 0);
    var tokens, before, after := reading.tokens, Within(false, was.inlineEnd), Within(now.inComment, now.inlineEnd);
    WholeComment(text, line, start, tokens, before, after);
    forall i | 0 <= i < |line|
      ensures Hidden(tokens, i)
    {
      HiddenIn(tokens, |line|, 0, i);
    }
    assert reading.masked == Blank(line);
    BlankOpens(line);
  }

  lemma WholeComment(text: string, line: string, start: nat, tokens: seq<Token>, was: Within, now: Within)
    requires Stands(text, line, start) && LineRead(text, line, start, tokens, was, now) && line != ""
    requires was.inlineEnd <= start && !was.inComment && StartsAt(line, 0, OPEN)
    requires forall i :: 0 <= i < |line| ==> !StartsAt(line, i, CLOSE)
    ensures |tokens| == 1 && tokens[0] == Token(Comment, 0, |line|) && now.inComment
  {
    hide LiteralStop, InlineAfter, InlineStop, StartsAt;
    OpenIs(line, 0);
    var open := now.inComment && 0 == |tokens| - 1;
    assert StretchOk(text, line, start, tokens[0], was.inlineEnd, false, open);
    assert tokens[0].kind.Comment? && EndsComment(line, 0, tokens[0].end, !open);
  }

  lemma FirstUnclosed()
    ensures StartsAt(FIRST, 0, OPEN) && forall k :: 0 <= k < |FIRST| ==> !StartsAt(FIRST, k, CLOSE)
  {
    forall k | 0 <= k < |FIRST|
      ensures !StartsAt(FIRST, k, CLOSE)
    {
      if StartsAt(FIRST, k, CLOSE) {
        CloseAt(FIRST, k);
      }
    }
  }

  lemma CloseAt(line: string, at: nat)
    requires StartsAt(line, at, CLOSE)
    ensures at + 3 <= |line| && line[at] == '-' && line[at + 2] == '>'
  {
    assert line[at..at + 3][0] == '-' && line[at..at + 3][2] == '>';
  }

  ghost function SecondTokens(): seq<Token> {
    [Token(Comment, 0, 3), Token(Plain, 3, 4), Token(Plain, 4, 5), Token(Plain, 5, 6), Token(Plain, 6, 7), Token(Comment, 7, 12)]
  }

  lemma SecondComments()
    ensures StartsAt(SECOND, 0, CLOSE) && StartsAt(SECOND, 7, OPEN)
    ensures EndsComment(SECOND, 0, 3, true) && EndsComment(SECOND, 7, 12, false)
  {
    var line := SECOND;
    assert line[7..11] == OPEN && line[0..3] == CLOSE;
    forall k | 7 <= k < 12
      ensures !StartsAt(line, k, CLOSE)
    {
      if StartsAt(line, k, CLOSE) {
        CloseAt(line, k);
      }
    }
  }

  lemma SecondRead(text: string, start: nat, was: nat)
    requires Stands(text, SECOND, start) && was <= start
    ensures LineRead(text, SECOND, start, SecondTokens(), Within(true, was), Within(true, was))
  {
    hide StartsAt, EndsComment, InlineStop;
    SecondComments();
    var line, tokens := SECOND, SecondTokens();
    forall k | 3 <= k < 7
      ensures !StartsAt(line, k, OPEN) && LiteralStop(text, start + k).None?
    {
      assert text[start + k] == text[start..start + |line|][k] == line[k];
      if StartsAt(line, k, OPEN) {
        OpenIs(line, k);
      }
    }
    InlineReach(text, start, tokens, was);
  }

  /** The second line ends the comment, opens a fence and opens another comment. */
  lemma SecondStep(text: string, start: nat, out: string, was: Carry, now: Carry, reading: Reading)
    requires LineStep(text, SECOND, start, out, was, now, reading) && was.fence.None? && was.inComment && was.inlineEnd <= start
    ensures out == Blank(SECOND) && HoldsBoth(now) && now.fence == Some(Fence('~', 3))
  {
    hide OpensFence, ClosesFence, LineRead, Marker;
    var line, tokens := SECOND, SecondTokens();
    SecondRead(text, start, was.inlineEnd);
    LineUnique(text, line, start, reading.tokens, tokens, Within(true, was.inlineEnd), Within(now.inComment, now.inlineEnd),
               Within(true, was.inlineEnd));
    SecondMasked(reading.masked);
    TildesOpen(reading.masked, 3);
  }

  lemma SecondMasked(masked: string)
    requires HidesIn(SECOND, masked, SecondTokens())
    ensures masked == "   ~~~      \n"[..11] + "\n"
  {
    var tokens := SecondTokens();
    forall i | 0 <= i < 12
      ensures Hidden(tokens, i) <==> i < 3 || i >= 7
    {
      if i < 3 {
        assert tokens[0].begin <= i < tokens[0].end;
      } else if i >= 7 {
        assert tokens[5].begin <= i < tokens[5].end;
      }
    }
  }

  /** Three tildes after at most three spaces open a fence of three. */
  lemma TildesOpen(line: string, at: nat)
    requires at <= 3 && at + 3 < |line| && (forall i :: 0 <= i < at ==> line[i] == ' ')
    requires line[at..at + 3] == "~~~" && line[at + 3] != '~'
    ensures Marker(line).Some? && Marker(line).value.0 == Fence('~', 3) && Marker(line).value.1 == RStrip(line[at + 3..])
    ensures OpensFence(line) == Some(Fence('~', 3))
  {
    hide Marker, Indent;
    assert line[at] == line[at..at + 3][0] && line[at + 1] == line[at..at + 3][1] && line[at + 2] == line[at..at + 3][2];
    var from := 0;
    IndentIs(line, from, at);
    assert QuoteEnd(line, from) == 0;
    MarkerMeans(line);
    var n := Marker(line).value.0.length;
    assert n == 3;
  }

  /** The third line closes the fence. */
  lemma ThirdCloses()
    ensures ClosesFence(THIRD, Fence('~', 3))
  {
    hide Marker;
    var line := THIRD;
    TildesOpen(line, 0);
    assert line[3..] == "\n";
  }

  lemma FourthUnclosed()
    ensures forall k :: 0 <= k < |FOURTH| ==> !StartsAt(FOURTH, k, CLOSE)
  {
    forall k | 0 <= k < |FOURTH|
      ensures !StartsAt(FOURTH, k, CLOSE)
    {
      if StartsAt(FOURTH, k, CLOSE) {
        CloseAt(FOURTH, k);
      }
    }
  }

  /** The link after the closed fence is blanked with the rest, in the only reading the text has. */
  lemma SampleSwallowed(text: string, outs: seq<string>, carries: seq<Carry>, readings: seq<Reading>)
    requires text == SAMPLE && BlocksRead(text, outs, carries, readings) && |outs| == |SplitLines(text)|
    ensures |outs| == 4 && outs[3] == Blank(FOURTH) && carries[3].fence.None? && carries[3].inComment
    ensures Join(outs) == Blank(text)
  {
    hide LineStep, Join, SplitLines, ClosesFence, Marker;
    SampleLines();
    var lines := SplitLines(text);
    CommentReach(text, outs, carries, readings, 1);
    assert LineStep(text, lines[0], |Join(lines[..0])|, outs[0], carries[0], carries[1], readings[0]);
    JoinNone();
    assert lines[..0] == [];
    FirstUnclosed();
    OpeningStep(text, lines[0], 0, outs[0], carries[0], carries[1], readings[0]);
    SecondStep(text, |Join(lines[..1])|, outs[1], carries[1], carries[2], readings[1]);
    ThirdCloses();
    FenceCloses(text, outs, carries, readings, 2);
    FourthUnclosed();
    Lost(text, outs, carries, readings, 3, 3);
    BlankJoined(outs, lines);
    SplitJoins(text);
  }

  lemma {:induction false} BlankJoined(outs: seq<string>, lines: seq<string>)
    requires |outs| == |lines| && forall i :: 0 <= i < |lines| ==> outs[i] == Blank(lines[i])
    ensures Join(outs) == Blank(Join(lines))
  {
    if lines != [] {
      BlankJoined(outs[1..], lines[1..]);
      assert Blank(lines[0] + Join(lines[1..])) == Blank(lines[0]) + Blank(Join(lines[1..]));
    }
  }

  /** What the scanner makes of the text: nothing but blanks. */
  method ReadSample() returns (result: string)
    ensures result == Blank(SAMPLE)
  {
    hide BlocksRead, SplitLines, Join;
    ghost var outs, carries, readings;
    result, outs, carries, readings := WithoutBlocks(SAMPLE);
    SampleSwallowed(SAMPLE, outs, carries, readings);
  }
}

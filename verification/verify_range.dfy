/**
 The simulator's read check: a drawn window of the reader's counted prefix is asked for by timestamp and
 compared point by point. The check passes on a faithful reader and fails on any difference.
 */
module VerifyRange {
  import opened Objects
  import opened Encodings
  import opened Engine
  import opened Oracle
  import opened Generations
  import opened Simulation
  import opened Agreement
  import opened Checkpoints
  import opened Ranges

  /** What a reader returns for a range: how many points match, and the buffers it filled. */
  datatype Answer = Answer(found: nat, timestamps: seq<int>, values: seq<Bits>)

  datatype Verdict = Passed | RangeCountMismatch | RangeValueMismatch | TimestampInvariant

  /** Both buffers have the asked capacity, as the caller's arrays do. */
  predicate Fills(answer: Answer, capacity: nat) {
    |answer.timestamps| == capacity && |answer.values| == capacity
  }

  const MAX_WINDOW: nat := 128

  function Below(draw: nat, limit: nat): nat { if limit == 0 then 0 else draw % limit }

  /** The drawn window: at least one point, at most `maxWidth`, inside the counted prefix. */
  function Width(available: nat, maxWidth: nat, draw: nat): (width: nat)
    requires available > 0 && maxWidth > 0
    ensures 1 <= width <= available && width <= maxWidth
  {
    Min(available, 1 + Below(draw, Min(available, maxWidth)))
  }

  function Begin(available: nat, width: nat, draw: nat): (begin: nat)
    requires width <= available
    ensures begin + width <= available
  {
    Below(draw, available - width + 1)
  }

  /** The answer gives exactly the expected points. */
  ghost predicate Exact(answer: Answer, expected: seq<Point>) {
    && answer.found == |expected|
    && Fills(answer, |expected|)
    && forall i :: 0 <= i < |expected| ==> answer.timestamps[i] == expected[i].timestamp && answer.values[i] == expected[i].bits
  }

  method Compare(answer: Answer, expected: seq<Point>) returns (verdict: Verdict)
    requires Fills(answer, |expected|) && StrictlyIncreasing(expected)
    ensures verdict.Passed? <==> Exact(answer, expected)
    ensures verdict.RangeCountMismatch? <==> answer.found != |expected|
    ensures !verdict.TimestampInvariant?
  {
    if answer.found != |expected| {
      return RangeCountMismatch;
    }
    for i := 0 to |expected|
      invariant forall k :: 0 <= k < i ==>
        answer.timestamps[k] == expected[k].timestamp && answer.values[k] == expected[k].bits
    {
      if answer.timestamps[i] != expected[i].timestamp || answer.values[i] != expected[i].bits {
        return RangeValueMismatch;
      }
      if i > 0 && answer.timestamps[i] <= answer.timestamps[i - 1] {
        return TimestampInvariant;
      }
    }
    verdict := Passed;
  }

  /** The reader's answer for the window of `width` points from `begin`, asked for by its ends, is exact. */
  ghost predicate WindowExact(points: seq<Point>, begin: nat, width: nat, rangeInto: (int, int, nat) -> Answer)
    requires width > 0 && begin + width <= |points|
  {
    Exact(rangeInto(points[begin].timestamp, points[begin + width - 1].timestamp, width), points[begin..begin + width])
  }

  /** The check passes under these draws. */
  ghost predicate Passes(points: seq<Point>, available: nat, maxWidth: nat, widthDraw: nat, beginDraw: nat,
                         rangeInto: (int, int, nat) -> Answer)
    requires available <= |points| && maxWidth > 0
  {
    available > 0 ==>
      var width := Width(available, maxWidth, widthDraw);
      WindowExact(points, Begin(available, width, beginDraw), width, rangeInto)
  }

  /** Ask the reader for the drawn window by its first and last timestamps, and compare. */
  method Check(points: seq<Point>, available: nat, maxWidth: nat, widthDraw: nat, beginDraw: nat,
               rangeInto: (int, int, nat) -> Answer)
    returns (verdict: Verdict)
    requires available <= |points| && StrictlyIncreasing(points) && 0 < maxWidth <= MAX_WINDOW
    requires forall start, end, capacity :: Fills(rangeInto(start, end, capacity), capacity)
    ensures available == 0 ==> verdict.Passed?
    ensures verdict.Passed? <==> Passes(points, available, maxWidth, widthDraw, beginDraw, rangeInto)
    ensures widthDraw < maxWidth && beginDraw + widthDraw < available ==>
              (verdict.Passed? <==> WindowExact(points, beginDraw, widthDraw + 1, rangeInto))
    ensures !verdict.TimestampInvariant?
  {
    if available == 0 {
      return Passed;
    }
    SmallDraws(available, maxWidth, widthDraw, beginDraw);
    var width := Width(available, maxWidth, widthDraw);
    var begin := Begin(available, width, beginDraw);
    var expected := points[begin..begin + width];
    var answer := rangeInto(expected[0].timestamp, expected[width - 1].timestamp, width);
    verdict := Compare(answer, expected);
  }

  /** Draws below their limits are taken as they are. */
  lemma SmallDraws(available: nat, maxWidth: nat, widthDraw: nat, beginDraw: nat)
    requires available > 0 && maxWidth > 0
    ensures widthDraw < maxWidth && beginDraw + widthDraw < available ==>
              Width(available, maxWidth, widthDraw) == widthDraw + 1 && Begin(available, widthDraw + 1, beginDraw) == beginDraw
  {
    if widthDraw < maxWidth && beginDraw + widthDraw < available {
      Unchanged(widthDraw, Min(available, maxWidth));
      Unchanged(beginDraw, available - widthDraw);
    }
  }

  lemma Unchanged(draw: nat, limit: nat)
    requires draw < limit
    ensures Below(draw, limit) == draw
  {
  }

  /** Every window within `maxWidth` can be drawn. */
  lemma EveryWindow(points: seq<Point>, available: nat, maxWidth: nat, begin: nat, width: nat, rangeInto: (int, int, nat) -> Answer)
    returns (widthDraw: nat, beginDraw: nat)
    requires available <= |points| && 1 <= width <= maxWidth && begin + width <= available
    ensures Passes(points, available, maxWidth, widthDraw, beginDraw, rangeInto) <==> WindowExact(points, begin, width, rangeInto)
  {
    widthDraw, beginDraw := width - 1, begin;
    SmallDraws(available, maxWidth, widthDraw, beginDraw);
  }

  /**
   A reader passes under every draw exactly when it is right on every window within `maxWidth`: one that is wrong
   somewhere is caught by some draw.
   */
  lemma NoneEscapes(points: seq<Point>, available: nat, maxWidth: nat, rangeInto: (int, int, nat) -> Answer)
    requires available <= |points| && maxWidth > 0
    ensures (forall widthDraw: nat, beginDraw: nat :: Passes(points, available, maxWidth, widthDraw, beginDraw, rangeInto)) <==>
            forall begin: nat, width: nat :: 1 <= width <= maxWidth && begin + width <= available ==>
              WindowExact(points, begin, width, rangeInto)
  {
    hide WindowExact, Below;
    if forall widthDraw: nat, beginDraw: nat :: Passes(points, available, maxWidth, widthDraw, beginDraw, rangeInto) {
      forall begin: nat, width: nat | 1 <= width <= maxWidth && begin + width <= available
        ensures WindowExact(points, begin, width, rangeInto)
      {
        var widthDraw, beginDraw := EveryWindow(points, available, maxWidth, begin, width, rangeInto);
        assert Passes(points, available, maxWidth, widthDraw, beginDraw, rangeInto);
      }
    }
  }

  // ---- A faithful reader ----

  /** Reports how many points match and fills the buffers with the first of them. */
  ghost predicate AnswersFrom(answer: Answer, snapshot: seq<Point>, start: int, end: int, capacity: nat) {
    var found := InRange(snapshot, start, end);
    && answer.found == |found|
    && Fills(answer, capacity)
    && forall i :: 0 <= i < capacity && i < |found| ==>
        answer.timestamps[i] == found[i].timestamp && answer.values[i] == found[i].bits
  }

  lemma {:induction false} NoneInRange(points: seq<Point>, start: int, end: int)
    requires forall i :: 0 <= i < |points| ==> points[i].timestamp < start || points[i].timestamp > end
    ensures InRange(points, start, end) == []
  {
    if points != [] {
      NoneInRange(points[1..], start, end);
    }
  }

  /** The window's ends bound its points, and no other point lies between them. */
  lemma Window(points: seq<Point>, begin: nat, end: nat)
    requires begin < end <= |points| && StrictlyIncreasing(points)
    ensures points[0].timestamp <= points[end - 1].timestamp
    ensures begin > 0 ==> points[0].timestamp < points[begin].timestamp
    ensures forall i :: end <= i < |points| ==> points[end - 1].timestamp < points[i].timestamp
    ensures forall i :: 1 <= i < |points| ==> points[1].timestamp <= points[i].timestamp
  {
  }

  /** In increasing points, the window by index is the window by timestamp. */
  lemma {:induction false} WindowByTimestamp(points: seq<Point>, begin: nat, end: nat)
    requires begin < end <= |points| && StrictlyIncreasing(points)
    ensures InRange(points, points[begin].timestamp, points[end - 1].timestamp) == points[begin..end]
  {
    hide InRange, StrictlyIncreasing;
    var rest, stop := points[1..], points[end - 1].timestamp;
    TailIncreasing(points);
    Window(points, begin, end);
    RangeStep(points, points[begin].timestamp, stop);
    if begin > 0 {
      WindowByTimestamp(rest, begin - 1, end - 1);
      assert rest[begin - 1..end - 1] == points[begin..end];
    } else if end == 1 {
      NoneInRange(rest, points[0].timestamp, stop);
      assert [points[0]] + [] == points[begin..end];
    } else {
      WindowByTimestamp(rest, 0, end - 1);
      RangeFrom(rest, points[0].timestamp, rest[0].timestamp, stop);
      assert [points[0]] + rest[0..end - 1] == points[begin..end];
    }
  }

  /** The reader's snapshot of a series is its counted prefix, in order. */
  lemma ReaderSees(c: Codec, s: Sim, series: nat)
    requires Inv(c, s) && series < |s.model.points|
    ensures |s.model.readerCounts| == |s.model.points|
    ensures s.model.readerCounts[series] <= |s.model.points[series]| && StrictlyIncreasing(s.model.points[series])
    ensures HasPages(s.reader.root)
    ensures Content(s.reader.root.manifest.pages, series) == s.model.points[series][..s.model.readerCounts[series]]
  {
    hide Carries, DurableOk, WriterAgrees, WriterOk, Settled, FewerRoots, Recorded;
  }

  /**
   In every reachable state, for every series and every window of the counted prefix, a reader that
   returns its own snapshot gives exactly the oracle's points: the check never fails falsely.
   */
  lemma FaithfulReaderPasses(c: Codec, s: Sim, series: nat, begin: nat, width: nat, answer: Answer)
    requires Inv(c, s) && series < |s.model.points| && HasPages(s.reader.root)
    requires 1 <= width && begin + width <= s.model.readerCounts[series]
    requires var expected := s.model.points[series][begin..begin + width];
             AnswersFrom(answer, Content(s.reader.root.manifest.pages, series),
                         expected[0].timestamp, expected[width - 1].timestamp, width)
    ensures Exact(answer, s.model.points[series][begin..begin + width])
  {
    hide Inv;
    ReaderSees(c, s, series);
    var prefix := s.model.points[series][..s.model.readerCounts[series]];
    WindowByTimestamp(prefix, begin, begin + width);
    assert prefix[begin..begin + width] == s.model.points[series][begin..begin + width];
  }
}

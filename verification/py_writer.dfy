/**
 The Python client's batching writer. Points arrive one at a time, as iterables or as writable buffers,
 wait in per-series lists, and reach the native library in batches of at most `batchSize`.
 */
module PythonWriter {
  import opened Objects
  import opened Batches

  /** What the native library has accepted from the writer, in order. */
  datatype Event = Appended(series: string, points: seq<Point>) | Checkpointed(fsync: bool) | Closed

  function Zip(timestamps: seq<int>, values: seq<Bits>): (points: seq<Point>)
    requires |timestamps| == |values|
    ensures |points| == |timestamps|
    ensures forall i :: 0 <= i < |points| ==> points[i] == Point(timestamps[i], values[i])
  {
    seq(|timestamps|, i requires 0 <= i < |timestamps| => Point(timestamps[i], values[i]))
  }

  lemma ZipAppend(a: seq<int>, b: seq<Bits>, timestamps: seq<int>, values: seq<Bits>, offset: nat)
    requires |a| == |b| && |timestamps| == |values| && offset <= |timestamps|
    ensures Zip(a + timestamps[offset..], b + values[offset..]) == Zip(a, b) + Zip(timestamps, values)[offset..]
  {
  }

  lemma ZipSlice(timestamps: seq<int>, values: seq<Bits>, offset: nat, end: nat)
    requires |timestamps| == |values| && offset <= end <= |timestamps|
    ensures Zip(timestamps[offset..end], values[offset..end]) == Zip(timestamps, values)[offset..end]
    ensures Zip(timestamps, values)[offset..] ==
            Zip(timestamps[offset..end], values[offset..end]) + Zip(timestamps, values)[end..]
  {
    var points, slice := Zip(timestamps, values), Zip(timestamps[offset..end], values[offset..end]);
    assert |slice| == end - offset && |points[offset..end]| == end - offset;
    assert forall i :: 0 <= i < end - offset ==> slice[i] == points[offset..end][i];
    assert slice == points[offset..end];
    assert points[offset..end] + points[end..] == points[offset..];
  }

  /** The points delivered for one series, in order. */
  function Delivered(log: seq<Event>, series: string): seq<Point> {
    if log == [] then []
    else
      var last := log[|log| - 1];
      Delivered(log[..|log| - 1], series) + if last.Appended? && last.series == series then last.points else []
  }

  function Appends(series: string, batches: seq<seq<Point>>): (events: seq<Event>)
    ensures |events| == |batches|
    ensures forall i :: 0 <= i < |events| ==> events[i] == Appended(series, batches[i])
  {
    seq(|batches|, i requires 0 <= i < |batches| => Appended(series, batches[i]))
  }

  lemma DeliveredLast(log: seq<Event>, event: Event, series: string)
    ensures Delivered(log + [event], series) ==
            Delivered(log, series) + if event.Appended? && event.series == series then event.points else []
  {
    assert (log + [event])[..|log|] == log;
  }

  lemma ConcatLast(batches: seq<seq<Point>>, last: seq<Point>)
    ensures Concat(batches + [last]) == Concat(batches) + last
  {
    ConcatAppend(batches, [last]);
    assert [last][1..] == [] && last + [] == last;
  }

  /** Delivering batches adds exactly their points to that series, and nothing to the others. */
  lemma {:induction false} DeliveredAppends(log: seq<Event>, series: string, batches: seq<seq<Point>>, other: string)
    ensures Delivered(log + Appends(series, batches), other) ==
            Delivered(log, other) + if other == series then Concat(batches) else []
  {
    hide Delivered, Concat;
    if batches == [] {
      assert log + Appends(series, batches) == log;
      assert Concat<Point>([]) == [] by { ConcatNone(); }
      assert Delivered(log, other) + [] == Delivered(log, other);
    } else {
      var n := |batches| - 1;
      DeliveredAppends(log, series, batches[..n], other);
      DeliveredLast(log + Appends(series, batches[..n]), Appended(series, batches[n]), other);
      ConcatLast(batches[..n], batches[n]);
      assert batches[..n] + [batches[n]] == batches;
      assert log + Appends(series, batches[..n]) + [Appended(series, batches[n])] == log + Appends(series, batches);
    }
  }

  lemma ConcatNone()
    ensures Concat<Point>([]) == []
  {
  }

  /** Every batch the library got holds between one and `size` points. */
  ghost predicate BatchesFit(log: seq<Event>, size: nat) {
    forall i :: 0 <= i < |log| && log[i].Appended? ==> 1 <= |log[i].points| <= size
  }

  /** The first `k` of the batches were sent for one series, and nothing else. */
  ghost predicate Sent(before: seq<Event>, after: seq<Event>, series: string, batches: seq<seq<Point>>, k: nat) {
    k <= |batches| && after == before + Appends(series, batches[..k])
  }

  lemma SentNone(log: seq<Event>, series: string, batches: seq<seq<Point>>)
    ensures Sent(log, log, series, batches, 0)
  {
  }

  lemma SentNext(before: seq<Event>, after: seq<Event>, series: string, batches: seq<seq<Point>>, k: nat)
    requires Sent(before, after, series, batches, k) && k < |batches|
    ensures Sent(before, after + [Appended(series, batches[k])], series, batches, k + 1)
  {
    assert Appends(series, batches[..k + 1]) == Appends(series, batches[..k]) + [Appended(series, batches[k])];
  }

  lemma SentFit(before: seq<Event>, after: seq<Event>, series: string, batches: seq<seq<Point>>, k: nat, size: nat)
    requires Sent(before, after, series, batches, k) && BatchesFit(before, size)
    requires forall i :: 0 <= i < |batches| ==> 1 <= |batches[i]| <= size
    ensures BatchesFit(after, size)
  {
  }

  /** The answers left after so many calls. */
  ghost function Left(answers: seq<bool>, calls: int): seq<bool> {
    if 0 <= calls <= |answers| then answers[calls..] else []
  }

  /**
   So many calls were recorded, and unless `ok` one more failed. Each took its answer off the front: a success if it
   was recorded, a failure if not. A library with no answers left always succeeds.
   */
  ghost predicate Answered(before: seq<bool>, after: seq<bool>, made: int, ok: bool) {
    && made >= 0 && after == Left(before, made + if ok then 0 else 1)
    && (forall i :: 0 <= i < made && i < |before| ==> before[i])
    && (!ok ==> made < |before| && !before[made])
  }

  lemma AnsweredLeft(before: seq<bool>, after: seq<bool>, made: int, ok: bool)
    requires Answered(before, after, made, ok)
    ensures after == Left(before, made + if ok then 0 else 1)
  {
  }

  lemma AnsweredNone(answers: seq<bool>)
    ensures Answered(answers, answers, 0, true)
  {
  }

  lemma AnsweredBoth(before: seq<bool>, middle: seq<bool>, after: seq<bool>, first: int, second: int, ok: bool)
    requires Answered(before, middle, first, true) && Answered(middle, after, second, ok)
    ensures Answered(before, after, first + second, ok)
  {
    var calls := second + if ok then 0 else 1;
    if first <= |before| {
      assert forall i :: 0 <= i < |middle| ==> middle[i] == before[first + i];
      if calls <= |middle| {
        assert middle[calls..] == before[first + calls..];
      }
    }
  }

  /** A library that only succeeds never fails a call, and the call that failed was answered so. */
  lemma AnswersDecide(before: seq<bool>, after: seq<bool>, made: int, ok: bool)
    requires Answered(before, after, made, ok)
    ensures (forall i :: 0 <= i < |before| ==> before[i]) ==> ok
    ensures !ok ==> exists i :: 0 <= i < |before| - |after| && !before[i]
    ensures !ok ==> |before| - |after| == made + 1
    ensures ok && made <= |before| ==> |before| - |after| == made
  {
  }

  /** The native library: each append either is recorded or fails and leaves no trace. */
  class NativeWriter {
    var log: seq<Event>
    var answers: seq<bool>

    constructor (answers: seq<bool>)
      ensures log == [] && this.answers == answers
    {
      log := [];
      this.answers := answers;
    }

    /** Record the event unless the next answer is a failure. */
    method Call(event: Event) returns (ok: bool)
      modifies this
      ensures log == if ok then old(log) + [event] else old(log)
      ensures ok == (old(answers) == [] || old(answers)[0])
      ensures answers == if old(answers) == [] then [] else old(answers)[1..]
      ensures Answered(old(answers), answers, |log| - |old(log)|, ok)
    {
      ok := true;
      if answers != [] {
        ok, answers := answers[0], answers[1..];
      }
      if ok {
        log := log + [event];
      }
    }
  }

  /** The two pending lists of one series. */
  datatype Lists = Lists(timestamps: seq<int>, values: seq<Bits>) {
    predicate Paired() { |timestamps| == |values| }
    function Points(): (points: seq<Point>)
      requires Paired()
    {
      Zip(timestamps, values)
    }
  }

  const EMPTY := Lists([], [])

  /** Each known series once, with paired lists shorter than a batch. */
  ghost predicate BuffersOk(buffers: map<string, Lists>, order: seq<string>, size: nat) {
    && (forall s :: s in buffers <==> s in order)
    && (forall i, j :: 0 <= i < j < |order| ==> order[i] != order[j])
    && (forall s :: s in buffers ==> buffers[s].Paired() && |buffers[s].timestamps| < size)
  }

  function PendingOf(buffers: map<string, Lists>, series: string): seq<Point> {
    if series in buffers && buffers[series].Paired() then buffers[series].Points() else []
  }

  lemma BufferOk(buffers: map<string, Lists>, order: seq<string>, size: nat, series: string)
    requires BuffersOk(buffers, order, size) && series in buffers
    ensures buffers[series].Paired() && |buffers[series].timestamps| < size
  {
  }

  lemma KnownSeries(buffers: map<string, Lists>, order: seq<string>, size: nat)
    requires BuffersOk(buffers, order, size)
    ensures forall s :: s in buffers <==> s in order
  {
  }

  lemma UpdateOk(buffers: map<string, Lists>, order: seq<string>, size: nat, series: string, lists: Lists)
    requires BuffersOk(buffers, order, size) && series in buffers
    requires lists.Paired() && |lists.timestamps| < size
    ensures BuffersOk(buffers[series := lists], order, size)
  {
  }

  lemma InsertOk(buffers: map<string, Lists>, order: seq<string>, size: nat, series: string)
    requires BuffersOk(buffers, order, size) && series !in buffers && size > 0
    ensures BuffersOk(buffers[series := EMPTY], order + [series], size)
    ensures PendingOf(buffers[series := EMPTY], series) == []
  {
  }

  /** `buffers` is true when both arguments are writable contiguous one-dimensional 8-byte views. */
  datatype Input = Input(timestamps: seq<int>, values: seq<Bits>, buffers: bool)

  datatype Outcome = Returned | ValueError | NativeError

  class Writer {
    const native: NativeWriter
    const batchSize: nat
    var handle: bool
    var buffers: map<string, Lists>
    var order: seq<string>

    /** Every series waits with less than a batch, and every batch sent fits. */
    ghost predicate Valid()
      reads this, native
    {
      batchSize >= 1 && BuffersOk(buffers, order, batchSize) && BatchesFit(native.log, batchSize)
    }

    ghost function Pending(series: string): seq<Point>
      reads this
    {
      PendingOf(buffers, series)
    }

    /** Everything accepted for a series: delivered, then pending. */
    ghost function Stream(series: string): seq<Point>
      reads this, native
    {
      Delivered(native.log, series) + Pending(series)
    }

    constructor (native: NativeWriter, batchSize: nat)
      requires batchSize >= 1 && native.log == []
      ensures Valid() && this.native == native && this.batchSize == batchSize && buffers == map[]
    {
      this.native, this.batchSize := native, batchSize;
      handle, buffers, order := true, map[], [];
    }

    /** The pending lists of a series, created empty on first use. */
    method SetDefault(series: string)
      requires Valid()
      modifies this`buffers, this`order
      ensures Valid() && series in buffers
      ensures buffers == if series in old(buffers) then old(buffers) else old(buffers)[series := EMPTY]
      ensures order == if series in old(order) then old(order) else old(order) + [series]
      ensures forall s :: Pending(s) == old(Pending(s))
    {
      hide BuffersOk;
      KnownSeries(buffers, order, batchSize);
      if series !in buffers {
        InsertOk(buffers, order, batchSize, series);
        buffers := buffers[series := EMPTY];
        order := order + [series];
      }
    }

    /** Send one series' lists and clear them. */
    method FlushSeries(series: string) returns (ok: bool)
      requires series in buffers && buffers[series].Paired()
      modifies this`buffers, native
      ensures native.log == old(native.log) + if ok then [Appended(series, old(buffers[series].Points()))] else []
      ensures buffers == old(buffers)[series := if ok then EMPTY else old(buffers[series])]
      ensures Answered(old(native.answers), native.answers, |native.log| - |old(native.log)|, ok)
    {
      ok := native.Call(Appended(series, Zip(buffers[series].timestamps, buffers[series].values)));
      if ok {
        buffers := buffers[series := EMPTY];
      }
    }

    /** One point. It is sent as soon as it completes a batch. */
    method Append(series: string, timestamp: int, value: Bits) returns (outcome: Outcome, ghost sent: nat)
      requires Valid()
      modifies this`buffers, this`order, native
      ensures !outcome.ValueError?
      ensures var all := old(Pending(series)) + [Point(timestamp, value)];
              && Sent(old(native.log), native.log, series, Full(all, batchSize), sent)
              && (outcome.Returned? <==> sent == |Full(all, batchSize)|)
              && (outcome.Returned? ==> Valid() && Pending(series) == Rest(all, batchSize))
      ensures outcome.Returned? ==> forall s :: s != series ==> Pending(s) == old(Pending(s))
      ensures order == if series in old(order) then old(order) else old(order) + [series]
      ensures Answered(old(native.answers), native.answers, |native.log| - |old(native.log)|, outcome.Returned?)
    {
      hide Full, Rest, Sent, BatchesFit, BuffersOk, Answered;
      AnsweredNone(native.answers);
      SetDefault(series);
      BufferOk(buffers, order, batchSize, series);
      ghost var before := buffers;
      var lists := buffers[series];
      lists := Lists(lists.timestamps + [timestamp], lists.values + [value]);
      buffers := buffers[series := lists];
      ghost var all := old(Pending(series)) + [Point(timestamp, value)];
      assert lists.Points() == all;
      OneBatch(all, batchSize);
      SentNone(native.log, series, Full(all, batchSize));
      sent := 0;
      if |lists.timestamps| >= batchSize {
        var ok := FlushSeries(series);
        if !ok {
          return NativeError, 0;
        }
        SentNext(old(native.log), old(native.log), series, Full(all, batchSize), 0);
        sent := 1;
        SentFit(old(native.log), native.log, series, Full(all, batchSize), 1, batchSize);
      }
      assert buffers == before[series := buffers[series]];
      UpdateOk(before, order, batchSize, series, buffers[series]);
      outcome := Returned;
    }

    /** Slices of writable buffers, sent without copying; nothing stays pending. */
    method AppendBufferBatches(series: string, input: Input) returns (handled: bool, outcome: Outcome, ghost sent: nat)
      requires batchSize >= 1
      modifies native
      ensures handled <==> input.buffers && |input.timestamps| == |input.values|
      ensures !handled ==> native.log == old(native.log) && native.answers == old(native.answers) && outcome.Returned?
      ensures handled ==>
                var batches := All(Zip(input.timestamps, input.values), batchSize);
                && Sent(old(native.log), native.log, series, batches, sent)
                && (outcome.Returned? <==> sent == |batches|)
      ensures !outcome.ValueError?
      ensures Answered(old(native.answers), native.answers, |native.log| - |old(native.log)|, outcome.Returned?)
    {
      hide All, Sent, Answered;
      handled, outcome, sent := false, Returned, 0;
      AnsweredNone(native.answers);
      if !input.buffers || |input.timestamps| != |input.values| {
        return;
      }
      handled := true;
      ghost var points := Zip(input.timestamps, input.values);
      ghost var batches := All(points, batchSize);
      var offset := 0;
      var count := |input.timestamps|;
      assert points[0..] == points && batches[0..] == batches;
      SentNone(native.log, series, batches);
      while offset < count
        invariant 0 <= offset <= count
        invariant sent <= |batches| && batches[sent..] == All(points[offset..], batchSize)
        invariant Sent(old(native.log), native.log, series, batches, sent)
        invariant Answered(old(native.answers), native.answers, |native.log| - |old(native.log)|, true)
      {
        var batchCount := if batchSize < count - offset then batchSize else count - offset;
        ghost var log, answers := native.log, native.answers;
        var ok := SendSlice(series, input.timestamps, input.values, offset, batchCount);
        AnsweredBoth(old(native.answers), answers, native.answers, |log| - |old(native.log)|, |native.log| - |log|, ok);
        NextBatch(points, offset, batchCount, batchSize, sent);
        if !ok {
          return handled, NativeError, sent;
        }
        SentNext(old(native.log), log, series, batches, sent);
        sent := sent + 1;
        offset := offset + batchCount;
      }
      assert points[offset..] == [];
      AllNone(batchSize);
    }

    /** One slice of both sequences as one native append. */
    method SendSlice(series: string, timestamps: seq<int>, values: seq<Bits>, offset: nat, count: nat) returns (ok: bool)
      requires |timestamps| == |values| && offset + count <= |timestamps|
      modifies native
      ensures native.log == if ok then old(native.log) + [Appended(series, Zip(timestamps, values)[offset..offset + count])]
                            else old(native.log)
      ensures Answered(old(native.answers), native.answers, |native.log| - |old(native.log)|, ok)
    {
      hide Answered;
      ZipSlice(timestamps, values, offset, offset + count);
      ok := native.Call(Appended(series, Zip(timestamps[offset..offset + count], values[offset..offset + count])));
    }

    /** Send whole batches from `offset` on, straight from the lists. */
    method SendWhole(series: string, timestamps: seq<int>, values: seq<Bits>, start: nat)
      returns (ok: bool, offset: nat, ghost sent: nat)
      requires batchSize >= 1 && |timestamps| == |values| && start <= |timestamps|
      modifies native
      ensures offset <= |timestamps|
      ensures var tail := Zip(timestamps, values)[start..];
              && Sent(old(native.log), native.log, series, Full(tail, batchSize), sent)
              && (ok <==> sent == |Full(tail, batchSize)|)
              && (ok ==> Zip(timestamps, values)[offset..] == Rest(tail, batchSize))
      ensures Answered(old(native.answers), native.answers, |native.log| - |old(native.log)|, ok)
    {
      hide Full, Rest, Sent, Answered;
      ghost var points := Zip(timestamps, values);
      ghost var batches := Full(points[start..], batchSize);
      ok, offset, sent := true, start, 0;
      SentNone(native.log, series, batches);
      AnsweredNone(native.answers);
      assert batches[0..] == batches;
      while |timestamps| - offset >= batchSize
        invariant start <= offset <= |timestamps| && ok
        invariant sent <= |batches| && batches[sent..] == Full(points[offset..], batchSize)
        invariant Rest(points[start..], batchSize) == Rest(points[offset..], batchSize)
        invariant Sent(old(native.log), native.log, series, batches, sent)
        invariant Answered(old(native.answers), native.answers, |native.log| - |old(native.log)|, true)
      {
        ghost var slice := points[offset..offset + batchSize];
        assert points[offset..] == slice + points[offset + batchSize..];
        FullSplitFirst(slice, points[offset + batchSize..], batchSize);
        TailOf(batches, sent, slice, Full(points[offset + batchSize..], batchSize));
        ghost var before, answers := native.log, native.answers;
        ok := SendSlice(series, timestamps, values, offset, batchSize);
        AnsweredBoth(old(native.answers), answers, native.answers, |before| - |old(native.log)|, |native.log| - |before|, ok);
        if !ok {
          return;
        }
        SentNext(old(native.log), before, series, batches, sent);
        sent := sent + 1;
        offset := offset + batchSize;
      }
      FullShort(points[offset..], batchSize);
    }

    /** Fill the pending lists up to one batch and send it when complete. */
    method TopUp(series: string, timestamps: seq<int>, values: seq<Bits>)
      returns (ok: bool, needed: nat, ghost first: seq<seq<Point>>)
      requires series in buffers && buffers[series].Paired() && |buffers[series].timestamps| < batchSize
      requires |timestamps| == |values|
      modifies this`buffers, native
      ensures needed <= |timestamps|
      ensures native.log == if ok then old(native.log) + Appends(series, first) else old(native.log)
      ensures ok ==> series in buffers && buffers == old(buffers)[series := buffers[series]] && buffers[series].Paired()
      ensures var points := Zip(timestamps, values);
              var kept := if ok then buffers[series].Points() else [];
              (!ok ==> |first| == 1) &&
              ToppedUp(old(buffers[series].Points()) + points, first, kept, points[needed..], batchSize)
      ensures Answered(old(native.answers), native.answers, |native.log| - |old(native.log)|, ok)
    {
      AnsweredNone(native.answers);
      hide Answered;
      ghost var points := Zip(timestamps, values);
      var lists := buffers[series];
      ok, needed, first := true, 0, [];
      assert points[0..] == points;
      if |lists.timestamps| == 0 {
        assert lists.Points() == [] && lists.Points() + points == points;
        return;
      }
      var room := batchSize - |lists.timestamps|;
      needed := if room < |timestamps| then room else |timestamps|;
      lists := Lists(lists.timestamps + timestamps[..needed], lists.values + values[..needed]);
      buffers := buffers[series := lists];
      assert old(buffers[series].Points()) + points == lists.Points() + points[needed..];
      if |lists.timestamps| == batchSize {
        first := [lists.Points()];
        ok := FlushSeries(series);
        assert Appends(series, first) == [Appended(series, lists.Points())];
      }
    }

    /** Top up the pending lists to a batch, send whole batches, keep the remainder. */
    method AppendLists(series: string, timestamps: seq<int>, values: seq<Bits>) returns (outcome: Outcome, ghost sent: nat)
      requires Valid() && series in buffers && |timestamps| == |values|
      modifies this`buffers, native
      ensures !outcome.ValueError?
      ensures outcome.Returned? ==> Valid() && forall s :: s != series ==> Pending(s) == old(Pending(s))
      ensures var stream := old(Pending(series)) + Zip(timestamps, values);
              && Sent(old(native.log), native.log, series, Full(stream, batchSize), sent)
              && (outcome.Returned? <==> sent == |Full(stream, batchSize)|)
              && (outcome.Returned? ==> Pending(series) == Rest(stream, batchSize))
      ensures Answered(old(native.answers), native.answers, |native.log| - |old(native.log)|, outcome.Returned?)
    {
      hide Full, Rest, Sent, BatchesFit, ToppedUp, BuffersOk, Answered;
      BufferOk(buffers, order, batchSize, series);
      ghost var stream := Pending(series) + Zip(timestamps, values);
      ghost var batches := Full(stream, batchSize);
      var ok, offset;
      ghost var first;
      ok, offset, first := TopUp(series, timestamps, values);
      ghost var middle, answers := native.log, native.answers;
      ghost var tail := Zip(timestamps, values)[offset..];
      ghost var kept := if ok then buffers[series].Points() else [];
      FullAfterTopUp(stream, first, kept, tail, batchSize);
      if !ok {
        SentNone(native.log, series, batches);
        return NativeError, 0;
      }
      SentWhole(old(native.log), series, first);
      var lists := buffers[series];
      ok, offset, sent := SendWhole(series, timestamps, values, offset);
      AnsweredBoth(old(native.answers), answers, native.answers, |middle| - |old(native.log)|, |native.log| - |middle|, ok);
      SentBoth(old(native.log), middle, native.log, series, first, Full(tail, batchSize), sent);
      sent := |first| + sent;
      if !ok {
        return NativeError, sent;
      }
      buffers := buffers[series := Lists(lists.timestamps + timestamps[offset..], lists.values + values[offset..])];
      ZipAppend(lists.timestamps, lists.values, timestamps, values, offset);
      SentFit(old(native.log), native.log, series, batches, sent, batchSize);
      assert buffers == old(buffers)[series := buffers[series]];
      UpdateOk(old(buffers), order, batchSize, series, buffers[series]);
      outcome := Returned;
    }

    /** A batch of points from iterables or buffers. */
    method AppendMany(series: string, input: Input) returns (outcome: Outcome, ghost sent: nat)
      requires Valid()
      modifies this`buffers, this`order, native
      ensures outcome.ValueError? <==> |input.timestamps| != |input.values|
      ensures outcome.ValueError? ==>
                Valid() && native.log == old(native.log) && forall s :: Pending(s) == old(Pending(s))
      ensures outcome.Returned? ==> Valid() && forall s :: s != series ==> Pending(s) == old(Pending(s))
      ensures |input.timestamps| == |input.values| ==>
                var points := Zip(input.timestamps, input.values);
                var batches := ToSend(old(Pending(series)), points, input.buffers, batchSize);
                && Sent(old(native.log), native.log, series, batches, sent)
                && (outcome.Returned? <==> sent == |batches|)
                && (outcome.Returned? ==> Pending(series) == ToKeep(old(Pending(series)), points, input.buffers, batchSize))
      ensures outcome.Returned? && input.buffers && old(Pending(series)) == [] ==> Pending(series) == []
      ensures outcome.Returned? && (!input.buffers || old(Pending(series)) != []) && |old(Pending(series))| + |input.timestamps| < batchSize ==>
                && native.log == old(native.log)
                && Pending(series) == old(Pending(series)) + Zip(input.timestamps, input.values)
      ensures order == if series in old(order) then old(order) else old(order) + [series]
      ensures Answered(old(native.answers), native.answers, |native.log| - |old(native.log)|, !outcome.NativeError?)
    {
      hide Full, Rest, All, Sent, BatchesFit, BuffersOk, Answered;
      AnsweredNone(native.answers);
      SetDefault(series);
      BufferOk(buffers, order, batchSize, series);
      sent := 0;
      assert Zip([], []) == [];
      if buffers[series].timestamps == [] {
        var handled;
        handled, outcome, sent := AppendBufferBatches(series, input);
        if handled {
          ghost var batches := All(Zip(input.timestamps, input.values), batchSize);
          SentFit(old(native.log), native.log, series, batches, sent, batchSize);
          return;
        }
      }
      if |input.timestamps| != |input.values| {
        return ValueError, 0;
      }
      outcome, sent := AppendLists(series, input.timestamps, input.values);
      ghost var points := Zip(input.timestamps, input.values);
      ShortStays(old(native.log), native.log, series, old(Pending(series)) + points, batchSize, sent);
    }

    /** Send every pending list, in the order the series first appeared. */
    method Flush() returns (ok: bool, ghost visited: nat)
      requires Valid()
      modifies this`buffers, native
      ensures visited <= |order| && (ok <==> visited == |order|)
      ensures native.log == old(native.log) + Waiting(order[..visited], old(buffers))
      ensures ok ==> Valid() && forall s :: Pending(s) == []
      ensures Answered(old(native.answers), native.answers, |native.log| - |old(native.log)|, ok)
    {
      hide Delivered, BatchesFit, BuffersOk, Waiting, Answered;
      AnsweredNone(native.answers);
      KeysKnown(buffers, order, batchSize);
      WaitingNone(buffers);
      ghost var start := buffers;
      ok, visited := true, 0;
      for i := 0 to |order|
        invariant ok && visited == i && Valid()
        invariant native.log == old(native.log) + Waiting(order[..i], start)
        invariant Answered(old(native.answers), native.answers, |native.log| - |old(native.log)|, true)
        invariant buffers.Keys == start.Keys
        invariant forall k :: 0 <= k < i ==> buffers[order[k]].timestamps == []
        invariant forall k :: i <= k < |order| ==> buffers[order[k]] == start[order[k]]
      {
        var series := order[i];
        WaitingNext(order, i, start);
        BufferOk(buffers, order, batchSize, series);
        ghost var log, lists, answers := native.log, buffers, native.answers;
        if |buffers[series].timestamps| > 0 {
          ok := FlushSeries(series);
          AnsweredBoth(old(native.answers), answers, native.answers, |log| - |old(native.log)|, |native.log| - |log|, ok);
          if !ok {
            return;
          }
          UpdateOk(lists, order, batchSize, series, EMPTY);
          OneFits(log, series, start[series].Points(), batchSize);
        }
        visited := i + 1;
      }
      assert order[..|order|] == order;
      NothingPending(buffers, order, batchSize);
    }

    method Checkpoint(fsync: bool) returns (outcome: Outcome, ghost visited: nat)
      requires Valid()
      modifies this`buffers, native
      ensures !outcome.ValueError? && visited <= |order|
      ensures outcome.Returned? ==>
                && Valid() && (forall s :: Pending(s) == [])
                && native.log == old(native.log) + Waiting(order, old(buffers)) + [Checkpointed(fsync)]
      ensures outcome.NativeError? ==> native.log == old(native.log) + Waiting(order[..visited], old(buffers))
      ensures Answered(old(native.answers), native.answers, |native.log| - |old(native.log)|, outcome.Returned?)
    {
      hide Answered, BuffersOk, BatchesFit, Waiting, PendingOf;
      var ok;
      ok, visited := Flush();
      if !ok {
        return NativeError, visited;
      }
      assert order[..visited] == order;
      ghost var log, answers := native.log, native.answers;
      ok := native.Call(Checkpointed(fsync));
      CheckFits(log, fsync, batchSize);
      AnsweredBoth(old(native.answers), answers, native.answers, |log| - |old(native.log)|, |native.log| - |log|, ok);
      outcome := if ok then Returned else NativeError;
    }

    /** Flush, then give up the handle and close it, even when the flush fails. */
    method Close() returns (outcome: Outcome, closed: bool, ghost visited: nat)
      requires Valid()
      modifies this`buffers, this`handle, native
      ensures !handle && visited <= |order|
      ensures !old(handle) ==> outcome.Returned? && native.log == old(native.log)
      ensures old(handle) ==>
                && native.log == old(native.log) + Waiting(order[..visited], old(buffers)) + (if closed then [Closed] else [])
                && (outcome.Returned? <==> closed && visited == |order|)
                && var sent := |Waiting(order[..visited], old(buffers))|;
                   var middle := Left(old(native.answers), sent + if visited == |order| then 0 else 1);
                   && Answered(old(native.answers), middle, sent, visited == |order|)
                   && Answered(middle, native.answers, if closed then 1 else 0, closed)
    {
      hide Answered;
      if !handle {
        return Returned, false, 0;
      }
      var ok;
      ok, visited := Flush();
      handle := false;
      ghost var middle := native.answers;
      closed := native.Call(Closed);
      AnsweredLeft(old(native.answers), middle, |Waiting(order[..visited], old(buffers))|, ok);
      outcome := if ok && closed then Returned else NativeError;
    }
  }

  lemma KeysKnown(buffers: map<string, Lists>, order: seq<string>, size: nat)
    requires BuffersOk(buffers, order, size)
    ensures forall k :: 0 <= k < |order| ==> order[k] in buffers && buffers[order[k]].Paired()
    ensures forall i, j :: 0 <= i < j < |order| ==> order[i] != order[j]
  {
  }

  lemma WaitingNone(buffers: map<string, Lists>)
    ensures Waiting([], buffers) == []
  {
  }

  lemma CheckFits(log: seq<Event>, fsync: bool, size: nat)
    requires BatchesFit(log, size)
    ensures BatchesFit(log + [Checkpointed(fsync)], size)
  {
  }

  lemma OneFits(log: seq<Event>, series: string, points: seq<Point>, size: nat)
    requires BatchesFit(log, size) && 1 <= |points| <= size
    ensures BatchesFit(log + [Appended(series, points)], size)
  {
  }

  lemma NothingPending(buffers: map<string, Lists>, order: seq<string>, size: nat)
    requires BuffersOk(buffers, order, size)
    requires forall k :: 0 <= k < |order| ==> order[k] in buffers && buffers[order[k]].timestamps == []
    ensures forall s :: PendingOf(buffers, s) == []
  {
    forall s | s in buffers
      ensures PendingOf(buffers, s) == []
    {
      var k :| 0 <= k < |order| && order[k] == s;
    }
  }

  /** The appends that flushing these series makes: one for each with something pending. */
  function Waiting(order: seq<string>, buffers: map<string, Lists>): (events: seq<Event>)
    requires forall s :: s in order ==> s in buffers && buffers[s].Paired()
  {
    if order == [] then []
    else
      var last := order[|order| - 1];
      Waiting(order[..|order| - 1], buffers) +
      if buffers[last].timestamps == [] then [] else [Appended(last, buffers[last].Points())]
  }

  lemma WaitingNext(order: seq<string>, i: nat, buffers: map<string, Lists>)
    requires i < |order| && forall s :: s in order ==> s in buffers && buffers[s].Paired()
    ensures Waiting(order[..i + 1], buffers) == Waiting(order[..i], buffers) +
            if buffers[order[i]].timestamps == [] then [] else [Appended(order[i], buffers[order[i]].Points())]
  {
    assert order[..i + 1][..i] == order[..i];
  }

  /** They are the appends of the series with something pending, in order, each with its pending points. */
  lemma {:induction false} WaitingMeans(order: seq<string>, buffers: map<string, Lists>) returns (at: seq<nat>)
    requires forall s :: s in order ==> s in buffers && buffers[s].Paired()
    ensures |at| == |Waiting(order, buffers)| && forall j, k :: 0 <= j < k < |at| ==> at[j] < at[k]
    ensures forall k: nat :: k in at <==> k < |order| && buffers[order[k]].Points() != []
    ensures forall j :: 0 <= j < |at| ==>
              at[j] < |order| && Waiting(order, buffers)[j] == Appended(order[at[j]], buffers[order[at[j]]].Points())
  {
    hide Waiting;
    if order == [] {
      at := [];
      WaitingNone(buffers);
    } else {
      var n := |order| - 1;
      at := WaitingMeans(order[..n], buffers);
      WaitingLast(order, buffers);
      if buffers[order[n]].Points() != [] {
        at := at + [n];
      }
    }
  }

  lemma WaitingLast(order: seq<string>, buffers: map<string, Lists>)
    requires order != [] && forall s :: s in order ==> s in buffers && buffers[s].Paired()
    ensures var n := |order| - 1;
            var points := buffers[order[n]].Points();
            Waiting(order, buffers) == Waiting(order[..n], buffers) + if points == [] then [] else [Appended(order[n], points)]
  {
    assert buffers[order[|order| - 1]].timestamps == [] <==> buffers[order[|order| - 1]].Points() == [];
  }

  lemma DeliveredNone(series: string)
    ensures Delivered([], series) == []
  {
  }

  lemma {:induction false} DeliveredBoth(a: seq<Event>, b: seq<Event>, series: string)
    ensures Delivered(a + b, series) == Delivered(a, series) + Delivered(b, series)
  {
    hide Delivered;
    if b == [] {
      DeliveredNone(series);
      assert a + b == a;
    } else {
      var rest, last := b[..|b| - 1], b[|b| - 1];
      DeliveredBoth(a, rest, series);
      DeliveredLast(rest, last, series);
      DeliveredLast(a + rest, last, series);
      assert rest + [last] == b && a + rest + [last] == a + b;
    }
  }

  /** A flush delivers exactly what each series had pending. */
  lemma {:induction false} WaitingDelivers(order: seq<string>, buffers: map<string, Lists>, series: string)
    requires forall s :: s in order ==> s in buffers && buffers[s].Paired()
    requires forall i, j :: 0 <= i < j < |order| ==> order[i] != order[j]
    ensures Delivered(Waiting(order, buffers), series) == if series in order then buffers[series].Points() else []
  {
    if order != [] {
      var n := |order| - 1;
      WaitingDelivers(order[..n], buffers, series);
      var before, last := Waiting(order[..n], buffers), order[n];
      if buffers[last].timestamps == [] {
        assert before + [] == before;
        assert buffers[last].Points() == [];
      } else {
        DeliveredLast(before, Appended(last, buffers[last].Points()), series);
      }
      assert series in order <==> series in order[..n] || series == last;
    }
  }

  /** The batches an append of many points sends: whole ones only, unless buffers go straight through. */
  function ToSend(pending: seq<Point>, points: seq<Point>, buffers: bool, size: nat): seq<seq<Point>>
    requires size > 0
  {
    if buffers && pending == [] then All(points, size) else Full(pending + points, size)
  }

  function ToKeep(pending: seq<Point>, points: seq<Point>, buffers: bool, size: nat): seq<Point>
    requires size > 0
  {
    if buffers && pending == [] then [] else Rest(pending + points, size)
  }

  /**
   Buffers handed over when nothing is pending go out whole, the last batch perhaps short, and leave nothing pending.
   Anything else goes out in whole batches only, and less than a batch is left. Either way there is one such cut.
   */
  lemma ManyMeans(pending: seq<Point>, points: seq<Point>, buffers: bool, size: nat, batches: seq<seq<Point>>, kept: seq<Point>)
    requires size > 0
    ensures buffers && pending == [] ==>
              (ToSend(pending, points, buffers, size) == batches && ToKeep(pending, points, buffers, size) == kept <==>
                 && kept == [] && Concat(batches) == points
                 && forall i :: 0 <= i < |batches| ==> 1 <= |batches[i]| <= size && (i < |batches| - 1 ==> |batches[i]| == size))
    ensures !(buffers && pending == []) ==>
              (ToSend(pending, points, buffers, size) == batches && ToKeep(pending, points, buffers, size) == kept <==>
                 && Concat(batches) + kept == pending + points && |kept| < size
                 && forall i :: 0 <= i < |batches| ==> |batches[i]| == size)
  {
    hide Full, Rest, All, Concat;
    if buffers && pending == [] {
      AllConserves(points, size);
      AllShort(points, size);
      if && Concat(batches) == points
         && forall i :: 0 <= i < |batches| ==> 1 <= |batches[i]| <= size && (i < |batches| - 1 ==> |batches[i]| == size) {
        AllIs(points, batches, size);
      }
    } else {
      FullConserves(pending + points, size);
      if Concat(batches) + kept == pending + points && |kept| < size && forall i :: 0 <= i < |batches| ==> |batches[i]| == size {
        FullIs(pending + points, batches, kept, size);
      }
    }
  }

  /** The batch at `offset` is the next of all batches. */
  lemma NextBatch(points: seq<Point>, offset: nat, count: nat, size: nat, sent: nat)
    requires size >= 1 && offset < |points| && count == (if size < |points| - offset then size else |points| - offset)
    requires sent <= |All(points, size)| && All(points, size)[sent..] == All(points[offset..], size)
    ensures sent < |All(points, size)|
    ensures All(points, size)[sent] == points[offset..offset + count]
    ensures All(points, size)[sent + 1..] == All(points[offset + count..], size)
  {
    var tail := points[offset..];
    assert tail[..count] == points[offset..offset + count] && tail[count..] == points[offset + count..];
    assert All(points, size)[sent..][0] == All(points, size)[sent];
    assert All(points, size)[sent..][1..] == All(points, size)[sent + 1..];
    assert All(tail, size) == [tail[..count]] + All(tail[count..], size) by {
      if |tail| <= size {
        assert tail[..count] == tail && tail[count..] == [];
      }
    }
  }

  /** What topping up the pending lists leaves to do: `first` is sent, `kept` waits, `tail` is untouched. */
  ghost predicate ToppedUp(stream: seq<Point>, first: seq<seq<Point>>, kept: seq<Point>, tail: seq<Point>, size: nat) {
    || (first == [] && kept == [] && stream == tail)
    || (|first| == 1 && |first[0]| == size && kept == [] && stream == first[0] + tail)
    || (first == [] && tail == [] && stream == kept && |kept| < size)
  }

  lemma FullAfterTopUp(stream: seq<Point>, first: seq<seq<Point>>, kept: seq<Point>, tail: seq<Point>, size: nat)
    requires size >= 1 && ToppedUp(stream, first, kept, tail, size)
    ensures Full(stream, size) == first + Full(tail, size)
    ensures Rest(stream, size) == kept + Rest(tail, size)
  {
    FullShort(stream, size);
    FullShort(tail, size);
    if first != [] {
      FullSplitFirst(first[0], tail, size);
    }
  }

  lemma SentWhole(log: seq<Event>, series: string, batches: seq<seq<Point>>)
    ensures Sent(log, log + Appends(series, batches), series, batches, |batches|)
  {
    assert batches[..|batches|] == batches;
  }

  lemma SentBoth(before: seq<Event>, middle: seq<Event>, after: seq<Event>, series: string,
                 first: seq<seq<Point>>, second: seq<seq<Point>>, k: nat)
    requires Sent(before, middle, series, first, |first|) && Sent(middle, after, series, second, k)
    ensures Sent(before, after, series, first + second, |first| + k)
  {
    assert (first + second)[..|first| + k] == first + second[..k];
    assert first[..|first|] == first;
    assert Appends(series, first + second[..k]) == Appends(series, first) + Appends(series, second[..k]);
  }

  lemma TailOf(batches: seq<seq<Point>>, k: nat, head: seq<Point>, more: seq<seq<Point>>)
    requires k <= |batches| && batches[k..] == [head] + more
    ensures k < |batches| && batches[k] == head && batches[k + 1..] == more
  {
    assert batches[k..][0] == head && batches[k..][1..] == batches[k + 1..];
  }

  /** Less than a batch stays where it is. */
  lemma ShortStays(before: seq<Event>, after: seq<Event>, series: string, stream: seq<Point>, size: nat, k: nat)
    requires size >= 1 && Sent(before, after, series, Full(stream, size), k)
    ensures |stream| < size ==> after == before && Rest(stream, size) == stream
  {
    FullShort(stream, size);
  }

  lemma AllNone(size: nat)
    requires size >= 1
    ensures All<Point>([], size) == []
  {
  }

  lemma FullShort(xs: seq<Point>, size: nat)
    requires size >= 1
    ensures |xs| < size ==> Full(xs, size) == [] && Rest(xs, size) == xs
  {
  }

  /** A whole batch at the front is sent first. */
  lemma FullSplitFirst(batch: seq<Point>, more: seq<Point>, size: nat)
    requires size >= 1 && |batch| == size
    ensures Full(batch + more, size) == [batch] + Full(more, size)
    ensures Rest(batch + more, size) == Rest(more, size)
  {
    assert (batch + more)[..size] == batch && (batch + more)[size..] == more;
  }

  /** A stream no longer than one batch is at most one batch. */
  lemma OneBatch(xs: seq<Point>, size: nat)
    requires 1 <= size && |xs| <= size
    ensures |xs| < size ==> Full(xs, size) == [] && Rest(xs, size) == xs
    ensures |xs| == size ==> Full(xs, size) == [xs] && Rest(xs, size) == []
  {
    if |xs| == size {
      assert xs[..size] == xs && xs[size..] == [];
    }
  }

  // ---- Whole runs ----

  datatype Call = One(series: string, timestamp: int, value: Bits) | Many(series: string, input: Input) | Check(fsync: bool)

  /** The points a call hands over for a series. A length mismatch hands over nothing. */
  function AcceptedBy(call: Call, series: string): seq<Point> {
    match call
    case One(s, timestamp, value) => if s == series then [Point(timestamp, value)] else []
    case Many(s, input) =>
      if s == series && |input.timestamps| == |input.values| then Zip(input.timestamps, input.values) else []
    case Check(_) => []
  }

  function Accepted(calls: seq<Call>, series: string): seq<Point> {
    if calls == [] then [] else Accepted(calls[..|calls| - 1], series) + AcceptedBy(calls[|calls| - 1], series)
  }

  /** What sending some of the batches does to each series' delivered points. */
  lemma SentDelivers(before: seq<Event>, after: seq<Event>, series: string, batches: seq<seq<Point>>, k: nat, s: string)
    requires Sent(before, after, series, batches, k)
    ensures Delivered(after, s) == Delivered(before, s) + if s == series then Concat(batches[..k]) else []
  {
    DeliveredAppends(before, series, batches[..k], s);
  }

  /** Sending every batch of a stream and keeping its rest conserves it; sending some delivers a prefix. */
  lemma BatchesConserve(stream: seq<Point>, size: nat, k: nat)
    requires size >= 1
    ensures k <= |Full(stream, size)| ==> Concat(Full(stream, size)[..k]) <= stream
    ensures k == |Full(stream, size)| ==> Concat(Full(stream, size)[..k]) + Rest(stream, size) == stream
    ensures k <= |All(stream, size)| ==> Concat(All(stream, size)[..k]) <= stream
    ensures k == |All(stream, size)| ==> Concat(All(stream, size)[..k]) == stream
  {
    hide Full, Rest, All, Concat;
    FullConserves(stream, size);
    AllConserves(stream, size);
    if k <= |Full(stream, size)| {
      ConcatPrefix(Full(stream, size), k);
    }
    if k <= |All(stream, size)| {
      ConcatPrefix(All(stream, size), k);
    }
    if k == |Full(stream, size)| {
      assert Full(stream, size)[..k] == Full(stream, size);
    }
    if k == |All(stream, size)| {
      assert All(stream, size)[..k] == All(stream, size);
    }
  }

  lemma PrefixAppend(a: seq<Point>, b: seq<Point>, c: seq<Point>)
    requires b <= c
    ensures a + b <= a + c
  {
  }

  /** What all the batches of a call leave to be delivered and kept. */
  lemma CallStream(points: seq<Point>, buffers: bool, size: nat, pending: seq<Point>, k: nat)
    requires size >= 1 && k <= |ToSend(pending, points, buffers, size)|
    ensures var batches := ToSend(pending, points, buffers, size);
            && Concat(batches[..k]) <= pending + points
            && (k == |batches| ==> Concat(batches[..k]) + ToKeep(pending, points, buffers, size) == pending + points)
  {
    hide Full, Rest, All, Concat;
    var stream := if buffers && pending == [] then points else pending + points;
    assert stream == pending + points;
    BatchesConserve(stream, size, k);
    var sent := Concat(ToSend(pending, points, buffers, size)[..k]);
    assert sent + [] == sent;
  }

  lemma JoinThree(a: seq<Point>, b: seq<Point>, c: seq<Point>)
    ensures a + b + c == a + (b + c)
  {
  }

  /** One call's effect on series `s`, whose pending points go from `was` to `now`. */
  lemma CallConserves(before: seq<Event>, after: seq<Event>, series: string, points: seq<Point>, buffers: bool, size: nat,
                      pending: seq<Point>, k: nat, s: string, was: seq<Point>, now: seq<Point>)
    requires size >= 1 && Sent(before, after, series, ToSend(pending, points, buffers, size), k)
    requires if s == series then was == pending else now == was
    ensures Delivered(after, s) <= Delivered(before, s) + was + Mine(s, series, points)
    ensures k == |ToSend(pending, points, buffers, size)| && (s == series ==> now == ToKeep(pending, points, buffers, size)) ==>
              Delivered(after, s) + now == Delivered(before, s) + was + Mine(s, series, points)
  {
    hide Concat, Delivered, Sent, ToSend, ToKeep;
    var batches := ToSend(pending, points, buffers, size);
    SentBound(before, after, series, batches, k);
    SentDelivers(before, after, series, batches, k, s);
    var sent := Concat(batches[..k]);
    if s == series {
      CallStream(points, buffers, size, pending, k);
      PrefixAppend(Delivered(before, s), sent, pending + points);
      JoinThree(Delivered(before, s), pending, points);
      JoinThree(Delivered(before, s), sent, now);
    } else {
      assert Delivered(before, s) + [] == Delivered(before, s);
      assert Delivered(before, s) + was + [] == Delivered(before, s) + was;
    }
  }

  function Mine(s: string, series: string, points: seq<Point>): seq<Point> { if s == series then points else [] }

  lemma SentBound(before: seq<Event>, after: seq<Event>, series: string, batches: seq<seq<Point>>, k: nat)
    requires Sent(before, after, series, batches, k)
    ensures k <= |batches|
  {
  }

  /** A flush moves pending points to delivered ones, series by series. */
  lemma FlushConserves(before: seq<Event>, after: seq<Event>, order: seq<string>, visited: nat, buffers: map<string, Lists>,
                       size: nat, s: string)
    requires BuffersOk(buffers, order, size) && visited <= |order|
    requires after == before + Waiting(order[..visited], buffers)
    ensures Delivered(after, s) <= Delivered(before, s) + PendingOf(buffers, s)
    ensures visited == |order| ==> Delivered(after, s) == Delivered(before, s) + PendingOf(buffers, s)
  {
    DeliveredBoth(before, Waiting(order[..visited], buffers), s);
    WaitingDelivers(order[..visited], buffers, s);
    assert visited == |order| ==> order[..visited] == order;
    assert s in order[..visited] ==> s in order;
  }

  /** Everything accepted for a series: delivered, then pending. */
  function StreamOf(log: seq<Event>, buffers: map<string, Lists>, series: string): seq<Point> {
    Delivered(log, series) + PendingOf(buffers, series)
  }

  /** Between two states every series gained exactly what the calls handed over. */
  ghost predicate Gained(log: seq<Event>, buffers: map<string, Lists>, log': seq<Event>, buffers': map<string, Lists>, calls: seq<Call>) {
    forall s :: StreamOf(log', buffers', s) == StreamOf(log, buffers, s) + Accepted(calls, s)
  }

  /** Every series' delivered points are a prefix of those accepted before and with the calls. */
  ghost predicate DeliversPrefix(log: seq<Event>, buffers: map<string, Lists>, log': seq<Event>, calls: seq<Call>) {
    forall s :: Delivered(log', s) <= StreamOf(log, buffers, s) + Accepted(calls, s)
  }

  lemma AcceptedOne(call: Call, s: string)
    ensures Accepted([call], s) == AcceptedBy(call, s)
  {
    assert [call][..0] == [];
    assert [] + AcceptedBy(call, s) == AcceptedBy(call, s);
  }

  lemma AcceptedLast(calls: seq<Call>, call: Call, s: string)
    ensures Accepted(calls + [call], s) == Accepted(calls, s) + AcceptedBy(call, s)
  {
    assert (calls + [call])[..|calls|] == calls;
  }

  lemma AcceptedNothing(s: string)
    ensures Accepted([], s) == []
  {
  }

  lemma {:induction false} AcceptedBoth(a: seq<Call>, b: seq<Call>, s: string)
    ensures Accepted(a + b, s) == Accepted(a, s) + Accepted(b, s)
  {
    hide Accepted, AcceptedBy;
    if b == [] {
      AcceptedNothing(s);
      assert a + b == a;
    } else {
      var rest, last := b[..|b| - 1], b[|b| - 1];
      AcceptedBoth(a, rest, s);
      AcceptedLast(rest, last, s);
      AcceptedLast(a + rest, last, s);
      assert rest + [last] == b && a + rest + [last] == a + b;
    }
  }

  lemma GainedNothing(log: seq<Event>, buffers: map<string, Lists>)
    ensures Gained(log, buffers, log, buffers, [])
  {
    forall s
      ensures StreamOf(log, buffers, s) + Accepted([], s) == StreamOf(log, buffers, s)
    {
    }
  }

  lemma GainedBoth(log: seq<Event>, buffers: map<string, Lists>, log': seq<Event>, buffers': map<string, Lists>, a: seq<Call>,
                   log'': seq<Event>, buffers'': map<string, Lists>, b: seq<Call>)
    requires Gained(log, buffers, log', buffers', a)
    ensures Gained(log', buffers', log'', buffers'', b) ==> Gained(log, buffers, log'', buffers'', a + b)
    ensures DeliversPrefix(log', buffers', log'', b) ==> DeliversPrefix(log, buffers, log'', a + b)
  {
    hide StreamOf, Delivered, Accepted;
    forall s
      ensures StreamOf(log, buffers, s) + Accepted(a + b, s) == StreamOf(log', buffers', s) + Accepted(b, s)
    {
      AcceptedBoth(a, b, s);
      assert StreamOf(log, buffers, s) + (Accepted(a, s) + Accepted(b, s)) ==
             StreamOf(log, buffers, s) + Accepted(a, s) + Accepted(b, s);
    }
  }

  lemma AcceptsOne(series: string, timestamp: int, value: Bits)
    ensures forall s :: AcceptedBy(One(series, timestamp, value), s) == Mine(s, series, [Point(timestamp, value)])
  {
  }

  lemma AcceptsNone(fsync: bool)
    ensures forall s :: AcceptedBy(Check(fsync), s) == []
  {
  }

  lemma GainedOne(log: seq<Event>, buffers: map<string, Lists>, log': seq<Event>, buffers': map<string, Lists>, call: Call)
    requires forall s :: Delivered(log', s) + PendingOf(buffers', s) == Delivered(log, s) + PendingOf(buffers, s) + AcceptedBy(call, s)
    ensures Gained(log, buffers, log', buffers', [call])
  {
    hide Delivered, PendingOf, AcceptedBy, Accepted;
    forall s
      ensures StreamOf(log', buffers', s) == StreamOf(log, buffers, s) + Accepted([call], s)
    {
      AcceptedOne(call, s);
    }
  }

  lemma DeliversOne(log: seq<Event>, buffers: map<string, Lists>, log': seq<Event>, call: Call)
    requires forall s :: Delivered(log', s) <= Delivered(log, s) + PendingOf(buffers, s) + AcceptedBy(call, s)
    ensures DeliversPrefix(log, buffers, log', [call])
  {
    hide Delivered, PendingOf, AcceptedBy, Accepted;
    forall s
      ensures Delivered(log', s) <= StreamOf(log, buffers, s) + Accepted([call], s)
    {
      AcceptedOne(call, s);
    }
  }

  /** Make one call. Every series gains exactly what the call handed over, until a native call fails. */
  method Perform(w: Writer, call: Call) returns (outcome: Outcome)
    requires w.Valid()
    modifies w`buffers, w`order, w.native
    ensures !outcome.NativeError? ==> w.Valid() && Gained(old(w.native.log), old(w.buffers), w.native.log, w.buffers, [call])
    ensures outcome.NativeError? ==> DeliversPrefix(old(w.native.log), old(w.buffers), w.native.log, [call])
    ensures outcome.ValueError? <==> call.Many? && |call.input.timestamps| != |call.input.values|
    ensures call.Check? && outcome.Returned? ==> forall s :: w.Pending(s) == []
    ensures Answered(old(w.native.answers), w.native.answers, |w.native.log| - |old(w.native.log)|, !outcome.NativeError?)
  {
    hide Delivered, BuffersOk, BatchesFit, Gained, DeliversPrefix, AcceptedBy, Answered;
    ghost var log, buffers := w.native.log, w.buffers;
    match call {
      case One(series, timestamp, value) =>
        outcome := PerformOne(w, series, timestamp, value);
        AcceptsOne(series, timestamp, value);
      case Many(series, input) =>
        outcome := PerformMany(w, series, input);
      case Check(fsync) =>
        outcome := PerformCheck(w, fsync);
        AcceptsNone(fsync);
    }
    if outcome.NativeError? {
      DeliversOne(log, buffers, w.native.log, call);
    } else {
      forall s
        ensures Delivered(w.native.log, s) + PendingOf(w.buffers, s) == Delivered(log, s) + PendingOf(buffers, s) + AcceptedBy(call, s)
      {
        assert w.Stream(s) == old(w.Stream(s)) + AcceptedBy(call, s);
      }
      GainedOne(log, buffers, w.native.log, w.buffers, call);
    }
  }

  method PerformOne(w: Writer, series: string, timestamp: int, value: Bits) returns (outcome: Outcome)
    requires w.Valid()
    modifies w`buffers, w`order, w.native
    ensures !outcome.ValueError?
    ensures outcome.Returned? ==> w.Valid() && forall s :: w.Stream(s) == old(w.Stream(s)) + Mine(s, series, [Point(timestamp, value)])
    ensures outcome.NativeError? ==>
              forall s :: Delivered(w.native.log, s) <= old(w.Stream(s)) + Mine(s, series, [Point(timestamp, value)])
    ensures Answered(old(w.native.answers), w.native.answers, |w.native.log| - |old(w.native.log)|, outcome.Returned?)
  {
    hide Delivered, Full, Rest, All, Sent, BuffersOk, BatchesFit, Answered;
    ghost var sent;
    outcome, sent := w.Append(series, timestamp, value);
    forall s
      ensures outcome.Returned? ==> w.Stream(s) == old(w.Stream(s)) + Mine(s, series, [Point(timestamp, value)])
      ensures Delivered(w.native.log, s) <= old(w.Stream(s)) + Mine(s, series, [Point(timestamp, value)])
    {
      CallConserves(old(w.native.log), w.native.log, series, [Point(timestamp, value)], false, w.batchSize,
                    old(w.Pending(series)), sent, s, old(w.Pending(s)),
                    if s == series then w.Pending(s) else old(w.Pending(s)));
    }
  }

  method PerformMany(w: Writer, series: string, input: Input) returns (outcome: Outcome)
    requires w.Valid()
    modifies w`buffers, w`order, w.native
    ensures !outcome.NativeError? ==> w.Valid() && forall s :: w.Stream(s) == old(w.Stream(s)) + AcceptedBy(Many(series, input), s)
    ensures outcome.NativeError? ==>
              forall s :: Delivered(w.native.log, s) <= old(w.Stream(s)) + AcceptedBy(Many(series, input), s)
    ensures outcome.ValueError? <==> |input.timestamps| != |input.values|
    ensures Answered(old(w.native.answers), w.native.answers, |w.native.log| - |old(w.native.log)|, !outcome.NativeError?)
  {
    hide Delivered, Full, Rest, All, Sent, BuffersOk, BatchesFit, Answered;
    ghost var sent;
    outcome, sent := w.AppendMany(series, input);
    if |input.timestamps| == |input.values| {
      var points := Zip(input.timestamps, input.values);
      forall s
        ensures outcome.Returned? ==> w.Stream(s) == old(w.Stream(s)) + Mine(s, series, points)
        ensures Delivered(w.native.log, s) <= old(w.Stream(s)) + Mine(s, series, points)
      {
        CallConserves(old(w.native.log), w.native.log, series, points, input.buffers, w.batchSize,
                      old(w.Pending(series)), sent, s, old(w.Pending(s)),
                      if s == series then w.Pending(s) else old(w.Pending(s)));
      }
    } else {
      assert forall s :: old(w.Stream(s)) + [] == old(w.Stream(s));
    }
  }

  method PerformCheck(w: Writer, fsync: bool) returns (outcome: Outcome)
    requires w.Valid()
    modifies w`buffers, w`order, w.native
    ensures !outcome.ValueError?
    ensures outcome.Returned? ==> w.Valid() && forall s :: w.Pending(s) == [] && w.Stream(s) == old(w.Stream(s)) + []
    ensures outcome.NativeError? ==> forall s :: Delivered(w.native.log, s) <= old(w.Stream(s)) + []
    ensures Answered(old(w.native.answers), w.native.answers, |w.native.log| - |old(w.native.log)|, outcome.Returned?)
  {
    hide Delivered, BuffersOk, BatchesFit, Waiting, Answered;
    ghost var visited;
    ghost var log := w.native.log;
    outcome, visited := w.Checkpoint(fsync);
    ghost var flushed := if outcome.Returned? then w.native.log[..|w.native.log| - 1] else w.native.log;
    if outcome.Returned? {
      visited := |w.order|;
      assert w.order[..visited] == w.order;
      assert w.native.log == flushed + [Checkpointed(fsync)];
    }
    forall s
      ensures Delivered(w.native.log, s) <= old(w.Stream(s)) + []
      ensures outcome.Returned? ==> Delivered(w.native.log, s) + [] == old(w.Stream(s)) + []
    {
      FlushConserves(log, flushed, w.order, visited, old(w.buffers), w.batchSize, s);
      if outcome.Returned? {
        DeliveredLast(flushed, Checkpointed(fsync), s);
      }
    }
  }

  /** What a writer has sent and what waits in it. */
  datatype Standing = Standing(log: seq<Event>, buffers: map<string, Lists>)

  /**
   A run of calls, stopped by the first native call the library answers with a failure. Without one, every
   series' delivered and pending points are all the accepted ones, in order; with one, the calls before it
   (`served` is where they left the writer) are served in full and the delivered points are a prefix.
   */
  method Run(w: Writer, calls: seq<Call>) returns (done: nat, ok: bool, ghost served: Standing)
    requires w.Valid()
    modifies w`buffers, w`order, w.native
    ensures Answered(old(w.native.answers), w.native.answers, |w.native.log| - |old(w.native.log)|, ok)
    ensures if ok then done == |calls| else done < |calls|
    ensures Gained(old(w.native.log), old(w.buffers), served.log, served.buffers, calls[..done])
    ensures ok ==> w.Valid() && served == Standing(w.native.log, w.buffers)
    ensures !ok ==> DeliversPrefix(served.log, served.buffers, w.native.log, [calls[done]])
    ensures !ok ==> DeliversPrefix(old(w.native.log), old(w.buffers), w.native.log, calls[..done + 1])
    ensures ok && calls != [] && calls[|calls| - 1].Check? ==> forall s :: w.Pending(s) == []
  {
    hide Gained, DeliversPrefix, BuffersOk, BatchesFit, PendingOf, Answered;
    ghost var log, buffers := w.native.log, w.buffers;
    done, ok, served := 0, true, Standing(w.native.log, w.buffers);
    GainedNothing(log, buffers);
    AnsweredNone(w.native.answers);
    while done < |calls|
      invariant done <= |calls| && ok && w.Valid()
      invariant served == Standing(w.native.log, w.buffers)
      invariant Gained(log, buffers, w.native.log, w.buffers, calls[..done])
      invariant Answered(old(w.native.answers), w.native.answers, |w.native.log| - |old(w.native.log)|, true)
      invariant done > 0 && calls[done - 1].Check? ==> forall s :: w.Pending(s) == []
    {
      ghost var answers := w.native.answers;
      var outcome := Perform(w, calls[done]);
      AnsweredBoth(old(w.native.answers), answers, w.native.answers, |served.log| - |log|, |w.native.log| - |served.log|, !outcome.NativeError?);
      GainedBoth(log, buffers, served.log, served.buffers, calls[..done], w.native.log, w.buffers, [calls[done]]);
      assert calls[..done] + [calls[done]] == calls[..done + 1];
      if outcome.NativeError? {
        ok := false;
        return;
      }
      done, served := done + 1, Standing(w.native.log, w.buffers);
    }
    assert calls[..done] == calls;
  }

  lemma NothingYet(s: string)
    ensures StreamOf([], map[], s) == []
  {
  }

  /** After a whole run and a checkpoint, a new writer has delivered everything it accepted. */
  lemma DeliveredAll(log: seq<Event>, buffers: map<string, Lists>, calls: seq<Call>, s: string)
    requires Gained([], map[], log, buffers, calls) && PendingOf(buffers, s) == []
    ensures Delivered(log, s) == Accepted(calls, s)
  {
    hide Delivered, Accepted;
    NothingYet(s);
    assert StreamOf(log, buffers, s) == StreamOf([], map[], s) + Accepted(calls, s);
    assert Delivered(log, s) + [] == Delivered(log, s);
    assert [] + Accepted(calls, s) == Accepted(calls, s);
  }

  /**
   However the same points are split into calls, two writers deliver the same stream by the next checkpoint;
   and they get there whenever the library answers no call with a failure.
   */
  method SplitIndependence(one: seq<Call>, two: seq<Call>, size: nat, answersOne: seq<bool>, answersTwo: seq<bool>)
    returns (ok: bool, a: NativeWriter, b: NativeWriter)
    requires size >= 1
    requires forall s :: Accepted(one, s) == Accepted(two, s)
    requires one != [] && one[|one| - 1].Check? && two != [] && two[|two| - 1].Check?
    ensures || Answered(answersOne, a.answers, |a.log|, ok)
            || (Answered(answersOne, a.answers, |a.log|, true) && Answered(answersTwo, b.answers, |b.log|, ok))
    ensures (forall i :: 0 <= i < |answersOne| ==> answersOne[i]) && (forall i :: 0 <= i < |answersTwo| ==> answersTwo[i]) ==> ok
    ensures ok ==> forall s :: Delivered(a.log, s) == Delivered(b.log, s) == Accepted(one, s)
  {
    hide Gained, Delivered, BuffersOk, BatchesFit, Answered;
    a := new NativeWriter(answersOne);
    b := new NativeWriter(answersTwo);
    var first := new Writer(a, size);
    var second := new Writer(b, size);
    var done;
    ghost var served, reached;
    done, ok, served := Run(first, one);
    AnswersDecide(answersOne, a.answers, |a.log|, ok);
    if ok {
      assert one[..done] == one;
      done, ok, reached := Run(second, two);
      AnswersDecide(answersTwo, b.answers, |b.log|, ok);
      assert two[..done] == two || !ok;
    }
    if ok {
      forall s
        ensures Delivered(a.log, s) == Delivered(b.log, s) == Accepted(one, s)
      {
        assert first.Pending(s) == [] && second.Pending(s) == [];
        DeliveredAll(a.log, first.buffers, one, s);
        DeliveredAll(b.log, second.buffers, two, s);
      }
    }
  }
}

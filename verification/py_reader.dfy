/**
 The Python client's reader: `Range` grows its buffers until the result fits; `IterRange` gives a generator
 that pulls bounded chunks through a native cursor and is cut off by a changed refresh or a close.
 */
module PythonReader {
  import opened Objects
  import opened Options
  import opened Ranges

  /** sys.maxsize // 8 on a 64-bit build. */
  const BATCH_MAX: int := I64_MAX / 8

  // ---- The native library ----

  datatype NativeCursor = NativeCursor(series: string, generation: nat, next: int, end: int, complete: bool, destroyed: bool)

  /** What the cursor has still to give. */
  function Remaining(cursor: NativeCursor, points: seq<Point>): seq<Point> {
    if cursor.complete then [] else InRange(points, cursor.next, cursor.end)
  }

  datatype Status = Ok | BufferTooSmall | Failed

  /** One `cursorNext`. A memory-mapped cursor that just filled its buffer finds the end only when asked again. */
  function Advanced(cursor: NativeCursor, points: seq<Point>, capacity: nat, mapped: bool): NativeCursor
    requires capacity > 0
  {
    var found := Remaining(cursor, points);
    if cursor.complete || |found| < capacity || (|found| == capacity && !mapped) then cursor.(complete := true)
    else
      var last := found[capacity - 1].timestamp;
      if last == I64_MAX then cursor.(complete := true) else cursor.(next := last + 1)
  }

  /** Chunks neither repeat nor skip a point, even at the largest timestamp. */
  lemma AdvancedResumes(cursor: NativeCursor, points: seq<Point>, capacity: nat, mapped: bool)
    requires capacity > 0 && Stored(points)
    ensures var found, after := Remaining(cursor, points), Advanced(cursor, points, capacity, mapped);
            && Remaining(after, points) == found[|Take(found, capacity)|..]
            && (after.complete ==> |found| <= capacity)
            && (|found| < capacity ==> after.complete)
            && (|found| == capacity ==> (after.complete <==> !mapped || found[capacity - 1].timestamp == 0x7fff_ffff_ffff_ffff))
            && after == cursor.(next := after.next, complete := after.complete)
  {
    hide StrictlyIncreasing, InRange;
    var found := Remaining(cursor, points);
    if !cursor.complete && capacity <= |found| {
      RangeResumes(points, cursor.next, cursor.end, capacity);
      if found[capacity - 1].timestamp == I64_MAX {
        NothingAfterMax(points, cursor.next, cursor.end, capacity - 1);
      }
    }
  }

  lemma NothingAfterMax(points: seq<Point>, start: int, end: int, k: nat)
    requires Stored(points) && k < |InRange(points, start, end)| && InRange(points, start, end)[k].timestamp == I64_MAX
    ensures |InRange(points, start, end)| == k + 1
  {
    hide InRange;
    var found := InRange(points, start, end);
    RangeIncreasing(points, start, end);
    RangeMembers(points, start, end);
    var next := found[if k + 1 < |found| then k + 1 else k];
    assert next in points && next.timestamp <= I64_MAX;
  }

  /** Which calls fail is the library's to say: `failures` is the queue of its answers, and `after` is left of it. */
  ghost predicate Drawn(before: seq<bool>, after: seq<bool>) {
    |after| <= |before| && after == before[|before| - |after|..]
  }

  /** Whether one of the answers drawn was a failure. */
  ghost predicate AnyFailed(before: seq<bool>, after: seq<bool>)
    requires Drawn(before, after)
  {
    true in before[..|before| - |after|]
  }

  /** A call that draws at most one answer. */
  ghost predicate DrewOne(before: seq<bool>, after: seq<bool>, fails: bool) {
    && fails == (before != [] && before[0])
    && after == if before == [] then [] else before[1..]
  }

  lemma DrawnOne(before: seq<bool>, after: seq<bool>, fails: bool)
    requires DrewOne(before, after, fails)
    ensures Drawn(before, after) && AnyFailed(before, after) == fails
  {
    if before != [] {
      assert before[..1] == [before[0]];
    }
  }

  lemma DrawnNone(answers: seq<bool>)
    ensures Drawn(answers, answers) && !AnyFailed(answers, answers)
  {
  }

  lemma DrawnTwice(before: seq<bool>, middle: seq<bool>, after: seq<bool>)
    requires Drawn(before, middle) && Drawn(middle, after)
    ensures Drawn(before, after) && (AnyFailed(before, after) <==> AnyFailed(before, middle) || AnyFailed(middle, after))
  {
    assert before[..|before| - |after|] == before[..|before| - |middle|] + middle[..|middle| - |after|];
  }

  function Later(arrivals: seq<Arrival>): seq<Arrival> { if arrivals == [] then [] else arrivals[1..] }

  class NativeReader {
    const mapped: bool
    var open: bool
    var generation: nat
    var snapshot: Snapshot
    var cursors: seq<NativeCursor>
    var arrivals: seq<Arrival>
    var failures: seq<bool>

    ghost predicate Valid()
      reads this
    {
      && (forall s :: s in snapshot ==> Stored(snapshot[s]))
      && (forall i, s :: 0 <= i < |arrivals| && arrivals[i].Adopted? && s in arrivals[i].snapshot ==> Stored(arrivals[i].snapshot[s]))
    }

    constructor (mapped: bool, snapshot: Snapshot, arrivals: seq<Arrival>, failures: seq<bool>)
      requires forall s :: s in snapshot ==> Stored(snapshot[s])
      requires forall i, s :: 0 <= i < |arrivals| && arrivals[i].Adopted? && s in arrivals[i].snapshot ==> Stored(arrivals[i].snapshot[s])
      ensures Valid() && open && cursors == [] && generation == 0
      ensures this.mapped == mapped && this.snapshot == snapshot && this.arrivals == arrivals && this.failures == failures
    {
      this.mapped, this.snapshot, this.arrivals, this.failures := mapped, snapshot, arrivals, failures;
      open, generation, cursors := true, 0, [];
    }

    /** Whether the next fallible call fails. */
    method Fails() returns (fails: bool)
      modifies this`failures
      ensures DrewOne(old(failures), failures, fails)
    {
      fails := false;
      if failures != [] {
        fails, failures := failures[0], failures[1..];
      }
    }

    method Range(series: string, start: int, end: int, capacity: nat) returns (status: Status, count: nat, points: seq<Point>)
      requires open
      modifies this`failures
      ensures Drawn(old(failures), failures)
      ensures status.Failed? <==> AnyFailed(old(failures), failures) || series !in snapshot
      ensures !status.Failed? ==> count == |InRange(snapshot[series], start, end)|
      ensures status.Ok? ==> count <= capacity && points == InRange(snapshot[series], start, end)
      ensures status.BufferTooSmall? ==> count > capacity
    {
      var fails := Fails();
      DrawnOne(old(failures), failures, fails);
      if fails || series !in snapshot {
        return Failed, 0, [];
      }
      var found := InRange(snapshot[series], start, end);
      status := if |found| > capacity then BufferTooSmall else Ok;
      count, points := |found|, Take(found, capacity);
    }

    method CursorCreate(series: string, start: int, end: int) returns (created: Option<nat>)
      requires open
      modifies this`cursors, this`failures
      ensures Drawn(old(failures), failures)
      ensures created.None? <==> AnyFailed(old(failures), failures) || series !in snapshot
      ensures created.None? ==> cursors == old(cursors)
      ensures created.Some? ==>
                && created.value == |old(cursors)|
                && cursors == old(cursors) + [NativeCursor(series, generation, start, end, end < start, false)]
    {
      var fails := Fails();
      DrawnOne(old(failures), failures, fails);
      if fails || series !in snapshot {
        return None;
      }
      created := Some(|cursors|);
      cursors := cursors + [NativeCursor(series, generation, start, end, end < start, false)];
    }

    /** Only for a live cursor of the present snapshot. A failed call may already have moved the cursor. */
    method CursorNext(c: nat, capacity: nat) returns (ok: bool, points: seq<Point>, complete: bool)
      requires Valid() && open && capacity > 0
      requires c < |cursors| && !cursors[c].destroyed && cursors[c].generation == generation && cursors[c].series in snapshot
      modifies this`cursors, this`failures
      ensures Drawn(old(failures), failures) && ok == !AnyFailed(old(failures), failures)
      ensures |cursors| == |old(cursors)| && cursors == old(cursors)[c := cursors[c]]
      ensures !cursors[c].destroyed && cursors[c].generation == generation && cursors[c].series == old(cursors[c].series)
      ensures ok ==>
                var found := Remaining(old(cursors[c]), snapshot[cursors[c].series]);
                && points == Take(found, capacity)
                && Remaining(cursors[c], snapshot[cursors[c].series]) == found[|points|..]
                && (complete ==> |found| == |points|)
                && (|points| < capacity ==> complete)
    {
      hide Stored, InRange, Remaining, Drawn, AnyFailed, Advanced, DrewOne;
      var series := snapshot[cursors[c].series];
      var found := Remaining(cursors[c], series);
      AdvancedResumes(cursors[c], series, capacity, mapped);
      cursors := cursors[c := Advanced(cursors[c], series, capacity, mapped)];
      var fails := Fails();
      DrawnOne(old(failures), failures, fails);
      if fails {
        return false, [], false;
      }
      ok, points, complete := true, Take(found, capacity), cursors[c].complete;
    }

    method CursorDestroy(c: nat)
      requires c < |cursors| && !cursors[c].destroyed
      modifies this`cursors
      ensures cursors == old(cursors)[c := old(cursors[c]).(destroyed := true)]
    {
      cursors := cursors[c := cursors[c].(destroyed := true)];
    }

    method Refresh() returns (ok: bool, changed: bool)
      requires Valid() && open
      modifies this`snapshot, this`generation, this`arrivals
      ensures Valid()
      ensures ok == (old(arrivals) == [] || !old(arrivals)[0].Unreadable?) && changed == (old(arrivals) != [] && old(arrivals)[0].Adopted?)
      ensures arrivals == Later(old(arrivals))
      ensures generation == if changed then old(generation) + 1 else old(generation)
      ensures snapshot == if changed then old(arrivals)[0].snapshot else old(snapshot)
    {
      ok, changed := true, false;
      if arrivals != [] {
        var arrival := arrivals[0];
        ok, changed := !arrival.Unreadable?, arrival.Adopted?;
        if changed {
          snapshot, generation := arrival.snapshot, generation + 1;
        }
        arrivals := arrivals[1..];
      }
    }

    method Close()
      requires open
      modifies this`open
      ensures !open
    {
      open := false;
    }
  }

  // ---- The client ----

  datatype Fault = Closed | Stale | InvalidValue | Unsupported | Native

  /** What a refresh answers: nothing to adopt, a newer snapshot adopted, or a failure that changes nothing. */
  function Refreshed(handle: bool, arrivals: seq<Arrival>): Option<bool> {
    if !handle then None
    else if arrivals == [] then Some(false)
    else if arrivals[0].Unreadable? then None
    else Some(arrivals[0].Adopted?)
  }

  /** Why a generator is refused: its arguments first, then the library, then the reader. */
  function Refusal(start: int, end: int, batchSize: int, stateful: bool, handle: bool): Option<Fault> {
    if !(1 <= batchSize <= BATCH_MAX && I64_MIN <= start <= I64_MAX && I64_MIN <= end <= I64_MAX) then Some(InvalidValue)
    else if !stateful then Some(Unsupported)
    else if !handle then Some(Closed)
    else None
  }

  /** Arguments a generator can be made with: a buffer of 64-bit words that fits the address space, and two signed 64-bit bounds. */
  ghost predicate Usable(start: int, end: int, batchSize: int) {
    && 1 <= batchSize && 8 * batchSize <= 0x7fff_ffff_ffff_ffff
    && -0x8000_0000_0000_0000 <= start < 0x8000_0000_0000_0000
    && -0x8000_0000_0000_0000 <= end < 0x8000_0000_0000_0000
  }

  /** Why a generator is refused, in numbers. */
  lemma UsableNumbers(start: int, end: int, batchSize: int)
    ensures Usable(start, end, batchSize) <==> 1 <= batchSize <= BATCH_MAX && I64_MIN <= start <= I64_MAX && I64_MIN <= end <= I64_MAX
    ensures BATCH_MAX == 1152921504606846975
  {
  }

  /** The first condition that fails decides, and no other fault is raised. */
  lemma RefusalMeans(start: int, end: int, batchSize: int, stateful: bool, handle: bool)
    ensures var refusal := Refusal(start, end, batchSize, stateful, handle);
            && (refusal.None? <==> Usable(start, end, batchSize) && stateful && handle)
            && (refusal == Some(InvalidValue) <==> !Usable(start, end, batchSize))
            && (refusal == Some(Unsupported) <==> Usable(start, end, batchSize) && !stateful)
            && (refusal == Some(Closed) <==> Usable(start, end, batchSize) && stateful && !handle)
  {
    UsableNumbers(start, end, batchSize);
  }

  class Reader {
    const native: NativeReader
    /** Whether the handle is still there. */
    var handle: bool
    var epoch: nat

    ghost predicate Valid()
      reads this, native
    {
      native.Valid() && handle == native.open
    }

    constructor (native: NativeReader)
      requires native.Valid() && native.open
      ensures Valid() && this.native == native && handle && epoch == 0
    {
      this.native, handle, epoch := native, true, 0;
    }

    /** The library refuses the null handle of a closed reader. */
    method Refresh() returns (outcome: Option<bool>)
      requires Valid()
      modifies this`epoch, native`snapshot, native`generation, native`arrivals
      ensures Valid()
      ensures outcome == Refreshed(handle, old(native.arrivals))
      ensures outcome == Some(true) <==> handle && old(native.arrivals) != [] && old(native.arrivals)[0].Adopted?
      ensures outcome.None? <==> !handle || (old(native.arrivals) != [] && old(native.arrivals)[0].Unreadable?)
      ensures native.arrivals == if handle then Later(old(native.arrivals)) else old(native.arrivals)
      ensures epoch == if outcome == Some(true) then old(epoch) + 1 else old(epoch)
      ensures native.snapshot == if outcome == Some(true) then old(native.arrivals)[0].snapshot else old(native.snapshot)
      ensures native.generation == if outcome == Some(true) then old(native.generation) + 1 else old(native.generation)
    {
      if !handle {
        return None;
      }
      var ok, changed := native.Refresh();
      if !ok {
        return None;
      }
      if changed {
        epoch := epoch + 1;
      }
      outcome := Some(changed);
    }

    /** All points of an inclusive range. The second request always fits. */
    method Range(series: string, start: int, end: int) returns (points: Option<seq<Point>>, ghost requests: nat)
      requires Valid()
      modifies native`failures
      ensures Valid() && requests <= 2
      ensures Drawn(old(native.failures), native.failures)
      ensures points.Some? <==> handle && series in native.snapshot && !AnyFailed(old(native.failures), native.failures)
      ensures points.Some? ==> points.value == InRange(native.snapshot[series], start, end)
    {
      DrawnNone(native.failures);
      if !handle {
        return None, 0;
      }
      var capacity := 1024;
      requests := 0;
      while true
        invariant Valid() && requests <= 1
        invariant Drawn(old(native.failures), native.failures) && !AnyFailed(old(native.failures), native.failures)
        invariant requests == 1 ==> series in native.snapshot && capacity == |InRange(native.snapshot[series], start, end)|
        decreases 1 - requests
      {
        ghost var answers := native.failures;
        var status, count, found := native.Range(series, start, end, capacity);
        DrawnTwice(old(native.failures), answers, native.failures);
        requests := requests + 1;
        if status.BufferTooSmall? {
          capacity := count;
          continue;
        }
        points := if status.Ok? then Some(found) else None;
        return;
      }
    }

    method Close()
      requires Valid()
      modifies this`handle, native`open
      ensures Valid() && !handle
    {
      if handle {
        handle := false;
        native.Close();
      }
    }

    function CheckIteration(at: nat): (fault: Option<Fault>)
      reads this
      ensures fault.None? <==> handle && epoch == at
      ensures fault.Some? ==> fault.value == if handle then Stale else Closed
    {
      if !handle then Some(Closed) else if at != epoch then Some(Stale) else None
    }

    /** Argument checks, then a generator that has done nothing yet. */
    method IterRange(series: string, start: int, end: int, batchSize: int, stateful: bool)
      returns (fault: Option<Fault>, generator: RangeIterator?)
      requires Valid()
      ensures fault == Refusal(start, end, batchSize, stateful, handle)
      ensures generator != null <==> Usable(start, end, batchSize) && stateful && handle
      ensures fault == Some(InvalidValue) <==> !Usable(start, end, batchSize)
      ensures fault == Some(Unsupported) <==> Usable(start, end, batchSize) && !stateful
      ensures fault == Some(Closed) <==> Usable(start, end, batchSize) && stateful && !handle
      ensures fault.None? <==> generator != null
      ensures generator != null ==>
                && fresh(generator) && generator.reader == this && generator.Valid()
                && generator.phase.NotStarted? && generator.cursor.None? && generator.yielded == [] && generator.snapshot == native.snapshot
                && generator.epoch == epoch
                && generator.series == series && generator.start == start && generator.end == end && generator.batchSize == batchSize
    {
      generator := null;
      UsableNumbers(start, end, batchSize);
      if batchSize < 1 || batchSize > BATCH_MAX {
        return Some(InvalidValue), null;
      }
      if !(I64_MIN <= start <= I64_MAX) || !(I64_MIN <= end <= I64_MAX) {
        return Some(InvalidValue), null;
      }
      if !stateful {
        return Some(Unsupported), null;
      }
      fault := CheckIteration(epoch);
      if fault.None? {
        generator := new RangeIterator(this, series, start, end, batchSize);
      }
    }
  }

  datatype Phase = NotStarted | Suspended | Done

  datatype Step = Yielded(point: Point) | Stopped | Raised(fault: Fault)

  /** A generator's own state, with what it has given so far. */
  datatype Frame = Frame(series: string, start: int, end: int, snapshot: Snapshot, phase: Phase, cursor: Option<nat>,
                         chunk: seq<Point>, index: nat, complete: bool, yielded: seq<Point>)
  {
    /** What `Range` returns on the snapshot the generator was made from. */
    function Whole(): seq<Point> {
      if series in snapshot then InRange(snapshot[series], start, end) else []
    }
  }

  /** What a caller can tell of a generator: the range it stands for, and how far it has come. */
  datatype Gen = Gen(whole: seq<Point>, known: bool, epoch: nat, begun: bool, given: nat, over: bool)

  function Summary(f: Frame, epoch: nat): Gen {
    Gen(f.Whole(), f.series in f.snapshot, epoch, !f.phase.NotStarted?, |f.yielded|, f.phase.Done?)
  }

  /**
   How a resumption may end. A generator that was cut off raises, unless it had given everything and knew it;
   otherwise it gives the next point of its range, stops after the last, or raises a failure of the library's.
   */
  ghost predicate Fits(gen: Gen, handle: bool, epoch: nat, step: Step, failed: bool) {
    if gen.over then step == Stopped && !failed
    else if !handle || gen.epoch != epoch then
      && !failed
      && (step == Raised(if handle then Stale else Closed) || (step == Stopped && gen.begun && gen.given == |gen.whole|))
    else if failed || (!gen.begun && !gen.known) then step == Raised(Native)
    else step == if gen.given < |gen.whole| then Yielded(gen.whole[gen.given]) else Stopped
  }

  function Stepped(gen: Gen, step: Step): Gen {
    gen.(begun := true, given := if step.Yielded? then gen.given + 1 else gen.given, over := !step.Yielded?)
  }

  function Halted(gen: Gen): Gen { gen.(begun := true, over := true) }

  /** Given, buffered and remaining points make the whole range; a finished generator has destroyed its cursor. */
  ghost predicate FrameOk(f: Frame, cursors: seq<NativeCursor>) {
    && f.yielded <= f.Whole()
    && (f.phase.NotStarted? ==> f.cursor.None?)
    && (f.cursor.None? ==> f.yielded == [])
    && (f.cursor.Some? ==> f.cursor.value < |cursors| && (cursors[f.cursor.value].destroyed <==> f.phase.Done?))
    && (f.phase.Suspended? ==>
          && f.cursor.Some? && f.series in f.snapshot && f.index <= |f.chunk| && cursors[f.cursor.value].series == f.series
          && f.yielded + f.chunk[f.index..] + Remaining(cursors[f.cursor.value], f.snapshot[f.series]) == f.Whole()
          && (f.complete ==> Remaining(cursors[f.cursor.value], f.snapshot[f.series]) == []))
  }

  /** While nothing has cut it off, the generator's snapshot and cursor are the reader's present ones. */
  ghost predicate LiveOk(f: Frame, cursors: seq<NativeCursor>, snapshot: Snapshot, generation: nat) {
    && f.snapshot == snapshot
    && (f.phase.Suspended? && f.cursor.Some? && f.cursor.value < |cursors| ==> cursors[f.cursor.value].generation == generation)
  }

  /** No cursor but `own` was touched, and at most `own` was made. */
  ghost predicate OnlyOwn(before: seq<NativeCursor>, after: seq<NativeCursor>, own: Option<nat>) {
    && |before| <= |after|
    && (forall i :: 0 <= i < |before| && own != Some(i) ==> after[i] == before[i])
    && (forall i :: |before| <= i < |after| ==> own == Some(i))
  }

  class RangeIterator {
    const reader: Reader
    const series: string
    const start: int
    const end: int
    const batchSize: nat
    const epoch: nat
    var phase: Phase
    var cursor: Option<nat>
    var chunk: seq<Point>
    var index: nat
    var complete: bool
    ghost const snapshot: Snapshot
    ghost var yielded: seq<Point>

    ghost function State(): Frame
      reads this
    {
      Frame(series, start, end, snapshot, phase, cursor, chunk, index, complete, yielded)
    }

    ghost function Seen(): Gen
      reads this
    {
      Summary(State(), epoch)
    }

    ghost predicate Live()
      reads reader
    {
      reader.handle && epoch == reader.epoch
    }

    ghost predicate Valid()
      reads this, reader, reader.native
    {
      && reader.Valid() && batchSize >= 1 && epoch <= reader.epoch && (phase.Suspended? ==> index <= |chunk|)
      && FrameOk(State(), reader.native.cursors)
      && (Live() ==> LiveOk(State(), reader.native.cursors, reader.native.snapshot, reader.native.generation))
    }

    constructor (reader: Reader, series: string, start: int, end: int, batchSize: nat)
      requires reader.Valid() && batchSize >= 1
      ensures this.reader == reader && Valid() && phase.NotStarted? && cursor.None? && yielded == []
      ensures snapshot == reader.native.snapshot && epoch == reader.epoch
      ensures this.series == series && this.start == start && this.end == end && this.batchSize == batchSize
    {
      this.reader, this.series, this.start, this.end, this.batchSize := reader, series, start, end, batchSize;
      epoch, snapshot, yielded := reader.epoch, reader.native.snapshot, [];
      phase, cursor, chunk, index, complete := NotStarted, None, [], 0, false;
    }

    /** Leaving the body, however that happens, runs the clean-up. */
    method Finish()
      requires Valid() && !phase.Done?
      modifies this`phase, reader.native`cursors
      ensures Valid() && phase.Done? && Moved(old(State()), State(), old(reader.native.cursors), reader.native.cursors)
    {
      phase := Done;
      if cursor.Some? {
        reader.native.CursorDestroy(cursor.value);
      }
    }

    /** Make the native cursor. */
    method Begin() returns (fault: Option<Fault>)
      requires Valid() && phase.NotStarted?
      modifies this`phase, this`cursor, this`chunk, this`index, this`complete, reader.native`cursors, reader.native`failures
      ensures Valid() && Moved(old(State()), State(), old(reader.native.cursors), reader.native.cursors)
      ensures if fault.None? then Live() && phase.Suspended? && index == |chunk| && !complete else phase.Done?
      ensures Drawn(old(reader.native.failures), reader.native.failures)
      ensures fault == if !reader.handle then Some(Closed) else if epoch != reader.epoch then Some(Stale)
                       else if AnyFailed(old(reader.native.failures), reader.native.failures) || series !in snapshot then Some(Native)
                       else None
      ensures !Live() ==> !AnyFailed(old(reader.native.failures), reader.native.failures)
    {
      hide Stored, InRange, Drawn, AnyFailed;
      DrawnNone(reader.native.failures);
      fault := reader.CheckIteration(epoch);
      if fault.Some? {
        phase := Done;
        return;
      }
      cursor := reader.native.CursorCreate(series, start, end);
      if cursor.None? {
        phase := Done;
        return Some(Native);
      }
      phase, chunk, index, complete := Suspended, [], 0, false;
      if end < start {
        RangeEmpty(snapshot[series], start, end);
      }
      assert [] + InRange(snapshot[series], start, end) == InRange(snapshot[series], start, end);
    }

    /** Fetch the next chunk. */
    method Fetch() returns (fault: Option<Fault>)
      requires Valid() && phase.Suspended? && index == |chunk| && !complete
      modifies this`phase, this`chunk, this`index, this`complete, reader.native`cursors, reader.native`failures
      ensures Valid() && Moved(old(State()), State(), old(reader.native.cursors), reader.native.cursors)
      ensures if fault.None? then Live() && phase.Suspended? && index == 0 && (chunk == [] ==> complete) else phase.Done?
      ensures Drawn(old(reader.native.failures), reader.native.failures)
      ensures fault == if !reader.handle then Some(Closed) else if epoch != reader.epoch then Some(Stale)
                       else if AnyFailed(old(reader.native.failures), reader.native.failures) then Some(Native) else None
      ensures !Live() ==> !AnyFailed(old(reader.native.failures), reader.native.failures)
    {
      hide Stored, InRange, Remaining, Drawn, AnyFailed;
      DrawnNone(reader.native.failures);
      fault := reader.CheckIteration(epoch);
      if fault.Some? {
        Finish();
        return;
      }
      var ok, points, last := reader.native.CursorNext(cursor.value, batchSize);
      if !ok {
        phase := Done;
        reader.native.CursorDestroy(cursor.value);
        return Some(Native);
      }
      ghost var rest := Remaining(reader.native.cursors[cursor.value], snapshot[series]);
      assert yielded + chunk[index..] == yielded;
      assert yielded + points + rest == State().Whole() by {
        assert points + rest == Remaining(old(reader.native.cursors[cursor.value]), snapshot[series]);
        assert yielded + (points + rest) == yielded + points + rest;
      }
      chunk, index, complete := points, 0, last;
      assert chunk[0..] == points;
    }

    /** Have a point buffered, or leave. */
    method Refill() returns (over: Option<Step>)
      requires Valid() && phase.Suspended?
      modifies this`phase, this`chunk, this`index, this`complete, reader.native`cursors, reader.native`failures
      ensures Valid() && Moved(old(State()), State(), old(reader.native.cursors), reader.native.cursors)
      ensures Drawn(old(reader.native.failures), reader.native.failures)
      ensures over.None? ==>
                && phase.Suspended? && index < |chunk| && series in snapshot
                && !AnyFailed(old(reader.native.failures), reader.native.failures)
      ensures over.Some? ==>
                && phase.Done? && !over.value.Yielded?
                && Fits(old(Seen()), reader.handle, reader.epoch, over.value, AnyFailed(old(reader.native.failures), reader.native.failures))
    {
      hide Remaining, InRange, FrameOk, LiveOk, Stored, Moved, Drawn, AnyFailed, Fits;
      ghost var start, cursors, answers := State(), reader.native.cursors, reader.native.failures;
      MovedNot(start, cursors);
      DrawnNone(answers);
      SuspendedKnown(start, cursors);
      over := None;
      while index == |chunk|
        invariant Valid() && phase.Suspended? && index <= |chunk|
        invariant Moved(start, State(), cursors, reader.native.cursors)
        invariant Drawn(answers, reader.native.failures) && !AnyFailed(answers, reader.native.failures)
        decreases if index < |chunk| then 0 else if complete then 1 else 2
      {
        ghost var state, before, drawn := State(), reader.native.cursors, reader.native.failures;
        if complete {
          WholeGiven(state, before);
          Finish();
          MovedTwice(start, state, State(), cursors, before, reader.native.cursors);
          FitsEnd(old(Seen()), reader.handle, reader.epoch);
          return Some(Stopped);
        }
        var fault := Fetch();
        DrawnTwice(answers, drawn, reader.native.failures);
        MovedTwice(start, state, State(), cursors, before, reader.native.cursors);
        if fault.Some? {
          FitsFault(old(Seen()), reader.handle, reader.epoch, fault.value, AnyFailed(answers, reader.native.failures));
          return Some(Raised(fault.value));
        }
      }
    }

    /** Give the buffered point, unless the reader was closed or changed. */
    method Give() returns (step: Step)
      requires Valid() && phase.Suspended? && index < |chunk| && series in snapshot
      modifies this`phase, this`index, this`yielded, reader.native`cursors
      ensures Valid() && Moved(old(State()), State(), old(reader.native.cursors), reader.native.cursors)
      ensures yielded == old(yielded) + if step.Yielded? then [step.point] else []
      ensures Fits(old(Seen()), reader.handle, reader.epoch, step, false) && Seen() == Stepped(old(Seen()), step)
    {
      hide Remaining, InRange, FrameOk, LiveOk, Stored, Moved, Fits;
      var fault := reader.CheckIteration(epoch);
      if fault.Some? {
        Finish();
        FitsFault(old(Seen()), reader.handle, reader.epoch, fault.value, false);
        return Raised(fault.value);
      }
      GiveOne(State(), reader.native.cursors);
      NextOfWhole(State(), reader.native.cursors);
      FitsGive(Seen(), reader.handle, reader.epoch);
      step := Yielded(chunk[index]);
      yielded := yielded + [chunk[index]];
      index := index + 1;
    }

    /** A generator under way goes on. */
    method Proceed() returns (step: Step)
      requires Valid() && phase.Suspended?
      modifies this`phase, this`chunk, this`index, this`complete, this`yielded, reader.native`cursors, reader.native`failures
      ensures Valid() && Moved(old(State()), State(), old(reader.native.cursors), reader.native.cursors)
      ensures yielded == old(yielded) + if step.Yielded? then [step.point] else []
      ensures Drawn(old(reader.native.failures), reader.native.failures)
      ensures Fits(old(Seen()), reader.handle, reader.epoch, step, AnyFailed(old(reader.native.failures), reader.native.failures))
      ensures Seen() == Stepped(old(Seen()), step)
    {
      hide Remaining, InRange, FrameOk, LiveOk, Stored, Moved, Drawn, AnyFailed, Fits;
      var over := Refill();
      if over.Some? {
        return over.value;
      }
      ghost var state, before := State(), reader.native.cursors;
      step := Give();
      MovedTwice(old(State()), state, State(), old(reader.native.cursors), before, reader.native.cursors);
    }

    /**
     Resume the generator. A point is given only while the reader is open and unchanged; reaching the end
     means the whole range was given.
     */
    method Next() returns (step: Step)
      requires Valid()
      modifies this, reader.native`cursors, reader.native`failures
      ensures Valid() && Moved(old(State()), State(), old(reader.native.cursors), reader.native.cursors)
      ensures yielded == old(yielded) + if step.Yielded? then [step.point] else []
      ensures Drawn(old(reader.native.failures), reader.native.failures)
      ensures Fits(old(Seen()), reader.handle, reader.epoch, step, AnyFailed(old(reader.native.failures), reader.native.failures))
      ensures Seen() == Stepped(old(Seen()), step)
    {
      hide Remaining, InRange, FrameOk, LiveOk, Stored, Moved, Drawn, AnyFailed, Fits;
      ghost var start, cursors, answers := State(), reader.native.cursors, reader.native.failures;
      MovedNot(start, cursors);
      DrawnNone(answers);
      if phase.Done? {
        FitsOver(Seen(), reader.handle, reader.epoch);
        return Stopped;
      }
      if phase.NotStarted? {
        var fault := Begin();
        if fault.Some? {
          FitsFault(old(Seen()), reader.handle, reader.epoch, fault.value, AnyFailed(answers, reader.native.failures));
          return Raised(fault.value);
        }
      }
      ghost var state, before, drawn := State(), reader.native.cursors, reader.native.failures;
      SuspendedKnown(state, before);
      step := Proceed();
      MovedTwice(start, state, State(), cursors, before, reader.native.cursors);
      DrawnTwice(answers, drawn, reader.native.failures);
      FitsBegun(old(Seen()), reader.handle, reader.epoch, step, AnyFailed(answers, reader.native.failures));
    }

    /** `generator.close()`: raised at the suspended yield, it runs the clean-up. */
    method Stop()
      requires Valid()
      modifies this`phase, reader.native`cursors
      ensures Valid() && phase.Done? && Moved(old(State()), State(), old(reader.native.cursors), reader.native.cursors)
      ensures Seen() == Halted(old(Seen()))
    {
      if !phase.Done? {
        Finish();
      }
    }
  }

  lemma MovedNot(f: Frame, cursors: seq<NativeCursor>)
    requires FrameOk(f, cursors)
    ensures Moved(f, f, cursors, cursors)
  {
  }

  lemma MovedTwice(f: Frame, g: Frame, h: Frame, before: seq<NativeCursor>, middle: seq<NativeCursor>, after: seq<NativeCursor>)
    requires Moved(f, g, before, middle) && Moved(g, h, middle, after)
    ensures Moved(f, h, before, after)
  {
    hide FrameOk;
  }

  /** With nothing buffered and nothing remaining, everything was given. */
  lemma WholeGiven(f: Frame, cursors: seq<NativeCursor>)
    requires FrameOk(f, cursors) && f.phase.Suspended? && f.index == |f.chunk| && f.complete
    ensures f.series in f.snapshot && f.yielded == InRange(f.snapshot[f.series], f.start, f.end)
  {
    hide Remaining, InRange;
    assert f.yielded + f.chunk[f.index..] + [] == f.yielded;
  }

  lemma FitsOver(gen: Gen, handle: bool, epoch: nat)
    requires gen.over
    ensures Fits(gen, handle, epoch, Stopped, false)
  {
  }

  lemma FitsFault(gen: Gen, handle: bool, epoch: nat, fault: Fault, failed: bool)
    requires !gen.over && (!(handle && gen.epoch == epoch) ==> !failed)
    requires fault == if !handle then Closed else if gen.epoch != epoch then Stale else Native
    requires handle && gen.epoch == epoch ==> failed || (!gen.begun && !gen.known)
    ensures Fits(gen, handle, epoch, Raised(fault), failed)
  {
  }

  lemma FitsEnd(gen: Gen, handle: bool, epoch: nat)
    requires !gen.over && (gen.begun || (gen.known && handle && gen.epoch == epoch)) && gen.given == |gen.whole|
    ensures Fits(gen, handle, epoch, Stopped, false)
  {
  }

  lemma FitsGive(gen: Gen, handle: bool, epoch: nat)
    requires !gen.over && handle && gen.epoch == epoch && (gen.begun || gen.known) && gen.given < |gen.whole|
    ensures Fits(gen, handle, epoch, Yielded(gen.whole[gen.given]), false)
  {
  }

  /** A generator that just began ends as one that had begun. */
  lemma FitsBegun(gen: Gen, handle: bool, epoch: nat, step: Step, failed: bool)
    requires Fits(gen.(begun := true), handle, epoch, step, failed)
    requires gen.begun || (gen.known && handle && gen.epoch == epoch)
    ensures Fits(gen, handle, epoch, step, failed)
  {
  }

  /** The buffered point is the next of the range. */
  lemma NextOfWhole(f: Frame, cursors: seq<NativeCursor>)
    requires FrameOk(f, cursors) && f.phase.Suspended? && f.index < |f.chunk|
    ensures |f.yielded| < |f.Whole()| && f.Whole()[|f.yielded|] == f.chunk[f.index]
  {
    hide Remaining, InRange;
    var rest := Remaining(cursors[f.cursor.value], f.snapshot[f.series]);
    assert (f.yielded + f.chunk[f.index..] + rest)[|f.yielded|] == f.chunk[f.index];
  }

  lemma SuspendedKnown(f: Frame, cursors: seq<NativeCursor>)
    requires FrameOk(f, cursors) && f.phase.Suspended?
    ensures f.series in f.snapshot
  {
  }

  lemma GiveOne(f: Frame, cursors: seq<NativeCursor>)
    requires FrameOk(f, cursors) && f.phase.Suspended? && f.index < |f.chunk|
    ensures var now := f.(index := f.index + 1, yielded := f.yielded + [f.chunk[f.index]]);
            && FrameOk(now, cursors) && Moved(f, now, cursors, cursors)
            && forall snapshot, generation :: LiveOk(f, cursors, snapshot, generation) ==> LiveOk(now, cursors, snapshot, generation)
  {
    hide Remaining, InRange;
    assert f.chunk[f.index..] == [f.chunk[f.index]] + f.chunk[f.index + 1..];
    var rest := Remaining(cursors[f.cursor.value], f.snapshot[f.series]);
    assert f.yielded + f.chunk[f.index..] + rest == f.yielded + [f.chunk[f.index]] + f.chunk[f.index + 1..] + rest;
  }

  /** A generator keeps its state when only another's cursor is touched. */
  lemma OthersKept(f: Frame, before: seq<NativeCursor>, after: seq<NativeCursor>, own: Option<nat>)
    requires FrameOk(f, before) && OnlyOwn(before, after, own) && (f.cursor.Some? ==> f.cursor != own)
    ensures FrameOk(f, after)
    ensures forall snapshot, generation :: LiveOk(f, before, snapshot, generation) ==> LiveOk(f, after, snapshot, generation)
  {
    hide Remaining, InRange;
  }

  lemma CursorMade(f: Frame, cursors: seq<NativeCursor>)
    requires FrameOk(f, cursors)
    ensures f.cursor.Some? ==> f.cursor.value < |cursors|
  {
  }

  /** Every native cursor belongs to exactly one generator. */
  ghost predicate HerdOk(frames: seq<Frame>, cursors: seq<NativeCursor>) {
    && (forall k :: 0 <= k < |frames| ==> FrameOk(frames[k], cursors))
    && (forall i, j :: 0 <= i < j < |frames| ==> frames[i].cursor.Some? ==> frames[i].cursor != frames[j].cursor)
    && (forall c :: 0 <= c < |cursors| ==> Owned(frames, c))
  }

  ghost predicate Owned(frames: seq<Frame>, c: nat) {
    exists k :: 0 <= k < |frames| && frames[k].cursor == Some(c)
  }

  /** What one generator's move may do to its own frame and to the cursors. */
  ghost predicate Moved(was: Frame, now: Frame, before: seq<NativeCursor>, after: seq<NativeCursor>) {
    && OnlyOwn(before, after, now.cursor) && FrameOk(now, after)
    && (if was.cursor.Some? then now.cursor == was.cursor && |after| == |before|
        else now.cursor.Some? ==> |before| <= now.cursor.value)
  }

  /** One generator moved; all are still well. */
  lemma HerdMoved(frames: seq<Frame>, which: nat, now: Frame, before: seq<NativeCursor>, after: seq<NativeCursor>)
    requires HerdOk(frames, before) && which < |frames| && Moved(frames[which], now, before, after)
    ensures HerdOk(frames[which := now], after)
    ensures forall k :: 0 <= k < |frames| && k != which ==> FrameOk(frames[k], after)
    ensures forall k, snapshot, generation :: 0 <= k < |frames| && k != which && LiveOk(frames[k], before, snapshot, generation) ==>
              LiveOk(frames[k], after, snapshot, generation)
  {
    hide FrameOk, LiveOk;
    forall k | 0 <= k < |frames| && k != which
      ensures FrameOk(frames[k], after) && (frames[k].cursor.Some? ==> frames[k].cursor != now.cursor)
      ensures forall snapshot, generation :: LiveOk(frames[k], before, snapshot, generation) ==> LiveOk(frames[k], after, snapshot, generation)
    {
      CursorMade(frames[k], before);
      OthersKept(frames[k], before, after, now.cursor);
    }
    var moved := frames[which := now];
    forall c | 0 <= c < |after|
      ensures Owned(moved, c)
    {
      OwnedStill(frames, which, now, before, after, c);
    }
  }

  lemma OwnedStill(frames: seq<Frame>, which: nat, now: Frame, before: seq<NativeCursor>, after: seq<NativeCursor>, c: nat)
    requires which < |frames| && Moved(frames[which], now, before, after) && c < |after|
    requires c < |before| ==> Owned(frames, c)
    ensures Owned(frames[which := now], c)
  {
    hide FrameOk;
    if now.cursor == Some(c) {
      assert frames[which := now][which].cursor == Some(c);
    } else {
      var k :| 0 <= k < |frames| && frames[k].cursor == Some(c);
      assert frames[which := now][k].cursor == Some(c);
    }
  }

  ghost function Frames(generators: seq<RangeIterator>): (frames: seq<Frame>)
    reads generators
    ensures |frames| == |generators| && forall k :: 0 <= k < |frames| ==> frames[k] == generators[k].State()
  {
    seq(|generators|, k requires 0 <= k < |generators| reads generators => generators[k].State())
  }

  /** All the generators made from one reader. */
  ghost predicate Herd(reader: Reader, generators: seq<RangeIterator>)
    reads reader, reader.native, generators
  {
    && (forall k :: 0 <= k < |generators| ==> generators[k].reader == reader && generators[k].Valid())
    && (forall i, j :: 0 <= i < j < |generators| ==> generators[i] != generators[j])
    && HerdOk(Frames(generators), reader.native.cursors)
  }

  method ResumeOne(reader: Reader, generators: seq<RangeIterator>, which: nat) returns (step: Step)
    requires Herd(reader, generators) && reader.Valid() && which < |generators|
    modifies generators[which], reader.native`cursors, reader.native`failures
    ensures Herd(reader, generators) && reader.Valid()
    ensures Drawn(old(reader.native.failures), reader.native.failures)
    ensures Fits(old(generators[which].Seen()), reader.handle, reader.epoch, step,
                 AnyFailed(old(reader.native.failures), reader.native.failures))
    ensures Gens(generators) == old(Gens(generators))[which := Stepped(old(generators[which].Seen()), step)]
  {
    hide FrameOk, LiveOk, Stored, OnlyOwn, HerdOk, Fits, Drawn, AnyFailed;
    ghost var frames, before := Frames(generators), reader.native.cursors;
    step := generators[which].Next();
    HerdMoved(frames, which, generators[which].State(), before, reader.native.cursors);
    assert Frames(generators) == frames[which := generators[which].State()];
    forall k | 0 <= k < |generators| && k != which
      ensures generators[k].Valid()
    {
      assert old(generators[k].Valid()) && generators[k].State() == frames[k];
    }
  }

  method StopOne(reader: Reader, generators: seq<RangeIterator>, which: nat)
    requires Herd(reader, generators) && reader.Valid() && which < |generators|
    modifies generators[which], reader.native`cursors
    ensures Herd(reader, generators) && reader.Valid()
    ensures generators[which].phase.Done? && generators[which].yielded == old(generators[which].yielded)
    ensures Gens(generators) == old(Gens(generators))[which := Halted(old(generators[which].Seen()))]
  {
    hide FrameOk, LiveOk, Stored, OnlyOwn, HerdOk;
    ghost var frames, before := Frames(generators), reader.native.cursors;
    generators[which].Stop();
    HerdMoved(frames, which, generators[which].State(), before, reader.native.cursors);
    assert Frames(generators) == frames[which := generators[which].State()];
    forall k | 0 <= k < |generators| && k != which
      ensures generators[k].Valid()
    {
      assert old(generators[k].Valid()) && generators[k].State() == frames[k];
    }
  }

  // ---- Whole sessions, on values ----

  datatype Event =
    | Make(series: string, start: int, end: int, batchSize: int, stateful: bool)
    | Resume(which: nat)
    | Abandon(which: nat)
    | RefreshNow
    | CloseNow

  /** What a caller sees of one event. `Cut` is a refresh that changed the snapshot, or a close. */
  datatype Note =
    | Began(which: nat)
    | Refused(fault: Fault)
    | Told(which: nat, step: Step)
    | Left(which: nat)
    | NoSuch
    | Cut
    | Kept(failed: bool)

  datatype Desk = Desk(handle: bool, epoch: nat, snapshot: Snapshot, arrivals: seq<Arrival>, gens: seq<Gen>)

  /** The note an event deserves, given whether one of the library's answers to it was a failure. */
  ghost predicate Rightly(desk: Desk, event: Event, note: Note, failed: bool) {
    match event
    case Make(_, start, end, batchSize, stateful) =>
      var refusal := Refusal(start, end, batchSize, stateful, desk.handle);
      !failed && note == if refusal.Some? then Refused(refusal.value) else Began(|desk.gens|)
    case Resume(which) =>
      if which < |desk.gens| then
        note.Told? && note.which == which && Fits(desk.gens[which], desk.handle, desk.epoch, note.step, failed)
      else
        !failed && note == NoSuch
    case Abandon(which) => !failed && note == if which < |desk.gens| then Left(which) else NoSuch
    case RefreshNow =>
      var outcome := Refreshed(desk.handle, desk.arrivals);
      !failed && note == if outcome == Some(true) then Cut else Kept(outcome.None?)
    case CloseNow => !failed && note == Cut
  }

  /** The desk once an event was noted. */
  function Turned(desk: Desk, event: Event, note: Note): Desk {
    match event
    case Make(series, start, end, _, _) =>
      if !note.Began? then desk
      else
        var whole := if series in desk.snapshot then InRange(desk.snapshot[series], start, end) else [];
        desk.(gens := desk.gens + [Gen(whole, series in desk.snapshot, desk.epoch, false, 0, false)])
    case Resume(which) =>
      if which < |desk.gens| && note.Told? then desk.(gens := desk.gens[which := Stepped(desk.gens[which], note.step)]) else desk
    case Abandon(which) =>
      if which < |desk.gens| then desk.(gens := desk.gens[which := Halted(desk.gens[which])]) else desk
    case RefreshNow =>
      if Refreshed(desk.handle, desk.arrivals) == Some(true) then
        desk.(epoch := desk.epoch + 1, snapshot := desk.arrivals[0].snapshot, arrivals := Later(desk.arrivals))
      else if desk.handle then desk.(arrivals := Later(desk.arrivals))
      else desk
    case CloseNow => desk.(handle := false)
  }

  /** The desk after the first `n` events. */
  function DeskAt(desk: Desk, events: seq<Event>, notes: seq<Note>, n: nat): Desk
    requires n <= |events| && n <= |notes|
  {
    if n == 0 then desk else Turned(DeskAt(desk, events, notes, n - 1), events[n - 1], notes[n - 1])
  }

  /** Every event got the note it deserves; `answers[i]` is what the library still had to answer before event `i`. */
  ghost predicate Followed(desk: Desk, events: seq<Event>, notes: seq<Note>, answers: seq<seq<bool>>) {
    && |notes| == |events| && |answers| == |events| + 1
    && (forall i :: 0 <= i < |events| ==> NotedAt(desk, events, notes, answers, i))
  }

  ghost predicate NotedAt(desk: Desk, events: seq<Event>, notes: seq<Note>, answers: seq<seq<bool>>, i: nat)
    requires i < |events| && i < |notes| && i + 1 < |answers|
  {
    && Drawn(answers[i], answers[i + 1])
    && Rightly(DeskAt(desk, events, notes, i), events[i], notes[i], AnyFailed(answers[i], answers[i + 1]))
  }

  lemma {:induction false} DeskPrefix(desk: Desk, events: seq<Event>, notes: seq<Note>, more: seq<Event>, later: seq<Note>, n: nat)
    requires n <= |events| && n <= |notes| && events <= more && notes <= later
    ensures DeskAt(desk, more, later, n) == DeskAt(desk, events, notes, n)
  {
    if n > 0 {
      DeskPrefix(desk, events, notes, more, later, n - 1);
    }
  }

  /** One more event, rightly noted. */
  lemma FollowedNext(desk: Desk, events: seq<Event>, notes: seq<Note>, answers: seq<seq<bool>>, event: Event, note: Note, after: seq<bool>)
    requires Followed(desk, events, notes, answers)
    requires Drawn(answers[|events|], after)
    requires Rightly(DeskAt(desk, events, notes, |events|), event, note, AnyFailed(answers[|events|], after))
    ensures Followed(desk, events + [event], notes + [note], answers + [after])
    ensures DeskAt(desk, events + [event], notes + [note], |events| + 1) == Turned(DeskAt(desk, events, notes, |events|), event, note)
  {
    hide Drawn, AnyFailed, Rightly, Turned;
    var more, later, drawn := events + [event], notes + [note], answers + [after];
    forall i | 0 <= i < |more|
      ensures NotedAt(desk, more, later, drawn, i)
    {
      DeskPrefix(desk, events, notes, more, later, i);
      assert i < |events| ==> NotedAt(desk, events, notes, answers, i);
    }
    DeskPrefix(desk, events, notes, more, later, |events|);
  }

  /** What stays put: a reader only closes, its epoch only grows, and a generator keeps its range and its epoch. */
  lemma {:induction false} DeskGrows(desk: Desk, events: seq<Event>, notes: seq<Note>, i: nat, j: nat)
    requires i <= j <= |events| && j <= |notes|
    ensures var was, now := DeskAt(desk, events, notes, i), DeskAt(desk, events, notes, j);
            && (now.handle ==> was.handle) && was.epoch <= now.epoch && |was.gens| <= |now.gens|
            && forall k :: 0 <= k < |was.gens| ==>
                 now.gens[k].whole == was.gens[k].whole && now.gens[k].epoch == was.gens[k].epoch
  {
    hide InRange;
    if i < j {
      DeskGrows(desk, events, notes, i, j - 1);
    }
  }

  /** A reader is open until a close. */
  lemma {:induction false} OpenUntilClose(desk: Desk, events: seq<Event>, notes: seq<Note>, n: nat)
    requires n <= |events| && n <= |notes|
    ensures DeskAt(desk, events, notes, n).handle <==> desk.handle && CloseNow !in events[..n]
  {
    hide InRange, Refreshed;
    if n > 0 {
      OpenUntilClose(desk, events, notes, n - 1);
      assert events[..n] == events[..n - 1] + [events[n - 1]];
    }
  }

  /**
   A session's generators are begun exactly for usable arguments on a library with cursors and before the close, and
   are numbered in turn; a refusal names the first condition that fails.
   */
  lemma MakeNoted(desk: Desk, events: seq<Event>, notes: seq<Note>, answers: seq<seq<bool>>, i: nat)
    requires Followed(desk, events, notes, answers) && i < |notes| && events[i].Make?
    ensures var usable := Usable(events[i].start, events[i].end, events[i].batchSize);
            var open := desk.handle && CloseNow !in events[..i];
            && (notes[i] == Began(|DeskAt(desk, events, notes, i).gens|) <==> usable && events[i].stateful && open)
            && (notes[i] == Refused(InvalidValue) <==> !usable)
            && (notes[i] == Refused(Unsupported) <==> usable && !events[i].stateful)
            && (notes[i] == Refused(Closed) <==> usable && events[i].stateful && !open)
  {
    hide Drawn, AnyFailed, DeskAt, Refusal, Usable;
    assert NotedAt(desk, events, notes, answers, i);
    OpenUntilClose(desk, events, notes, i);
    RefusalMeans(events[i].start, events[i].end, events[i].batchSize, events[i].stateful, DeskAt(desk, events, notes, i).handle);
  }

  /** A refresh cuts exactly when the reader is open and a newer snapshot arrives, and fails exactly on a closed reader or an unreadable one. */
  lemma RefreshNoted(desk: Desk, events: seq<Event>, notes: seq<Note>, answers: seq<seq<bool>>, i: nat)
    requires Followed(desk, events, notes, answers) && i < |notes| && events[i].RefreshNow?
    ensures var arrivals := DeskAt(desk, events, notes, i).arrivals;
            var open := desk.handle && CloseNow !in events[..i];
            && (notes[i].Cut? <==> open && arrivals != [] && arrivals[0].Adopted?)
            && (notes[i] == Kept(true) <==> !open || (arrivals != [] && arrivals[0].Unreadable?))
            && (notes[i].Cut? || notes[i].Kept?)
  {
    hide Drawn, AnyFailed, DeskAt;
    assert NotedAt(desk, events, notes, answers, i);
    OpenUntilClose(desk, events, notes, i);
  }

  /** A point is given only on an open reader, in the generator's own epoch. */
  lemma GaveLive(desk: Desk, events: seq<Event>, notes: seq<Note>, answers: seq<seq<bool>>, j: nat)
    requires Followed(desk, events, notes, answers) && j < |notes| && notes[j].Told? && notes[j].step.Yielded?
    ensures var now := DeskAt(desk, events, notes, j);
            && notes[j].which < |now.gens| && now.handle && now.gens[notes[j].which].epoch == now.epoch
  {
    hide Drawn, AnyFailed, DeskAt;
    assert NotedAt(desk, events, notes, answers, j);
  }

  /** A generator begins in the epoch of the moment; a cut moves the epoch on or closes the reader. */
  lemma BeganAndCut(desk: Desk, events: seq<Event>, notes: seq<Note>, answers: seq<seq<bool>>, i: nat)
    requires Followed(desk, events, notes, answers) && i < |notes|
    ensures var was, now := DeskAt(desk, events, notes, i), DeskAt(desk, events, notes, i + 1);
            && (notes[i].Began? ==> notes[i].which < |now.gens| && now.gens[notes[i].which].epoch == was.epoch == now.epoch)
            && (notes[i].Cut? ==> !now.handle || was.epoch < now.epoch)
  {
    hide Drawn, AnyFailed, Fits, InRange;
    assert NotedAt(desk, events, notes, answers, i);
  }

  /** No generator gives a point after a cut that came after its beginning. */
  ghost predicate NothingAfterCut(notes: seq<Note>) {
    forall b, i, j :: 0 <= b < i < j < |notes| && notes[b].Began? && notes[i].Cut? && notes[j].Told? && notes[j].step.Yielded? ==>
      notes[j].which != notes[b].which
  }

  lemma NotesCut(desk: Desk, events: seq<Event>, notes: seq<Note>, answers: seq<seq<bool>>)
    requires Followed(desk, events, notes, answers)
    ensures NothingAfterCut(notes)
  {
    hide Followed, DeskAt;
    forall b, i, j | 0 <= b < i < j < |notes| && notes[b].Began? && notes[i].Cut? && notes[j].Told? && notes[j].step.Yielded?
      ensures notes[j].which != notes[b].which
    {
      NotedLengths(desk, events, notes, answers);
      BeganAndCut(desk, events, notes, answers, b);
      BeganAndCut(desk, events, notes, answers, i);
      GaveLive(desk, events, notes, answers, j);
      DeskGrows(desk, events, notes, b + 1, i);
      DeskGrows(desk, events, notes, i + 1, j);
      DeskGrows(desk, events, notes, b + 1, j);
    }
  }

  lemma NotedLengths(desk: Desk, events: seq<Event>, notes: seq<Note>, answers: seq<seq<bool>>)
    requires Followed(desk, events, notes, answers)
    ensures |notes| == |events| && |answers| == |events| + 1
  {
  }

  /** The points noted for one generator, in order. */
  function GivenBy(notes: seq<Note>, which: nat): seq<Point> {
    if notes == [] then []
    else
      var last := notes[|notes| - 1];
      GivenBy(notes[..|notes| - 1], which) + if last.Told? && last.which == which && last.step.Yielded? then [last.step.point] else []
  }

  /** What a generator was noted to give is the first part of its range. */
  ghost predicate Counted(gens: seq<Gen>, notes: seq<Note>) {
    && (forall k :: 0 <= k < |gens| ==> gens[k].given <= |gens[k].whole| && GivenBy(notes, k) == gens[k].whole[..gens[k].given])
    && (forall k :: k >= |gens| ==> GivenBy(notes, k) == [])
  }

  lemma {:induction false} NotesCount(desk: Desk, events: seq<Event>, notes: seq<Note>, answers: seq<seq<bool>>, n: nat)
    requires Followed(desk, events, notes, answers) && n <= |notes| && desk.gens == []
    ensures Counted(DeskAt(desk, events, notes, n).gens, notes[..n])
  {
    hide GivenBy, Rightly, Turned, Drawn, AnyFailed, Counted;
    if n == 0 {
      NothingCounted(notes[..0]);
    } else {
      NotesCount(desk, events, notes, answers, n - 1);
      assert NotedAt(desk, events, notes, answers, n - 1);
      assert notes[..n] == notes[..n - 1] + [notes[n - 1]];
      CountOne(DeskAt(desk, events, notes, n - 1), events[n - 1], notes[..n - 1], notes[n - 1], AnyFailed(answers[n - 1], answers[n]));
    }
  }

  lemma NothingCounted(notes: seq<Note>)
    requires notes == []
    ensures Counted([], notes)
  {
    forall k: nat
      ensures GivenBy(notes, k) == []
    {
    }
  }

  lemma CountOne(desk: Desk, event: Event, notes: seq<Note>, note: Note, failed: bool)
    requires Counted(desk.gens, notes) && Rightly(desk, event, note, failed)
    ensures Counted(Turned(desk, event, note).gens, notes + [note])
  {
    hide GivenBy, InRange, Refusal, Refreshed;
    forall k: nat
      ensures GivenBy(notes + [note], k) == GivenBy(notes, k) + if note.Told? && note.which == k && note.step.Yielded? then [note.step.point] else []
    {
      GivenLast(notes, note, k);
    }
  }

  lemma GivenLast(notes: seq<Note>, note: Note, which: nat)
    ensures GivenBy(notes + [note], which) ==
            GivenBy(notes, which) + if note.Told? && note.which == which && note.step.Yielded? then [note.step.point] else []
  {
    assert (notes + [note])[..|notes|] == notes;
  }

  /** Whether a note ends a generator. */
  predicate Ends(note: Note, which: nat) {
    (note.Left? && note.which == which) || (note.Told? && note.which == which && !note.step.Yielded?)
  }

  lemma {:induction false} NotOver(desk: Desk, events: seq<Event>, notes: seq<Note>, answers: seq<seq<bool>>, which: nat, n: nat)
    requires Followed(desk, events, notes, answers) && n <= |notes| && desk.gens == []
    requires forall i :: 0 <= i < n ==> !Ends(notes[i], which)
    ensures which < |DeskAt(desk, events, notes, n).gens| ==> !DeskAt(desk, events, notes, n).gens[which].over
  {
    hide InRange, Drawn, AnyFailed, Fits;
    if n > 0 {
      NotOver(desk, events, notes, answers, which, n - 1);
      assert NotedAt(desk, events, notes, answers, n - 1);
    }
  }

  /** A generator that nothing had ended and that stops has given its whole range. */
  lemma StoppedGaveAll(desk: Desk, events: seq<Event>, notes: seq<Note>, answers: seq<seq<bool>>, n: nat)
    requires Followed(desk, events, notes, answers) && n < |notes| && desk.gens == []
    requires notes[n].Told? && notes[n].step.Stopped? && forall i :: 0 <= i < n ==> !Ends(notes[i], notes[n].which)
    ensures var now := DeskAt(desk, events, notes, n);
            notes[n].which < |now.gens| && GivenBy(notes[..n], notes[n].which) == now.gens[notes[n].which].whole
  {
    hide DeskAt, GivenBy, Drawn, AnyFailed;
    assert NotedAt(desk, events, notes, answers, n);
    NotOver(desk, events, notes, answers, notes[n].which, n);
    NotesCount(desk, events, notes, answers, n);
  }

  // ---- Whole sessions, carried out ----

  ghost function Gens(generators: seq<RangeIterator>): (gens: seq<Gen>)
    reads generators
    ensures |gens| == |generators| && forall k :: 0 <= k < |gens| ==> gens[k] == generators[k].Seen()
  {
    seq(|generators|, k requires 0 <= k < |generators| reads generators => generators[k].Seen())
  }

  ghost function Look(reader: Reader, generators: seq<RangeIterator>): Desk
    reads reader, reader.native, generators
  {
    Desk(reader.handle, reader.epoch, reader.native.snapshot, reader.native.arrivals, Gens(generators))
  }

  method RefreshAll(reader: Reader, generators: seq<RangeIterator>) returns (note: Note)
    requires Herd(reader, generators) && reader.Valid()
    modifies reader`epoch, reader.native`snapshot, reader.native`generation, reader.native`arrivals
    ensures Herd(reader, generators) && reader.Valid()
    ensures Rightly(old(Look(reader, generators)), RefreshNow, note, false)
    ensures Look(reader, generators) == Turned(old(Look(reader, generators)), RefreshNow, note)
  {
    hide FrameOk, LiveOk, Stored, HerdOk;
    ghost var frames := Frames(generators);
    var outcome := reader.Refresh();
    note := if outcome == Some(true) then Cut else Kept(outcome.None?);
    assert Frames(generators) == frames;
    assert Gens(generators) == old(Gens(generators));
    forall k | 0 <= k < |generators|
      ensures generators[k].Valid()
    {
      assert old(generators[k].Valid()) && generators[k].State() == frames[k];
    }
  }

  method CloseAll(reader: Reader, generators: seq<RangeIterator>)
    requires Herd(reader, generators) && reader.Valid()
    modifies reader`handle, reader.native`open
    ensures Herd(reader, generators) && reader.Valid()
    ensures Look(reader, generators) == old(Look(reader, generators)).(handle := false)
  {
    hide FrameOk, LiveOk, Stored, HerdOk;
    ghost var frames := Frames(generators);
    reader.Close();
    assert Frames(generators) == frames;
    assert Gens(generators) == old(Gens(generators));
    forall k | 0 <= k < |generators|
      ensures generators[k].Valid()
    {
      assert old(generators[k].Valid()) && generators[k].State() == frames[k];
    }
  }

  method MakeOne(reader: Reader, generators: seq<RangeIterator>, event: Event) returns (all: seq<RangeIterator>, note: Note)
    requires Herd(reader, generators) && reader.Valid() && event.Make?
    ensures Herd(reader, all) && reader.Valid()
    ensures forall k :: 0 <= k < |all| ==> all[k] in generators || fresh(all[k])
    ensures Rightly(Look(reader, generators), event, note, false)
    ensures Look(reader, all) == Turned(Look(reader, generators), event, note)
  {
    hide FrameOk, LiveOk, Stored, HerdOk, InRange;
    var fault, made := reader.IterRange(event.series, event.start, event.end, event.batchSize, event.stateful);
    if made == null {
      return generators, Refused(fault.value);
    }
    all, note := generators + [made], Began(|generators|);
    assert Frames(all) == Frames(generators) + [made.State()];
    assert Gens(all) == Gens(generators) + [made.Seen()];
    HerdGrows(Frames(generators), made.State(), reader.native.cursors);
  }

  lemma HerdGrows(frames: seq<Frame>, made: Frame, cursors: seq<NativeCursor>)
    requires HerdOk(frames, cursors) && FrameOk(made, cursors) && made.cursor.None?
    ensures HerdOk(frames + [made], cursors)
  {
    hide FrameOk;
    var all := frames + [made];
    forall c | 0 <= c < |cursors|
      ensures Owned(all, c)
    {
      assert Owned(frames, c);
      var k :| 0 <= k < |frames| && frames[k].cursor == Some(c);
      assert all[k].cursor == Some(c);
    }
  }

  /** When every generator is done, every native cursor that was made has been destroyed. */
  lemma AllDestroyed(frames: seq<Frame>, cursors: seq<NativeCursor>)
    requires HerdOk(frames, cursors) && forall k :: 0 <= k < |frames| ==> frames[k].phase.Done?
    ensures forall c :: 0 <= c < |cursors| ==> cursors[c].destroyed
  {
    forall c | 0 <= c < |cursors|
      ensures cursors[c].destroyed
    {
      assert Owned(frames, c);
      var k :| 0 <= k < |frames| && frames[k].cursor == Some(c);
      assert FrameOk(frames[k], cursors);
    }
  }

  /** Close every generator, as a caller stopping early must. */
  method StopAll(reader: Reader, generators: seq<RangeIterator>)
    requires Herd(reader, generators) && reader.Valid()
    modifies generators, reader.native`cursors
    ensures Herd(reader, generators) && reader.Valid()
    ensures forall c :: 0 <= c < |reader.native.cursors| ==> reader.native.cursors[c].destroyed
    ensures forall k :: 0 <= k < |generators| ==> generators[k].yielded == old(generators[k].yielded)
    ensures forall k :: 0 <= k < |generators| ==> generators[k].Seen() == Halted(old(generators[k].Seen()))
  {
    hide Herd, FrameOk, LiveOk, Stored, HerdOk, Halted, Summary;
    for i := 0 to |generators|
      invariant Herd(reader, generators) && reader.Valid()
      invariant forall k :: 0 <= k < i ==> generators[k].phase.Done?
      invariant forall k :: 0 <= k < |generators| ==> generators[k].yielded == old(generators[k].yielded)
      invariant forall k :: 0 <= k < |generators| ==>
                  generators[k].Seen() == if k < i then Halted(old(generators[k].Seen())) else old(generators[k].Seen())
    {
      HerdFrames(reader, generators);
      StopOne(reader, generators, i);
    }
    HerdFrames(reader, generators);
    AllDestroyed(Frames(generators), reader.native.cursors);
  }

  lemma HerdFrames(reader: Reader, generators: seq<RangeIterator>)
    requires Herd(reader, generators)
    ensures HerdOk(Frames(generators), reader.native.cursors)
    ensures forall i, j :: 0 <= i < j < |generators| ==> generators[i] != generators[j]
  {
    hide HerdOk;
  }

  /** One event of a session. */
  method Serve(reader: Reader, generators: seq<RangeIterator>, event: Event) returns (all: seq<RangeIterator>, note: Note)
    requires Herd(reader, generators) && reader.Valid()
    modifies reader, reader.native, generators
    ensures Herd(reader, all) && reader.Valid()
    ensures forall k :: 0 <= k < |all| ==> all[k] in generators || fresh(all[k])
    ensures Drawn(old(reader.native.failures), reader.native.failures)
    ensures Rightly(old(Look(reader, generators)), event, note, AnyFailed(old(reader.native.failures), reader.native.failures))
    ensures Look(reader, all) == Turned(old(Look(reader, generators)), event, note)
  {
    hide Herd, Fits, Drawn, AnyFailed, InRange, Refreshed, Refusal;
    all := generators;
    DrawnNone(reader.native.failures);
    match event {
      case Make(_, _, _, _, _) =>
        all, note := MakeOne(reader, generators, event);
      case Resume(which) =>
        if which < |generators| {
          var step := ResumeOne(reader, generators, which);
          note := Told(which, step);
        } else {
          note := NoSuch;
        }
      case Abandon(which) =>
        if which < |generators| {
          StopOne(reader, generators, which);
          note := Left(which);
        } else {
          note := NoSuch;
        }
      case RefreshNow =>
        note := RefreshAll(reader, generators);
      case CloseNow =>
        CloseAll(reader, generators);
        note := Cut;
    }
  }

  /**
   A session of generators, refreshes and closes in any order, with every generator closed at the end. Every
   event gets the note it deserves; what each generator gave is a prefix of its snapshot's range, no generator
   gives a point after a cut, and every native cursor is destroyed; `CursorDestroy` accepts each only once.
   */
  method Session(reader: Reader, events: seq<Event>)
    returns (generators: seq<RangeIterator>, notes: seq<Note>, ghost answers: seq<seq<bool>>)
    requires reader.Valid() && reader.native.cursors == []
    modifies reader, reader.native
    ensures Followed(old(Look(reader, [])), events, notes, answers)
    ensures answers[0] == old(reader.native.failures) && answers[|events|] == reader.native.failures
    ensures var desk := DeskAt(old(Look(reader, [])), events, notes, |events|);
            && desk.handle == reader.handle && desk.epoch == reader.epoch && desk.snapshot == reader.native.snapshot
            && desk.arrivals == reader.native.arrivals && |desk.gens| == |generators|
            && forall k :: 0 <= k < |generators| ==> generators[k].Seen() == Halted(desk.gens[k])
    ensures forall k :: 0 <= k < |generators| ==> GivenBy(notes, k) == generators[k].yielded <= generators[k].State().Whole()
    ensures NothingAfterCut(notes)
    ensures forall c :: 0 <= c < |reader.native.cursors| ==> reader.native.cursors[c].destroyed
    ensures forall k :: 0 <= k < |generators| && generators[k].yielded != [] ==>
              generators[k].cursor.Some? && generators[k].cursor.value < |reader.native.cursors|
  {
    hide Herd, Rightly, Turned, Drawn, AnyFailed, FrameOk, Followed, DeskAt, NothingAfterCut, GivenBy, Counted, Halted, Summary;
    ghost var start := Look(reader, []);
    generators, notes, answers := [], [], [reader.native.failures];
    StartHerd(reader, generators);
    NothingFollowed(start, answers);
    assert Look(reader, generators) == start;
    for i := 0 to |events|
      invariant Herd(reader, generators) && reader.Valid() && fresh(generators)
      invariant Followed(start, events[..i], notes, answers) && |notes| == i && |answers| == i + 1
      invariant answers[0] == old(reader.native.failures) && answers[i] == reader.native.failures
      invariant Look(reader, generators) == DeskAt(start, events[..i], notes, i)
    {
      assert events[..i + 1] == events[..i] + [events[i]];
      var note;
      generators, note := Serve(reader, generators, events[i]);
      FollowedNext(start, events[..i], notes, answers, events[i], note, reader.native.failures);
      notes, answers := notes + [note], answers + [reader.native.failures];
    }
    assert events[..|events|] == events;
    NotesCut(start, events, notes, answers);
    NotesCount(start, events, notes, answers, |notes|);
    assert notes[..|notes|] == notes;
    GivenTold(reader, generators, notes);
    StopAll(reader, generators);
    CursorsOwned(reader, generators);
  }

  lemma GivenTold(reader: Reader, generators: seq<RangeIterator>, notes: seq<Note>)
    requires Herd(reader, generators) && Counted(Gens(generators), notes)
    ensures forall k :: 0 <= k < |generators| ==> GivenBy(notes, k) == generators[k].yielded <= generators[k].State().Whole()
  {
    hide Herd, FrameOk, GivenBy;
    forall k | 0 <= k < |generators|
      ensures GivenBy(notes, k) == generators[k].yielded <= generators[k].State().Whole()
    {
      assert Gens(generators)[k] == generators[k].Seen();
      HerdFrame(reader, generators, k);
      GivenPrefix(generators[k].State(), reader.native.cursors);
    }
  }

  lemma CursorsOwned(reader: Reader, generators: seq<RangeIterator>)
    requires Herd(reader, generators)
    ensures forall k :: 0 <= k < |generators| && generators[k].yielded != [] ==>
              generators[k].cursor.Some? && generators[k].cursor.value < |reader.native.cursors|
  {
    hide Herd, FrameOk;
    forall k | 0 <= k < |generators|
      ensures generators[k].yielded != [] ==> generators[k].cursor.Some? && generators[k].cursor.value < |reader.native.cursors|
    {
      HerdFrame(reader, generators, k);
      GivenPrefix(generators[k].State(), reader.native.cursors);
    }
  }

  lemma NothingFollowed(desk: Desk, answers: seq<seq<bool>>)
    requires |answers| == 1
    ensures Followed(desk, [], [], answers) && DeskAt(desk, [], [], 0) == desk
  {
  }

  lemma StartHerd(reader: Reader, generators: seq<RangeIterator>)
    requires generators == [] && reader.native.cursors == []
    ensures Herd(reader, generators)
  {
  }

  lemma HerdFrame(reader: Reader, generators: seq<RangeIterator>, k: nat)
    requires Herd(reader, generators) && k < |generators|
    ensures FrameOk(generators[k].State(), reader.native.cursors)
  {
  }

  lemma GivenPrefix(f: Frame, cursors: seq<NativeCursor>)
    requires FrameOk(f, cursors)
    ensures f.yielded <= f.Whole() && f.yielded == f.Whole()[..|f.yielded|]
    ensures f.yielded != [] ==> f.cursor.Some? && f.cursor.value < |cursors|
  {
  }
}

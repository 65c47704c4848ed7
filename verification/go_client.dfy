/**
 The Go client's readers, prepared series and cursors. The native library insists, as preconditions, on what
 it cannot check: an open reader, a series or cursor of that reader's present snapshot, a live cursor state.
 */
module GoClient {
  import opened Objects
  import opened Options
  import opened Ranges
  import L = Lookup

  // ---- The native library ----

  datatype NativeReader = NativeReader(open: bool, generation: nat, snapshot: Snapshot)

  datatype NativeSeries = NativeSeries(reader: nat, generation: nat, name: string)

  datatype NativeCursor = NativeCursor(reader: nat, generation: nat, destroyed: bool)

  /** Reader `h` can be asked. */
  ghost predicate IsOpen(readers: seq<NativeReader>, h: nat) {
    h < |readers| && readers[h].open
  }

  /** A generation of reader `h` is still its present one. */
  ghost predicate Current(readers: seq<NativeReader>, h: nat, reader: nat, generation: nat) {
    IsOpen(readers, h) && reader == h && generation == readers[h].generation
  }

  /** Only reader `h` was touched. */
  ghost predicate OnlyReader(before: seq<NativeReader>, after: seq<NativeReader>, h: nat) {
    |before| <= |after| && forall i :: 0 <= i < |before| && i != h ==> after[i] == before[i]
  }

  datatype Fault =
    | Closed | StaleSeries | EmptySeries | MismatchedLengths | InvalidCapacity | InvalidArgument | WrongHandle | RangeGrew | NativeFault

  /** Whether the next call meets a failure, and what the calls after it meet; a spent list means success. */
  function Fails(failures: seq<bool>): bool { failures != [] && failures[0] }

  function Left(failures: seq<bool>): seq<bool> { if failures == [] then [] else failures[1..] }

  function Met(arrivals: seq<Arrival>): Arrival { if arrivals == [] then Unchanged else arrivals[0] }

  function Later(arrivals: seq<Arrival>): seq<Arrival> { if arrivals == [] then [] else arrivals[1..] }

  /** The answer to a range call, and the failures the calls after it will meet. */
  datatype Ranged = Ranged(count: nat, points: seq<Point>, fault: Option<Fault>, left: seq<bool>)

  function NativeRange(snapshot: Snapshot, name: string, start: int, end: int, capacity: nat, failures: seq<bool>): Ranged {
    if Fails(failures) || name !in snapshot then Ranged(0, [], Some(NativeFault), Left(failures))
    else
      var found := InRange(snapshot[name], start, end);
      Ranged(|found|, Take(found, capacity), None, Left(failures))
  }

  /** The caller-buffer form, behind whatever check comes first. */
  function RangedInto(check: Option<Fault>, snapshot: Snapshot, name: string, start: int, end: int, timestamps: nat, values: nat,
                      failures: seq<bool>): Ranged {
    if check.Some? then Ranged(0, [], check, failures)
    else if timestamps != values then Ranged(0, [], Some(MismatchedLengths), failures)
    else NativeRange(snapshot, name, start, end, timestamps, failures)
  }

  /** The allocating form: count, then fetch. */
  function RangedWhole(check: Option<Fault>, snapshot: Snapshot, name: string, start: int, end: int, failures: seq<bool>): Ranged {
    if check.Some? then Ranged(0, [], check, failures)
    else
      var sized := NativeRange(snapshot, name, start, end, 0, failures);
      if sized.fault.Some? || sized.count == 0 then Ranged(0, [], sized.fault, sized.left)
      else
        var fetched := NativeRange(snapshot, name, start, end, sized.count, sized.left);
        if fetched.fault.Some? then Ranged(0, [], Some(NativeFault), fetched.left)
        else Ranged(fetched.count, fetched.points, None, fetched.left)
  }

  /** The allocating form succeeds unless the check or a call it makes fails, and then gives the whole range. */
  lemma RangedMeans(check: Option<Fault>, snapshot: Snapshot, name: string, start: int, end: int, failures: seq<bool>)
    ensures var r := RangedWhole(check, snapshot, name, start, end, failures);
            var first := failures != [] && failures[0];
            var second := |failures| > 1 && failures[1];
            && (r.fault.None? <==>
                  && check.None? && name in snapshot && !first
                  && (second ==> InRange(snapshot[name], start, end) == []))
            && (r.fault.None? ==> r.points == InRange(snapshot[name], start, end) && r.count == |r.points|)
            && (r.fault.Some? ==> r.points == [] && r.fault == if check.Some? then check else Some(NativeFault))
            && r.left == (if check.Some? || failures == [] then failures
                          else if first || name !in snapshot || InRange(snapshot[name], start, end) == [] || |failures| == 1
                          then failures[1..] else failures[2..])
  {
    hide InRange;
  }

  /** So does the caller-buffer form, with one call, whether or not the points fit. */
  lemma RangedIntoMeans(check: Option<Fault>, snapshot: Snapshot, name: string, start: int, end: int, timestamps: nat, values: nat,
                        failures: seq<bool>)
    ensures var r := RangedInto(check, snapshot, name, start, end, timestamps, values, failures);
            && (r.fault.None? <==> check.None? && timestamps == values && name in snapshot && (failures == [] || !failures[0]))
            && (r.fault.None? ==>
                  && r.count == |InRange(snapshot[name], start, end)|
                  && r.points == Take(InRange(snapshot[name], start, end), timestamps))
            && (r.fault.Some? ==>
                  && r.points == [] && r.count == 0
                  && r.fault == if check.Some? then check else if timestamps != values then Some(MismatchedLengths) else Some(NativeFault))
            && r.left == (if check.Some? || timestamps != values || failures == [] then failures else failures[1..])
  {
    hide InRange;
  }

  datatype Chosen = Chosen(point: Option<Point>, fault: Option<Fault>, left: seq<bool>)

  function NativeLookup(snapshot: Snapshot, name: string, target: int, mode: L.Mode, limit: Option<nat>, failures: seq<bool>): Chosen {
    if Fails(failures) || name !in snapshot then Chosen(None, Some(NativeFault), Left(failures))
    else Chosen(L.ReferencePython(snapshot[name], target, mode, limit), None, Left(failures))
  }

  /** The modes are numbered; larger numbers are refused before any call. */
  function ModeOf(mode: nat): Option<L.Mode> {
    match mode
    case 0 => Some(L.Exact)
    case 1 => Some(L.Predecessor)
    case 2 => Some(L.Successor)
    case 3 => Some(L.Nearest)
    case _ => None
  }

  /**
   What a lookup without a limit gives, by the number of its mode. 0: the point at the target. 1: the last at or before
   it. 2: the first at or after it. 3: the closest, the earlier of two as close. None exactly when there is no such point.
   */
  ghost predicate Finds(points: seq<Point>, target: int, mode: nat, point: Option<Point>) {
    && (point.Some? ==> point.value in points)
    && match mode
       case 0 => if point.Some? then point.value.timestamp == target else forall q :: q in points ==> q.timestamp != target
       case 1 =>
         if point.None? then forall q :: q in points ==> q.timestamp > target
         else
           && point.value.timestamp <= target
           && forall q :: q in points && q.timestamp <= target ==> q.timestamp <= point.value.timestamp
       case 2 =>
         if point.None? then forall q :: q in points ==> q.timestamp < target
         else
           && point.value.timestamp >= target
           && forall q :: q in points && q.timestamp >= target ==> q.timestamp >= point.value.timestamp
       case 3 =>
         if point.None? then points == []
         else
           forall q :: q in points ==>
             var near, far := L.Gap(point.value.timestamp, target), L.Gap(q.timestamp, target);
             near < far || (near == far && point.value.timestamp <= q.timestamp)
       case _ => false
  }

  /** With a limit, the point found is given only if it is no further than that; another one never is. */
  ghost predicate FindsWithin(points: seq<Point>, target: int, mode: nat, limit: Option<nat>, point: Option<Point>) {
    if limit.None? then Finds(points, target, mode, point)
    else if point.Some? then Finds(points, target, mode, point) && L.Gap(point.value.timestamp, target) <= limit.value
    else
      || Finds(points, target, mode, None)
      || exists p :: p in points && Finds(points, target, mode, Some(p)) && L.Gap(p.timestamp, target) > limit.value
  }

  /** The numbers mean what they should, and there are four of them. */
  lemma ModesMean(points: seq<Point>, target: int, mode: nat, limit: Option<nat>, point: Option<Point>)
    ensures ModeOf(mode).Some? <==> mode <= 3
    ensures ModeOf(mode).Some? && L.Selects(points, target, ModeOf(mode).value, limit, point) ==>
              FindsWithin(points, target, mode, limit, point)
  {
    if ModeOf(mode).Some? && L.Selects(points, target, ModeOf(mode).value, limit, point) {
      if point.Some? {
        ClosestIs(points, target, mode, point.value);
      } else if !L.NoneEligible(points, target, ModeOf(mode).value) {
        var p :| L.Closest(points, target, ModeOf(mode).value, p) && L.Gap(p.timestamp, target) > limit.value;
        ClosestIs(points, target, mode, p);
      } else if points != [] {
        assert points[0] in points;
      }
    }
  }

  lemma ClosestIs(points: seq<Point>, target: int, mode: nat, p: Point)
    requires ModeOf(mode).Some? && L.Closest(points, target, ModeOf(mode).value, p)
    ensures p in points && Finds(points, target, mode, Some(p))
  {
  }

  /** The lookup of the library, by number. */
  lemma LooksUp(snapshot: Snapshot, name: string, target: int, mode: nat, limit: Option<nat>, failures: seq<bool>)
    requires ModeOf(mode).Some?
    ensures var c := NativeLookup(snapshot, name, target, ModeOf(mode).value, limit, failures);
            && c.left == (if failures == [] then [] else failures[1..])
            && (c.fault.None? <==> name in snapshot && (failures == [] || !failures[0]))
            && (c.fault.Some? ==> c.fault == Some(NativeFault) && c.point.None?)
            && (c.fault.None? ==> FindsWithin(snapshot[name], target, mode, limit, c.point))
  {
    if name in snapshot {
      ModesMean(snapshot[name], target, mode, limit, L.ReferencePython(snapshot[name], target, ModeOf(mode).value, limit));
    }
  }

  class Native {
    var readers: seq<NativeReader>
    var cursors: seq<NativeCursor>
    /** What the next calls meet: failures, exhaustion and newer snapshots. */
    var failures: seq<bool>
    var arrivals: seq<Arrival>

    constructor (failures: seq<bool>, arrivals: seq<Arrival>)
      ensures readers == [] && cursors == [] && this.failures == failures && this.arrivals == arrivals
    {
      readers, cursors := [], [];
      this.failures, this.arrivals := failures, arrivals;
    }

    method Flip() returns (flip: bool)
      modifies this`failures
      ensures flip == Fails(old(failures)) && failures == Left(old(failures))
    {
      flip := false;
      if failures != [] {
        flip, failures := failures[0], failures[1..];
      }
    }

    method OpenReader(snapshot: Snapshot) returns (handle: Option<nat>)
      modifies this`readers, this`failures
      ensures handle == if Fails(old(failures)) then None else Some(|old(readers)|)
      ensures readers == if handle.None? then old(readers) else old(readers) + [NativeReader(true, 0, snapshot)]
      ensures failures == Left(old(failures))
    {
      var failed := Flip();
      if failed {
        return None;
      }
      handle := Some(|readers|);
      readers := readers + [NativeReader(true, 0, snapshot)];
    }

    /** The handle is gone whatever the status. */
    method CloseReader(h: nat) returns (ok: bool)
      requires IsOpen(readers, h)
      modifies this`readers, this`failures
      ensures readers == old(readers)[h := old(readers[h]).(open := false)]
      ensures ok == !Fails(old(failures)) && failures == Left(old(failures))
    {
      var failed := Flip();
      ok := !failed;
      readers := readers[h := readers[h].(open := false)];
    }

    method Refresh(h: nat) returns (ok: bool, changed: bool)
      requires IsOpen(readers, h)
      modifies this`readers, this`arrivals
      ensures ok == !Met(old(arrivals)).Unreadable? && changed == Met(old(arrivals)).Adopted?
      ensures arrivals == Later(old(arrivals))
      ensures readers == if changed then old(readers)[h := NativeReader(true, old(readers[h].generation) + 1, Met(old(arrivals)).snapshot)]
                         else old(readers)
    {
      ok, changed := true, false;
      if arrivals != [] {
        var arrival := arrivals[0];
        ok, changed, arrivals := !arrival.Unreadable?, arrival.Adopted?, arrivals[1..];
        if changed {
          readers := readers[h := NativeReader(true, readers[h].generation + 1, arrival.snapshot)];
        }
      }
    }

    /** The required count, and as many points as fit; a short buffer is not an error to these wrappers. */
    method Range(h: nat, series: string, start: int, end: int, capacity: nat) returns (ok: bool, count: nat, points: seq<Point>)
      requires IsOpen(readers, h)
      modifies this`failures
      ensures Ranged(count, points, if ok then None else Some(NativeFault), failures) ==
              NativeRange(readers[h].snapshot, series, start, end, capacity, old(failures))
    {
      var failed := Flip();
      if failed || series !in readers[h].snapshot {
        return false, 0, [];
      }
      var found := InRange(readers[h].snapshot[series], start, end);
      ok, count, points := true, |found|, Take(found, capacity);
    }

    method PrepareSeries(h: nat, series: string) returns (prepared: Option<NativeSeries>)
      requires IsOpen(readers, h)
      modifies this`failures
      ensures prepared == if Fails(old(failures)) || series !in readers[h].snapshot then None
                          else Some(NativeSeries(h, readers[h].generation, series))
      ensures failures == Left(old(failures))
    {
      var failed := Flip();
      prepared := if failed || series !in readers[h].snapshot then None
                  else Some(NativeSeries(h, readers[h].generation, series));
    }

    method RangePrepared(h: nat, prepared: NativeSeries, start: int, end: int, capacity: nat)
      returns (ok: bool, count: nat, points: seq<Point>)
      requires Current(readers, h, prepared.reader, prepared.generation) && prepared.name in readers[h].snapshot
      modifies this`failures
      ensures Ranged(count, points, if ok then None else Some(NativeFault), failures) ==
              NativeRange(readers[h].snapshot, prepared.name, start, end, capacity, old(failures))
    {
      ok, count, points := Range(h, prepared.name, start, end, capacity);
    }

    method LookupByName(h: nat, name: string, target: int, mode: L.Mode, limit: Option<nat>)
      returns (point: Option<Point>, fault: Option<Fault>)
      requires IsOpen(readers, h)
      modifies this`failures
      ensures Chosen(point, fault, failures) == NativeLookup(readers[h].snapshot, name, target, mode, limit, old(failures))
    {
      var failed := Flip();
      if failed || name !in readers[h].snapshot {
        return None, Some(NativeFault);
      }
      point, fault := L.ReferencePython(readers[h].snapshot[name], target, mode, limit), None;
    }

    method LookupPrepared(h: nat, prepared: NativeSeries, target: int, mode: L.Mode, limit: Option<nat>)
      returns (point: Option<Point>, fault: Option<Fault>)
      requires Current(readers, h, prepared.reader, prepared.generation) && prepared.name in readers[h].snapshot
      modifies this`failures
      ensures Chosen(point, fault, failures) == NativeLookup(readers[h].snapshot, prepared.name, target, mode, limit, old(failures))
    {
      point, fault := LookupByName(h, prepared.name, target, mode, limit);
    }

    method CursorCreate(h: nat, series: string) returns (created: Option<nat>)
      requires IsOpen(readers, h)
      modifies this`cursors, this`failures
      ensures created == if Fails(old(failures)) || series !in readers[h].snapshot then None else Some(|old(cursors)|)
      ensures cursors == if created.None? then old(cursors) else old(cursors) + [NativeCursor(h, readers[h].generation, false)]
      ensures failures == Left(old(failures))
    {
      var failed := Flip();
      if failed || series !in readers[h].snapshot {
        return None;
      }
      created := Some(|cursors|);
      cursors := cursors + [NativeCursor(h, readers[h].generation, false)];
    }

    /** A failing call never reports completion. */
    method CursorNext(h: nat, c: nat, capacity: nat) returns (ok: bool, count: nat, complete: bool)
      requires c < |cursors| && !cursors[c].destroyed && Current(readers, h, cursors[c].reader, cursors[c].generation) && capacity > 0
      modifies this`failures
      ensures ok == !Fails(old(failures)) && complete == (ok && Fails(Left(old(failures))))
      ensures count == if ok && !complete then capacity else 0
      ensures failures == if ok then Left(Left(old(failures))) else Left(old(failures))
    {
      var failed := Flip();
      if failed {
        return false, 0, false;
      }
      var last := Flip();
      ok, count, complete := true, if last then 0 else capacity, last;
    }

    method CursorDestroy(c: nat)
      requires c < |cursors| && !cursors[c].destroyed
      modifies this`cursors
      ensures cursors == old(cursors)[c := old(cursors[c]).(destroyed := true)]
    {
      cursors := cursors[c := cursors[c].(destroyed := true)];
    }
  }

  // ---- The client ----

  class Reader {
    const native: Native
    var handle: Option<nat>
    var epoch: nat

    /** A handle still held is open. */
    ghost predicate Valid()
      reads this, native`readers
    {
      handle.Some? ==> IsOpen(native.readers, handle.value)
    }

    constructor (native: Native, handle: nat)
      requires IsOpen(native.readers, handle)
      ensures Valid() && this.native == native && this.handle == Some(handle) && epoch == 0
    {
      this.native, this.handle, epoch := native, Some(handle), 0;
    }

    /** A change moves the native generation and the epoch together. */
    method Refresh() returns (changed: bool, fault: Option<Fault>)
      requires Valid()
      modifies this`epoch, native`readers, native`arrivals
      ensures Valid()
      ensures fault == if handle.None? then Some(Closed) else if Met(old(native.arrivals)).Unreadable? then Some(NativeFault) else None
      ensures changed <==> handle.Some? && Met(old(native.arrivals)).Adopted?
      ensures changed <==> handle.Some? && old(native.arrivals) != [] && old(native.arrivals)[0].Adopted?
      ensures fault == Some(Closed) <==> handle.None?
      ensures fault == Some(NativeFault) <==> handle.Some? && old(native.arrivals) != [] && old(native.arrivals)[0].Unreadable?
      ensures native.arrivals == if handle.None? then old(native.arrivals) else Later(old(native.arrivals))
      ensures epoch == old(epoch) + if changed then 1 else 0
      ensures native.readers ==
              if changed then
                var h := handle.value;
                old(native.readers)[h := NativeReader(true, old(native.readers[h].generation) + 1, Met(old(native.arrivals)).snapshot)]
              else old(native.readers)
    {
      if handle.None? {
        return false, Some(Closed);
      }
      var ok;
      ok, changed := native.Refresh(handle.value);
      if ok && changed {
        epoch := epoch + 1;
      }
      fault := if ok then None else Some(NativeFault);
    }

    /** What is checked before a call about a series by name. */
    function Asks(series: string): (fault: Option<Fault>)
      reads this
      ensures fault.None? ==> handle.Some? && series != ""
    {
      if handle.None? then Some(Closed) else if series == "" then Some(EmptySeries) else None
    }

    /** The snapshot of the native reader held, if one is. */
    function Snapshot(): Snapshot
      reads this, native`readers
      requires Valid()
    {
      if handle.None? then map[] else native.readers[handle.value].snapshot
    }

    method RangeInto(series: string, start: int, end: int, timestamps: nat, values: nat)
      returns (required: nat, points: seq<Point>, fault: Option<Fault>)
      requires Valid()
      modifies native`failures
      ensures Ranged(required, points, fault, native.failures) ==
              RangedInto(Asks(series), Snapshot(), series, start, end, timestamps, values, old(native.failures))
      ensures fault.None? ==>
                && handle.Some? && series in Snapshot()
                && required == |InRange(Snapshot()[series], start, end)|
                && points == Take(InRange(Snapshot()[series], start, end), timestamps)
    {
      if handle.None? {
        return 0, [], Some(Closed);
      }
      if series == "" {
        return 0, [], Some(EmptySeries);
      }
      if timestamps != values {
        return 0, [], Some(MismatchedLengths);
      }
      var ok;
      ok, required, points := native.Range(handle.value, series, start, end, timestamps);
      fault := if ok then None else Some(NativeFault);
    }

    /** Count, allocate, fetch. The result is the whole range; the growth the last check guards against cannot happen. */
    method Range(series: string, start: int, end: int) returns (points: seq<Point>, fault: Option<Fault>)
      requires Valid()
      modifies native`failures
      ensures Ranged(|points|, points, fault, native.failures) ==
              RangedWhole(Asks(series), Snapshot(), series, start, end, old(native.failures))
      ensures fault.None? ==>
                handle.Some? && series in Snapshot() && points == InRange(Snapshot()[series], start, end)
      ensures fault != Some(RangeGrew)
    {
      var required, none, fault' := RangeInto(series, start, end, 0, 0);
      if fault'.Some? || required == 0 {
        return [], fault';
      }
      var ok, actual, found := native.Range(handle.value, series, start, end, required);
      if !ok {
        return [], Some(NativeFault);
      }
      if actual > required {
        return [], Some(RangeGrew);
      }
      return found[..actual], None;
    }

    method Lookup(series: string, target: int, mode: nat, limit: Option<nat>) returns (point: Option<Point>, fault: Option<Fault>)
      requires Valid()
      modifies native`failures
      ensures Chosen(point, fault, native.failures) ==
              if Asks(series).Some? then Chosen(None, Asks(series), old(native.failures))
              else if ModeOf(mode).None? then Chosen(None, Some(InvalidArgument), old(native.failures))
              else NativeLookup(Snapshot(), series, target, ModeOf(mode).value, limit, old(native.failures))
      ensures fault == Some(Closed) <==> handle.None?
      ensures fault == Some(EmptySeries) <==> handle.Some? && series == ""
      ensures fault == Some(InvalidArgument) <==> handle.Some? && series != "" && mode > 3
      ensures fault.None? <==>
                && handle.Some? && series != "" && mode <= 3 && series in Snapshot()
                && (old(native.failures) == [] || !old(native.failures)[0])
      ensures fault.None? ==> FindsWithin(Snapshot()[series], target, mode, limit, point)
      ensures fault.Some? ==> point.None? && fault.value in {Closed, EmptySeries, InvalidArgument, NativeFault}
    {
      ModesMean([], target, mode, limit, None);
      if ModeOf(mode).Some? {
        LooksUp(Snapshot(), series, target, mode, limit, native.failures);
      }
      hide ModeOf, NativeLookup, FindsWithin;
      if Asks(series).Some? {
        return None, Asks(series);
      }
      if ModeOf(mode).None? {
        return None, Some(InvalidArgument);
      }
      point, fault := native.LookupByName(handle.value, series, target, ModeOf(mode).value, limit);
    }

    /** A series serves a lookup exactly on its own open, unchanged reader. */
    method LookupPrepared(series: Series, target: int, mode: nat, limit: Option<nat>) returns (point: Option<Point>, fault: Option<Fault>)
      requires Valid() && series.Valid()
      modifies native`failures
      ensures Chosen(point, fault, native.failures) ==
              if series.LookupReady(this).Some? then Chosen(None, series.LookupReady(this), old(native.failures))
              else if ModeOf(mode).None? then Chosen(None, Some(InvalidArgument), old(native.failures))
              else NativeLookup(Snapshot(), series.handle.name, target, ModeOf(mode).value, limit, old(native.failures))
      ensures fault == Some(Closed) <==> handle.None? || series.reader.handle.None?
      ensures fault == Some(StaleSeries) <==>
                handle.Some? && series.reader.handle.Some? && series.epoch != series.reader.epoch
      ensures fault == Some(WrongHandle) <==>
                handle.Some? && series.reader.handle.Some? && series.epoch == series.reader.epoch && series.reader != this
      ensures fault == Some(InvalidArgument) <==>
                series.reader == this && handle.Some? && series.epoch == epoch && mode > 3
      ensures fault.None? <==>
                && series.reader == this && handle.Some? && series.epoch == epoch && mode <= 3
                && (old(native.failures) == [] || !old(native.failures)[0])
      ensures fault.None? ==>
                && series.handle.name in Snapshot()
                && FindsWithin(Snapshot()[series.handle.name], target, mode, limit, point)
      ensures fault.Some? ==>
                point.None? && fault.value in {Closed, StaleSeries, WrongHandle, InvalidArgument, NativeFault}
    {
      ModesMean([], target, mode, limit, None);
      if ModeOf(mode).Some? {
        LooksUp(Snapshot(), series.handle.name, target, mode, limit, native.failures);
      }
      hide ModeOf, NativeLookup, FindsWithin;
      if series.LookupReady(this).Some? {
        return None, series.LookupReady(this);
      }
      if ModeOf(mode).None? {
        return None, Some(InvalidArgument);
      }
      point, fault := native.LookupPrepared(handle.value, series.handle, target, ModeOf(mode).value, limit);
    }

    method PrepareSeries(series: string) returns (prepared: Series?, fault: Option<Fault>)
      requires Valid()
      modifies native`failures
      ensures Valid() && (prepared != null <==> fault.None?)
      ensures prepared != null ==> fresh(prepared) && prepared.reader == this && prepared.Valid()
      ensures fault == if Asks(series).Some? then Asks(series)
                       else if Fails(old(native.failures)) || series !in Snapshot() then Some(NativeFault) else None
      ensures fault == Some(Closed) <==> handle.None?
      ensures fault == Some(EmptySeries) <==> handle.Some? && series == ""
      ensures fault.None? <==>
                && handle.Some? && series != "" && series in Snapshot() && (old(native.failures) == [] || !old(native.failures)[0])
      ensures prepared != null ==> prepared.epoch == epoch
      ensures prepared != null ==> prepared.handle == NativeSeries(handle.value, native.readers[handle.value].generation, series)
      ensures native.failures == if Asks(series).Some? then old(native.failures) else Left(old(native.failures))
    {
      if handle.None? {
        return null, Some(Closed);
      }
      if series == "" {
        return null, Some(EmptySeries);
      }
      var found := native.PrepareSeries(handle.value, series);
      if found.None? {
        return null, Some(NativeFault);
      }
      prepared := new Series(this, found.value);
      fault := None;
    }

    /** An empty range needs no native state after all. */
    method Cursor(series: string, start: int, end: int) returns (cursor: Cursor?, fault: Option<Fault>)
      requires Valid()
      modifies native`cursors, native`failures
      ensures Valid() && (cursor != null <==> fault.None?)
      ensures cursor != null ==> fresh(cursor) && cursor.reader == this && cursor.Valid() && cursor.epoch == epoch
      ensures cursor != null ==> (cursor.complete <==> end < start)
      ensures cursor != null ==> cursor.native == if end < start then None else Some(|old(native.cursors)|)
      ensures fault == if Asks(series).Some? then Asks(series)
                       else if Fails(old(native.failures)) || series !in Snapshot() then Some(NativeFault) else None
      ensures fault == Some(Closed) <==> handle.None?
      ensures fault == Some(EmptySeries) <==> handle.Some? && series == ""
      ensures fault.None? <==>
                && handle.Some? && series != "" && series in Snapshot() && (old(native.failures) == [] || !old(native.failures)[0])
      ensures native.cursors == if cursor == null then old(native.cursors)
                                else old(native.cursors) +
                                     [NativeCursor(handle.value, native.readers[handle.value].generation, end < start)]
      ensures native.failures == if Asks(series).Some? then old(native.failures) else Left(old(native.failures))
    {
      if handle.None? {
        return null, Some(Closed);
      }
      if series == "" {
        return null, Some(EmptySeries);
      }
      var created := native.CursorCreate(handle.value, series);
      if created.None? {
        return null, Some(NativeFault);
      }
      if end < start {
        native.CursorDestroy(created.value);
        cursor := new Cursor(this, None, true);
      } else {
        cursor := new Cursor(this, created, false);
      }
      fault := None;
    }

    /** Gives up the handle before closing it, so a second call does nothing. */
    method Close() returns (ok: bool)
      requires Valid()
      modifies this`handle, this`epoch, native`readers, native`failures
      ensures Valid() && handle.None?
      ensures old(handle).None? ==> ok && epoch == old(epoch) && native.readers == old(native.readers) && native.failures == old(native.failures)
      ensures old(handle).Some? ==>
                && ok == !Fails(old(native.failures)) && native.failures == Left(old(native.failures))
                && epoch == old(epoch) + 1
                && native.readers == old(native.readers)[old(handle).value := old(native.readers[handle.value]).(open := false)]
    {
      if handle.None? {
        return true;
      }
      var h := handle.value;
      handle := None;
      epoch := epoch + 1;
      ok := native.CloseReader(h);
    }
  }

  class Series {
    const reader: Reader
    const epoch: nat
    const handle: NativeSeries

    /** While the epoch is the reader's, the native series is of its present snapshot. */
    ghost predicate Valid()
      reads this, reader, reader.native`readers
    {
      && reader.Valid() && epoch <= reader.epoch
      && (reader.handle.Some? && epoch == reader.epoch ==>
            && Current(reader.native.readers, reader.handle.value, handle.reader, handle.generation)
            && handle.name in reader.native.readers[reader.handle.value].snapshot)
    }

    constructor (reader: Reader, handle: NativeSeries)
      requires reader.Valid() && reader.handle.Some?
      requires Current(reader.native.readers, reader.handle.value, handle.reader, handle.generation)
      requires handle.name in reader.native.readers[reader.handle.value].snapshot
      ensures Valid() && this.reader == reader && epoch == reader.epoch && this.handle == handle
    {
      this.reader, this.handle, epoch := reader, handle, reader.epoch;
    }

    function Ready(): (fault: Option<Fault>)
      reads this, reader
      ensures fault.None? <==> reader.handle.Some? && epoch == reader.epoch
    {
      if reader.handle.None? then Some(Closed) else if epoch != reader.epoch then Some(StaleSeries) else None
    }

    method RangeInto(start: int, end: int, timestamps: nat, values: nat)
      returns (required: nat, points: seq<Point>, fault: Option<Fault>)
      requires Valid()
      modifies reader.native`failures
      ensures Ranged(required, points, fault, reader.native.failures) ==
              RangedInto(Ready(), reader.Snapshot(), handle.name, start, end, timestamps, values, old(reader.native.failures))
      ensures fault.None? ==>
                && Ready().None? && handle.name in reader.Snapshot()
                && required == |InRange(reader.Snapshot()[handle.name], start, end)|
                && points == Take(InRange(reader.Snapshot()[handle.name], start, end), timestamps)
    {
      fault := Ready();
      if fault.Some? {
        return 0, [], fault;
      }
      if timestamps != values {
        return 0, [], Some(MismatchedLengths);
      }
      var ok;
      ok, required, points := reader.native.RangePrepared(reader.handle.value, handle, start, end, timestamps);
      fault := if ok then None else Some(NativeFault);
    }

    method Range(start: int, end: int) returns (points: seq<Point>, fault: Option<Fault>)
      requires Valid()
      modifies reader.native`failures
      ensures Ranged(|points|, points, fault, reader.native.failures) ==
              RangedWhole(Ready(), reader.Snapshot(), handle.name, start, end, old(reader.native.failures))
      ensures fault.None? ==>
                Ready().None? && handle.name in reader.Snapshot() && points == InRange(reader.Snapshot()[handle.name], start, end)
      ensures fault != Some(RangeGrew)
    {
      var required, none, fault' := RangeInto(start, end, 0, 0);
      if fault'.Some? || required == 0 {
        return [], fault';
      }
      var ok, actual, found := reader.native.RangePrepared(reader.handle.value, handle, start, end, required);
      if !ok {
        return [], Some(NativeFault);
      }
      if actual > required {
        return [], Some(RangeGrew);
      }
      return found[..actual], None;
    }

    /** A lookup through the series asks the reader it was prepared on. */
    method Lookup(target: int, mode: nat, limit: Option<nat>) returns (point: Option<Point>, fault: Option<Fault>)
      requires Valid()
      modifies reader.native`failures
      ensures Chosen(point, fault, reader.native.failures) ==
              if Ready().Some? then Chosen(None, Ready(), old(reader.native.failures))
              else if ModeOf(mode).None? then Chosen(None, Some(InvalidArgument), old(reader.native.failures))
              else NativeLookup(reader.Snapshot(), handle.name, target, ModeOf(mode).value, limit, old(reader.native.failures))
      ensures fault == Some(Closed) <==> reader.handle.None?
      ensures fault == Some(StaleSeries) <==> reader.handle.Some? && epoch != reader.epoch
      ensures fault == Some(InvalidArgument) <==> reader.handle.Some? && epoch == reader.epoch && mode > 3
      ensures fault.None? <==>
                && reader.handle.Some? && epoch == reader.epoch && mode <= 3
                && (old(reader.native.failures) == [] || !old(reader.native.failures)[0])
      ensures fault.None? ==>
                && handle.name in reader.Snapshot()
                && FindsWithin(reader.Snapshot()[handle.name], target, mode, limit, point)
      ensures fault.Some? ==> point.None? && fault.value in {Closed, StaleSeries, InvalidArgument, NativeFault}
    {
      point, fault := reader.LookupPrepared(this, target, mode, limit);
    }

    /** Which reader a lookup may use this series with. */
    function LookupReady(asked: Reader): (fault: Option<Fault>)
      reads this, reader, asked
      ensures fault.None? <==> asked == reader && Ready().None?
      ensures asked == reader ==> fault == Ready()
    {
      if asked.handle.None? then Some(Closed)
      else if Ready().Some? then Ready()
      else if reader != asked then Some(WrongHandle) else None
    }
  }

  /** A reader's two fields. */
  datatype View = View(handle: Option<nat>, epoch: nat)

  /** A cursor's own fields. */
  datatype Hold = Hold(native: Option<nat>, complete: bool)

  /** What the caller gets back; `flag` is changed, found or complete. */
  datatype Note = Note(fault: Option<Fault>, points: seq<Point>, count: nat, flag: bool)

  const SKIPPED := Note(None, [], 0, false)

  function Faulted(fault: Option<Fault>): Note { Note(fault, [], 0, false) }

  function FreshFault(view: View, epoch: nat): Option<Fault> {
    if view.handle.None? then Some(Closed) else if epoch != view.epoch then Some(StaleSeries) else None
  }

  function CursorFault(view: View, epoch: nat, hold: Hold): Option<Fault> {
    if FreshFault(view, epoch).Some? then FreshFault(view, epoch)
    else if hold.native.None? && !hold.complete then Some(Closed) else None
  }

  /** What one advance makes of a cursor, the cursor states and the failures to come. */
  datatype Moved = Moved(hold: Hold, states: seq<NativeCursor>, failures: seq<bool>, note: Note)

  function NextOn(view: View, epoch: nat, hold: Hold, states: seq<NativeCursor>, failures: seq<bool>, timestamps: nat, values: nat): Moved {
    var fault := CursorFault(view, epoch, hold);
    if fault.Some? then Moved(Hold(None, hold.complete), Released(states, hold.native), failures, Faulted(fault))
    else if hold.complete then Moved(hold, states, failures, Note(None, [], 0, true))
    else if timestamps != values then Moved(hold, states, failures, Faulted(Some(MismatchedLengths)))
    else if timestamps == 0 then Moved(hold, states, failures, Faulted(Some(InvalidCapacity)))
    else if Fails(failures) then Moved(hold, states, Left(failures), Faulted(Some(NativeFault)))
    else if Fails(Left(failures)) then
      Moved(Hold(None, true), Released(states, hold.native), Left(Left(failures)), Note(None, [], 0, true))
    else Moved(hold, states, Left(Left(failures)), Note(None, [], timestamps, false))
  }

  /** An advance, outcome by outcome: what lets the native state go, what is told, and how many answers are used. */
  lemma NextMeans(view: View, epoch: nat, hold: Hold, states: seq<NativeCursor>, failures: seq<bool>, timestamps: nat, values: nat)
    ensures var m := NextOn(view, epoch, hold, states, failures, timestamps, values);
            var usable := view.handle.Some? && epoch == view.epoch && (hold.native.Some? || hold.complete);
            var asked := usable && !hold.complete && timestamps == values && timestamps > 0;
            var fails := failures != [] && failures[0];
            var ends := |failures| > 1 && failures[1];
            && (m.note.fault.None? <==> usable && (hold.complete || (asked && !fails)))
            && (m.note.fault.Some? ==>
                  && !m.note.flag
                  && m.note.fault.value == if view.handle.None? then Closed else if epoch != view.epoch then StaleSeries
                                           else if !usable then Closed else if timestamps != values then MismatchedLengths
                                           else if timestamps == 0 then InvalidCapacity else NativeFault)
            && (m.note.fault.None? ==> (m.note.flag <==> hold.complete || ends))
            && m.note.count == (if m.note.fault.None? && !m.note.flag then timestamps else 0) && m.note.points == []
            && m.hold == (if !usable then Hold(None, hold.complete) else if asked && !fails && ends then Hold(None, true) else hold)
            && m.states == (if !usable || (asked && !fails && ends) then Released(states, hold.native) else states)
            && m.failures == (if !asked || failures == [] then failures
                              else if fails || |failures| == 1 then failures[1..] else failures[2..])
  {
    hide Released;
  }

  class Cursor {
    const reader: Reader
    const epoch: nat
    var native: Option<nat>
    var complete: bool

    /** A native state still held is live; while the epoch is the reader's it is of its present snapshot. */
    ghost predicate Valid()
      reads this, reader, reader.native`readers, reader.native`cursors
    {
      && reader.Valid() && epoch <= reader.epoch && (complete ==> native.None?)
      && (native.Some? ==>
            && native.value < |reader.native.cursors| && !reader.native.cursors[native.value].destroyed
            && (reader.handle.Some? && epoch == reader.epoch ==>
                  Current(reader.native.readers, reader.handle.value,
                          reader.native.cursors[native.value].reader, reader.native.cursors[native.value].generation)))
    }

    constructor (reader: Reader, native: Option<nat>, complete: bool)
      requires reader.Valid() && reader.handle.Some? && (complete ==> native.None?)
      requires native.Some? ==>
                 && native.value < |reader.native.cursors| && !reader.native.cursors[native.value].destroyed
                 && Current(reader.native.readers, reader.handle.value,
                            reader.native.cursors[native.value].reader, reader.native.cursors[native.value].generation)
      ensures Valid() && this.reader == reader && epoch == reader.epoch && this.native == native && this.complete == complete
    {
      this.reader, this.native, this.complete, epoch := reader, native, complete, reader.epoch;
    }

    function Ready(): (fault: Option<Fault>)
      reads this, reader
      ensures fault.None? ==> reader.handle.Some? && epoch == reader.epoch && (native.Some? || complete)
      ensures reader.handle.None? || epoch != reader.epoch ==> fault.Some?
    {
      if reader.handle.None? then Some(Closed)
      else if epoch != reader.epoch then Some(StaleSeries)
      else if native.None? && !complete then Some(Closed)
      else None
    }

    method Release()
      requires Valid()
      modifies this`native, reader.native`cursors
      ensures Valid() && native.None?
      ensures reader.native.cursors == Released(old(reader.native.cursors), old(native))
    {
      if native.Some? {
        reader.native.CursorDestroy(native.value);
        native := None;
      }
    }

    /** Reaching the end, or finding the cursor stale or its reader closed, destroys the native state. */
    method NextInto(timestamps: nat, values: nat) returns (count: nat, done: bool, fault: Option<Fault>)
      requires Valid()
      modifies this`native, this`complete, reader.native`cursors, reader.native`failures
      ensures Valid()
      ensures old(Ready()).Some? ==> fault == old(Ready()) && native.None? && complete == old(complete)
      ensures old(Ready()).None? && old(complete) ==> fault.None? && done && count == 0 && native.None?
      ensures Moved(Hold(native, complete), reader.native.cursors, reader.native.failures, Note(fault, [], count, done)) ==
              old(NextOn(View(reader.handle, reader.epoch), epoch, Hold(native, complete), reader.native.cursors, reader.native.failures,
                         timestamps, values))
      ensures done ==> fault.None? && complete && native.None?
      ensures !done && old(Ready()).None? ==> native == old(native) && complete == old(complete)
      ensures count == if fault.None? && !done then timestamps else 0
      ensures reader.native.cursors ==
              if native.None? then Released(old(reader.native.cursors), old(native)) else old(reader.native.cursors)
    {
      fault := Ready();
      if fault.Some? {
        Release();
        return 0, false, fault;
      }
      if complete {
        return 0, true, None;
      }
      if timestamps != values {
        return 0, false, Some(MismatchedLengths);
      }
      if timestamps == 0 {
        return 0, false, Some(InvalidCapacity);
      }
      var ok;
      ok, count, done := reader.native.CursorNext(reader.handle.value, native.value, timestamps);
      if done {
        reader.native.CursorDestroy(native.value);
        native := None;
      }
      if ok {
        complete := done;
      }
      fault := if ok then None else Some(NativeFault);
    }

    method Close()
      requires Valid()
      modifies this`native, this`complete, reader.native`cursors
      ensures Valid() && native.None? && complete
      ensures reader.native.cursors == Released(old(reader.native.cursors), old(native))
    {
      Release();
      complete := true;
    }
  }

  function Released(cursors: seq<NativeCursor>, own: Option<nat>): seq<NativeCursor> {
    if own.Some? && own.value < |cursors| then cursors[own.value := cursors[own.value].(destroyed := true)] else cursors
  }

  // ---- Whole runs ----

  ghost function Views(readers: seq<Reader>): (views: map<Reader, View>)
    reads readers
    ensures views.Keys == set r | r in readers
    ensures forall i :: 0 <= i < |readers| ==> readers[i] in views && views[readers[i]] == View(readers[i].handle, readers[i].epoch)
  {
    map r | r in readers :: View(r.handle, r.epoch)
  }

  /** Every open native reader is held by exactly one of these readers. */
  ghost predicate ReadersFine(native: Native, readers: seq<Reader>, views: map<Reader, View>, natives: seq<NativeReader>) {
    && (forall i :: 0 <= i < |readers| ==>
          readers[i] in views && readers[i].native == native
          && (views[readers[i]].handle.Some? ==> IsOpen(natives, views[readers[i]].handle.value)))
    && (forall i, j :: 0 <= i < j < |readers| && readers[i] in views && readers[j] in views ==>
          readers[i] != readers[j] && (views[readers[i]].handle.Some? ==> views[readers[i]].handle != views[readers[j]].handle))
    && (forall h :: 0 <= h < |natives| && natives[h].open ==> Held(readers, views, h))
  }

  ghost predicate Held(readers: seq<Reader>, views: map<Reader, View>, h: nat) {
    exists i :: 0 <= i < |readers| && readers[i] in views && views[readers[i]].handle == Some(h)
  }

  ghost predicate SeriesFine(series: seq<Series>, views: map<Reader, View>, natives: seq<NativeReader>) {
    forall k :: 0 <= k < |series| ==>
      series[k].reader in views && SeriesOk(series[k].epoch, series[k].handle, views[series[k].reader], natives)
  }

  ghost predicate SeriesOk(epoch: nat, handle: NativeSeries, view: View, natives: seq<NativeReader>) {
    && epoch <= view.epoch
    && (view.handle.Some? && epoch == view.epoch ==>
          && Current(natives, view.handle.value, handle.reader, handle.generation)
          && handle.name in natives[view.handle.value].snapshot)
  }

  ghost function Holds(cursors: seq<Cursor>): (holds: seq<Hold>)
    reads cursors
    ensures |holds| == |cursors| && forall k :: 0 <= k < |holds| ==> holds[k] == Hold(cursors[k].native, cursors[k].complete)
  {
    seq(|cursors|, k requires 0 <= k < |cursors| reads cursors => Hold(cursors[k].native, cursors[k].complete))
  }

  ghost predicate CursorOk(epoch: nat, hold: Hold, view: View, natives: seq<NativeReader>, states: seq<NativeCursor>) {
    && epoch <= view.epoch && (hold.complete ==> hold.native.None?)
    && (hold.native.Some? ==>
          && hold.native.value < |states| && !states[hold.native.value].destroyed
          && (view.handle.Some? && epoch == view.epoch ==>
                Current(natives, view.handle.value, states[hold.native.value].reader, states[hold.native.value].generation)))
  }

  /** Every live cursor state is held by exactly one of these cursors. */
  ghost predicate CursorsFine(cursors: seq<Cursor>, holds: seq<Hold>, views: map<Reader, View>, natives: seq<NativeReader>,
                              states: seq<NativeCursor>) {
    && |holds| == |cursors|
    && (forall k :: 0 <= k < |cursors| ==>
          cursors[k].reader in views && CursorOk(cursors[k].epoch, holds[k], views[cursors[k].reader], natives, states))
    && (forall j, k :: 0 <= j < k < |cursors| ==>
          cursors[j] != cursors[k] && (holds[j].native.Some? ==> holds[j].native != holds[k].native))
    && (forall c :: 0 <= c < |states| && !states[c].destroyed ==> Owned(holds, c))
  }

  ghost predicate Owned(holds: seq<Hold>, c: nat) {
    exists k :: 0 <= k < |holds| && holds[k].native == Some(c)
  }

  ghost predicate Client(native: Native, readers: seq<Reader>, series: seq<Series>, cursors: seq<Cursor>)
    reads native, readers, cursors
  {
    && ReadersFine(native, readers, Views(readers), native.readers)
    && SeriesFine(series, Views(readers), native.readers)
    && CursorsFine(cursors, Holds(cursors), Views(readers), native.readers, native.cursors)
  }

  // ---- What a call does, told on values ----

  datatype Event =
    | DoOpen(snapshot: Snapshot)
    | DoRefresh(reader: nat)
    | DoClose(reader: nat)
    | DoRange(reader: nat, name: string, start: int, end: int)
    | DoPrepare(reader: nat, name: string)
    | DoSeriesRange(series: nat, start: int, end: int)
    | DoLookup(reader: nat, series: nat, target: int, mode: nat, limit: Option<nat>)
    | DoCursor(reader: nat, name: string, start: int, end: int)
    | DoNext(cursor: nat, timestamps: nat, values: nat)
    | DoCloseCursor(cursor: nat)

  datatype Prepared = Prepared(reader: nat, epoch: nat, handle: NativeSeries)

  datatype Traversal = Traversal(reader: nat, epoch: nat, hold: Hold)

  /** The client and the library under it; readers are named by their place. */
  datatype World = World(
    readers: seq<View>,
    series: seq<Prepared>,
    cursors: seq<Traversal>,
    natives: seq<NativeReader>,
    states: seq<NativeCursor>,
    failures: seq<bool>,
    arrivals: seq<Arrival>)

  datatype Acted = Acted(world: World, note: Note)

  function SnapshotOf(w: World, view: View): Snapshot {
    if view.handle.Some? && view.handle.value < |w.natives| then w.natives[view.handle.value].snapshot else map[]
  }

  function GenerationOf(w: World, view: View): nat {
    if view.handle.Some? && view.handle.value < |w.natives| then w.natives[view.handle.value].generation else 0
  }

  function AsksOf(view: View, name: string): Option<Fault> {
    if view.handle.None? then Some(Closed) else if name == "" then Some(EmptySeries) else None
  }

  function ActOpen(w: World, snapshot: Snapshot): Acted {
    var w' := w.(failures := Left(w.failures));
    if Fails(w.failures) then Acted(w', Faulted(Some(NativeFault)))
    else Acted(w'.(natives := w.natives + [NativeReader(true, 0, snapshot)], readers := w.readers + [View(Some(|w.natives|), 0)]), SKIPPED)
  }

  function ActRefresh(w: World, i: nat): Acted
    requires i < |w.readers|
  {
    var view := w.readers[i];
    if view.handle.None? then Acted(w, Faulted(Some(Closed)))
    else
      var met, w' := Met(w.arrivals), w.(arrivals := Later(w.arrivals));
      if met.Unreadable? then Acted(w', Faulted(Some(NativeFault)))
      else if met.Unchanged? || view.handle.value >= |w.natives| then Acted(w', SKIPPED)
      else
        var h := view.handle.value;
        Acted(w'.(readers := w.readers[i := View(view.handle, view.epoch + 1)],
                  natives := w.natives[h := NativeReader(true, w.natives[h].generation + 1, met.snapshot)]),
              Note(None, [], 0, true))
  }

  function ActClose(w: World, i: nat): Acted
    requires i < |w.readers|
  {
    var view := w.readers[i];
    if view.handle.None? || view.handle.value >= |w.natives| then Acted(w, SKIPPED)
    else
      var h := view.handle.value;
      Acted(w.(readers := w.readers[i := View(None, view.epoch + 1)],
               natives := w.natives[h := w.natives[h].(open := false)],
               failures := Left(w.failures)),
            Faulted(if Fails(w.failures) then Some(NativeFault) else None))
  }

  function NoteOf(r: Ranged): Note { Note(r.fault, r.points, |r.points|, false) }

  function ActRange(w: World, i: nat, name: string, start: int, end: int): Acted
    requires i < |w.readers|
  {
    var r := RangedWhole(AsksOf(w.readers[i], name), SnapshotOf(w, w.readers[i]), name, start, end, w.failures);
    Acted(w.(failures := r.left), NoteOf(r))
  }

  function ActPrepare(w: World, i: nat, name: string): Acted
    requires i < |w.readers|
  {
    var view := w.readers[i];
    if AsksOf(view, name).Some? then Acted(w, Faulted(AsksOf(view, name)))
    else
      var w' := w.(failures := Left(w.failures));
      if Fails(w.failures) || name !in SnapshotOf(w, view) then Acted(w', Faulted(Some(NativeFault)))
      else
        var handle := NativeSeries(view.handle.value, GenerationOf(w, view), name);
        Acted(w'.(series := w.series + [Prepared(i, view.epoch, handle)]), SKIPPED)
  }

  function ActSeriesRange(w: World, k: nat, start: int, end: int): Acted
    requires k < |w.series| && w.series[k].reader < |w.readers|
  {
    var s := w.series[k];
    var view := w.readers[s.reader];
    var r := RangedWhole(FreshFault(view, s.epoch), SnapshotOf(w, view), s.handle.name, start, end, w.failures);
    Acted(w.(failures := r.left), NoteOf(r))
  }

  /** A lookup through a prepared series asks reader `i`, which need not be its own. */
  function ActLookup(w: World, i: nat, k: nat, target: int, mode: nat, limit: Option<nat>): Acted
    requires i < |w.readers| && k < |w.series| && w.series[k].reader < |w.readers|
  {
    var s := w.series[k];
    var view := w.readers[s.reader];
    if w.readers[i].handle.None? then Acted(w, Faulted(Some(Closed)))
    else if FreshFault(view, s.epoch).Some? then Acted(w, Faulted(FreshFault(view, s.epoch)))
    else if s.reader != i then Acted(w, Faulted(Some(WrongHandle)))
    else if ModeOf(mode).None? then Acted(w, Faulted(Some(InvalidArgument)))
    else
      var r := NativeLookup(SnapshotOf(w, view), s.handle.name, target, ModeOf(mode).value, limit, w.failures);
      Acted(w.(failures := r.left),
            Note(r.fault, if r.point.Some? then [r.point.value] else [], 0, r.point.Some?))
  }

  /** The note of a lookup in a run, by number, with every fault by its own condition. */
  lemma LookupNoted(w: World, i: nat, k: nat, target: int, mode: nat, limit: Option<nat>)
    requires i < |w.readers| && k < |w.series| && w.series[k].reader < |w.readers|
    ensures var s, note := w.series[k], ActLookup(w, i, k, target, mode, limit).note;
            var own := w.readers[s.reader];
            var open := w.readers[i].handle.Some? && own.handle.Some?;
            && (note.fault == Some(Closed) <==> !open)
            && (note.fault == Some(StaleSeries) <==> open && s.epoch != own.epoch)
            && (note.fault == Some(WrongHandle) <==> open && s.epoch == own.epoch && s.reader != i)
            && (note.fault == Some(InvalidArgument) <==> open && s.epoch == own.epoch && s.reader == i && mode > 3)
            && (note.fault.None? <==>
                  && open && s.epoch == own.epoch && s.reader == i && mode <= 3
                  && s.handle.name in SnapshotOf(w, own) && (w.failures == [] || !w.failures[0]))
            && |note.points| == (if note.flag then 1 else 0) && (note.fault.Some? ==> note == Note(note.fault, [], 0, false))
            && (note.fault.None? ==>
                  FindsWithin(SnapshotOf(w, own)[s.handle.name], target, mode, limit, if note.flag then Some(note.points[0]) else None))
  {
    var s := w.series[k];
    ModesMean([], target, mode, limit, None);
    if ModeOf(mode).Some? {
      LooksUp(SnapshotOf(w, w.readers[s.reader]), s.handle.name, target, mode, limit, w.failures);
    }
    hide ModeOf, NativeLookup, FindsWithin;
  }

  function ActCursor(w: World, i: nat, name: string, start: int, end: int): Acted
    requires i < |w.readers|
  {
    var view := w.readers[i];
    if AsksOf(view, name).Some? then Acted(w, Faulted(AsksOf(view, name)))
    else
      var w' := w.(failures := Left(w.failures));
      if Fails(w.failures) || name !in SnapshotOf(w, view) then Acted(w', Faulted(Some(NativeFault)))
      else
        var state := NativeCursor(view.handle.value, GenerationOf(w, view), end < start);
        var hold := Hold(if end < start then None else Some(|w.states|), end < start);
        Acted(w'.(states := w.states + [state], cursors := w.cursors + [Traversal(i, view.epoch, hold)]), SKIPPED)
  }

  /** The cursor gives up its native state, if it holds one, and that state is destroyed. */
  function Dropped(w: World, k: nat, complete: bool): World
    requires k < |w.cursors|
  {
    w.(cursors := w.cursors[k := w.cursors[k].(hold := Hold(None, complete))], states := Released(w.states, w.cursors[k].hold.native))
  }

  function ActNext(w: World, k: nat, timestamps: nat, values: nat): Acted
    requires k < |w.cursors| && w.cursors[k].reader < |w.readers|
  {
    var c := w.cursors[k];
    var moved := NextOn(w.readers[c.reader], c.epoch, c.hold, w.states, w.failures, timestamps, values);
    Acted(w.(cursors := w.cursors[k := c.(hold := moved.hold)], states := moved.states, failures := moved.failures), moved.note)
  }

  ghost predicate Places(w: World) {
    && (forall k :: 0 <= k < |w.series| ==> w.series[k].reader < |w.readers|)
    && (forall k :: 0 <= k < |w.cursors| ==> w.cursors[k].reader < |w.readers|)
  }

  predicate OfReader(event: Event) { event.DoOpen? || event.DoRefresh? || event.DoClose? || event.DoRange? }

  predicate OfSeries(event: Event) { event.DoPrepare? || event.DoSeriesRange? || event.DoLookup? }

  ghost function ActReader(w: World, event: Event): (a: Acted)
    requires Places(w) && OfReader(event)
    ensures Places(a.world)
  {
    match event
    case DoOpen(snapshot) => ActOpen(w, snapshot)
    case DoRefresh(i) => if i < |w.readers| then ActRefresh(w, i) else Acted(w, SKIPPED)
    case DoClose(i) => if i < |w.readers| then ActClose(w, i) else Acted(w, SKIPPED)
    case DoRange(i, name, start, end) => if i < |w.readers| then ActRange(w, i, name, start, end) else Acted(w, SKIPPED)
  }

  ghost function ActSeries(w: World, event: Event): (a: Acted)
    requires Places(w) && OfSeries(event)
    ensures Places(a.world)
  {
    match event
    case DoPrepare(i, name) => if i < |w.readers| then ActPrepare(w, i, name) else Acted(w, SKIPPED)
    case DoSeriesRange(k, start, end) => if k < |w.series| then ActSeriesRange(w, k, start, end) else Acted(w, SKIPPED)
    case DoLookup(i, k, target, mode, limit) =>
      if i < |w.readers| && k < |w.series| then ActLookup(w, i, k, target, mode, limit) else Acted(w, SKIPPED)
  }

  ghost function ActCursors(w: World, event: Event): (a: Acted)
    requires Places(w) && !OfReader(event) && !OfSeries(event)
    ensures Places(a.world)
  {
    match event
    case DoCursor(i, name, start, end) => if i < |w.readers| then ActCursor(w, i, name, start, end) else Acted(w, SKIPPED)
    case DoNext(k, timestamps, values) => if k < |w.cursors| then ActNext(w, k, timestamps, values) else Acted(w, SKIPPED)
    case DoCloseCursor(k) => Acted(if k < |w.cursors| then Dropped(w, k, true) else w, SKIPPED)
  }

  /** An event that names nothing the client has is skipped. */
  ghost function Act(w: World, event: Event): (a: Acted)
    requires Places(w)
    ensures Places(a.world)
  {
    if OfReader(event) then ActReader(w, event) else if OfSeries(event) then ActSeries(w, event) else ActCursors(w, event)
  }

  datatype History = History(world: World, notes: seq<Note>)

  ghost function ActAll(events: seq<Event>, failures: seq<bool>, arrivals: seq<Arrival>): (h: History)
    ensures Places(h.world) && |h.notes| == |events|
  {
    if events == [] then History(World([], [], [], [], [], failures, arrivals), [])
    else
      var before := ActAll(events[..|events| - 1], failures, arrivals);
      var acted := Act(before.world, events[|events| - 1]);
      History(acted.world, before.notes + [acted.note])
  }

  lemma ActLast(events: seq<Event>, k: nat, failures: seq<bool>, arrivals: seq<Arrival>)
    requires k < |events|
    ensures var before := ActAll(events[..k], failures, arrivals);
            var acted := Act(before.world, events[k]);
            ActAll(events[..k + 1], failures, arrivals) == History(acted.world, before.notes + [acted.note])
  {
    assert events[..k + 1][..k] == events[..k];
  }

  ghost function ViewList(readers: seq<Reader>): (views: seq<View>)
    reads readers
    ensures |views| == |readers| && forall i :: 0 <= i < |views| ==> views[i] == View(readers[i].handle, readers[i].epoch)
  {
    seq(|readers|, i requires 0 <= i < |readers| reads readers => View(readers[i].handle, readers[i].epoch))
  }

  ghost predicate SeriesPlaced(told: seq<Prepared>, readers: seq<Reader>, series: seq<Series>) {
    && |told| == |series|
    && forall k :: 0 <= k < |series| ==>
        && told[k].reader < |readers| && readers[told[k].reader] == series[k].reader
        && told[k].epoch == series[k].epoch && told[k].handle == series[k].handle
  }

  ghost predicate CursorsPlaced(told: seq<Traversal>, readers: seq<Reader>, cursors: seq<Cursor>, holds: seq<Hold>) {
    && |told| == |cursors| == |holds|
    && forall k :: 0 <= k < |cursors| ==>
        && told[k].reader < |readers| && readers[told[k].reader] == cursors[k].reader
        && told[k].epoch == cursors[k].epoch && told[k].hold == holds[k]
  }

  /** The objects and the library stand as told. */
  ghost predicate Shows(native: Native, readers: seq<Reader>, series: seq<Series>, cursors: seq<Cursor>, w: World)
    reads native, readers, cursors
  {
    && w.natives == native.readers && w.states == native.cursors && w.failures == native.failures && w.arrivals == native.arrivals
    && w.readers == ViewList(readers)
    && SeriesPlaced(w.series, readers, series)
    && CursorsPlaced(w.cursors, readers, cursors, Holds(cursors))
  }

  lemma PlacedWithReader(w: World, readers: seq<Reader>, series: seq<Series>, cursors: seq<Cursor>, holds: seq<Hold>, r: Reader)
    requires SeriesPlaced(w.series, readers, series) && CursorsPlaced(w.cursors, readers, cursors, holds)
    ensures SeriesPlaced(w.series, readers + [r], series) && CursorsPlaced(w.cursors, readers + [r], cursors, holds)
  {
  }

  lemma SeriesPlacedLast(told: seq<Prepared>, readers: seq<Reader>, series: seq<Series>, made: Series, i: nat)
    requires SeriesPlaced(told, readers, series) && i < |readers| && made.reader == readers[i]
    ensures SeriesPlaced(told + [Prepared(i, made.epoch, made.handle)], readers, series + [made])
  {
  }

  lemma CursorsPlacedLast(told: seq<Traversal>, readers: seq<Reader>, cursors: seq<Cursor>, holds: seq<Hold>, made: Cursor, hold: Hold, i: nat)
    requires CursorsPlaced(told, readers, cursors, holds) && i < |readers| && made.reader == readers[i]
    ensures CursorsPlaced(told + [Traversal(i, made.epoch, hold)], readers, cursors + [made], holds + [hold])
  {
  }

  lemma CursorsPlacedNow(told: seq<Traversal>, readers: seq<Reader>, cursors: seq<Cursor>, holds: seq<Hold>, k: nat, now: Hold)
    requires CursorsPlaced(told, readers, cursors, holds) && k < |cursors|
    ensures k < |told| && CursorsPlaced(told[k := told[k].(hold := now)], readers, cursors, holds[k := now])
  {
  }

  lemma CursorPlaced(told: seq<Traversal>, readers: seq<Reader>, cursors: seq<Cursor>, holds: seq<Hold>, k: nat)
    requires CursorsPlaced(told, readers, cursors, holds) && k < |cursors|
    ensures k < |told| && told[k].reader < |readers| && readers[told[k].reader] == cursors[k].reader
    ensures told[k].epoch == cursors[k].epoch && told[k].hold == holds[k]
  {
  }

  lemma SeriesPlace(told: seq<Prepared>, readers: seq<Reader>, series: seq<Series>, k: nat)
    requires SeriesPlaced(told, readers, series) && k < |series|
    ensures k < |told| && told[k].reader < |readers| && readers[told[k].reader] == series[k].reader
    ensures told[k].epoch == series[k].epoch && told[k].handle == series[k].handle
  {
  }

  lemma ShownPlaces(native: Native, readers: seq<Reader>, series: seq<Series>, cursors: seq<Cursor>, w: World)
    requires Shows(native, readers, series, cursors, w)
    ensures Places(w) && |w.readers| == |readers| && |w.series| == |series| && |w.cursors| == |cursors|
  {
  }

  lemma ReadersApart(native: Native, readers: seq<Reader>, views: map<Reader, View>, natives: seq<NativeReader>)
    requires ReadersFine(native, readers, views, natives)
    ensures forall i, j :: 0 <= i < j < |readers| ==> readers[i] != readers[j]
  {
    hide Held;
  }

  /** Reader `r` was refreshed or closed: its epoch moved on, and only its native reader changed. */
  ghost predicate Cut(r: Reader, views: map<Reader, View>, now: View, natives: seq<NativeReader>, after: seq<NativeReader>) {
    && r in views && views[r].handle.Some? && views[r].epoch < now.epoch
    && |after| == |natives| && OnlyReader(natives, after, views[r].handle.value)
    && if now.handle.Some? then now.handle == views[r].handle && IsOpen(after, now.handle.value) else !IsOpen(after, views[r].handle.value)
  }

  lemma ReadersCut(native: Native, readers: seq<Reader>, r: Reader, views: map<Reader, View>, now: View,
                   natives: seq<NativeReader>, after: seq<NativeReader>)
    requires ReadersFine(native, readers, views, natives) && r in readers && Cut(r, views, now, natives, after)
    ensures ReadersFine(native, readers, views[r := now], after)
  {
    var views' := views[r := now];
    forall h | 0 <= h < |after| && after[h].open
      ensures Held(readers, views', h)
    {
      assert Held(readers, views, h);
      var i :| 0 <= i < |readers| && readers[i] in views && views[readers[i]].handle == Some(h);
      assert views'[readers[i]].handle == Some(h);
    }
  }

  /** Another reader's native reader is untouched by a cut. */
  lemma CutApart(native: Native, readers: seq<Reader>, r: Reader, views: map<Reader, View>, now: View,
                 natives: seq<NativeReader>, after: seq<NativeReader>, s: Reader)
    requires ReadersFine(native, readers, views, natives) && r in readers && Cut(r, views, now, natives, after)
    requires s in readers && s != r && views[s].handle.Some?
    ensures IsOpen(natives, views[s].handle.value) && views[s].handle.value < |after|
    ensures after[views[s].handle.value] == natives[views[s].handle.value]
  {
    var i :| 0 <= i < |readers| && readers[i] == r;
    var j :| 0 <= j < |readers| && readers[j] == s;
  }

  lemma SeriesCut(native: Native, readers: seq<Reader>, series: seq<Series>, r: Reader, views: map<Reader, View>, now: View,
                  natives: seq<NativeReader>, after: seq<NativeReader>)
    requires ReadersFine(native, readers, views, natives) && r in readers && Cut(r, views, now, natives, after)
    requires SeriesFine(series, views, natives) && views.Keys == set s | s in readers
    ensures SeriesFine(series, views[r := now], after)
  {
    hide ReadersFine, Cut;
    CutEpoch(r, views, now, natives, after);
    forall k | 0 <= k < |series| && series[k].reader != r && views[series[k].reader].handle.Some?
      ensures SeriesOk(series[k].epoch, series[k].handle, views[series[k].reader], after)
    {
      CutApart(native, readers, r, views, now, natives, after, series[k].reader);
    }
  }

  lemma CutEpoch(r: Reader, views: map<Reader, View>, now: View, natives: seq<NativeReader>, after: seq<NativeReader>)
    requires Cut(r, views, now, natives, after)
    ensures r in views && views[r].epoch < now.epoch
  {
  }

  lemma CursorsCut(native: Native, readers: seq<Reader>, cursors: seq<Cursor>, holds: seq<Hold>, r: Reader, views: map<Reader, View>,
                   now: View, natives: seq<NativeReader>, after: seq<NativeReader>, states: seq<NativeCursor>)
    requires ReadersFine(native, readers, views, natives) && r in readers && Cut(r, views, now, natives, after)
    requires CursorsFine(cursors, holds, views, natives, states) && views.Keys == set s | s in readers
    ensures CursorsFine(cursors, holds, views[r := now], after, states)
  {
    hide ReadersFine, Cut, Owned;
    CutEpoch(r, views, now, natives, after);
    forall k | 0 <= k < |cursors| && cursors[k].reader != r && views[cursors[k].reader].handle.Some?
      ensures CursorOk(cursors[k].epoch, holds[k], views[cursors[k].reader], after, states)
    {
      CutApart(native, readers, r, views, now, natives, after, cursors[k].reader);
    }
  }

  /** A reader of the client is well. */
  lemma ReaderFine(native: Native, readers: seq<Reader>, i: nat)
    requires ReadersFine(native, readers, Views(readers), native.readers) && i < |readers|
    ensures readers[i].native == native && readers[i].Valid()
  {
  }

  method CloseReader(native: Native, readers: seq<Reader>, series: seq<Series>, cursors: seq<Cursor>, i: nat, ghost w: World)
    returns (note: Note)
    requires Client(native, readers, series, cursors) && i < |readers| && Shows(native, readers, series, cursors, w)
    modifies readers[i], native
    ensures Client(native, readers, series, cursors) && readers[i].handle.None?
    ensures i < |w.readers| && Shows(native, readers, series, cursors, ActClose(w, i).world) && note == ActClose(w, i).note
    ensures native.cursors == old(native.cursors)
    ensures forall j :: 0 <= j < |readers| && old(readers[j].handle).None? ==> readers[j].handle.None?
  {
    hide ReadersFine, SeriesFine, CursorsFine, SeriesPlaced, CursorsPlaced;
    ghost var views, holds, natives := Views(readers), Holds(cursors), native.readers;
    var r := readers[i];
    ReaderFine(native, readers, i);
    ReadersApart(native, readers, views, natives);
    var ok := r.Close();
    note := Faulted(if ok then None else Some(NativeFault));
    assert Holds(cursors) == holds;
    assert Views(readers) == views[r := View(r.handle, r.epoch)];
    assert ViewList(readers) == w.readers[i := View(r.handle, r.epoch)];
    if views[r].handle.Some? {
      ClientCut(native, readers, series, cursors, holds, r, views, View(r.handle, r.epoch), natives, native.readers, native.cursors);
    } else {
      assert Views(readers) == views;
    }
  }

  method RefreshReader(native: Native, readers: seq<Reader>, series: seq<Series>, cursors: seq<Cursor>, i: nat, ghost w: World)
    returns (note: Note)
    requires Client(native, readers, series, cursors) && i < |readers| && Shows(native, readers, series, cursors, w)
    modifies readers[i], native
    ensures Client(native, readers, series, cursors)
    ensures i < |w.readers| && Shows(native, readers, series, cursors, ActRefresh(w, i).world) && note == ActRefresh(w, i).note
  {
    hide ReadersFine, SeriesFine, CursorsFine, SeriesPlaced, CursorsPlaced;
    ghost var views, holds, natives := Views(readers), Holds(cursors), native.readers;
    var r := readers[i];
    ReaderFine(native, readers, i);
    ReadersApart(native, readers, views, natives);
    var changed, fault := r.Refresh();
    note := Note(fault, [], 0, changed);
    assert Holds(cursors) == holds;
    assert Views(readers) == views[r := View(r.handle, r.epoch)];
    assert ViewList(readers) == w.readers[i := View(r.handle, r.epoch)];
    if changed {
      ClientCut(native, readers, series, cursors, holds, r, views, View(r.handle, r.epoch), natives, native.readers, native.cursors);
    } else {
      assert Views(readers) == views;
    }
  }

  lemma ClientCut(native: Native, readers: seq<Reader>, series: seq<Series>, cursors: seq<Cursor>, holds: seq<Hold>, r: Reader,
                  views: map<Reader, View>, now: View, natives: seq<NativeReader>, after: seq<NativeReader>, states: seq<NativeCursor>)
    requires ReadersFine(native, readers, views, natives) && r in readers && Cut(r, views, now, natives, after)
    requires SeriesFine(series, views, natives) && CursorsFine(cursors, holds, views, natives, states)
    requires views.Keys == set s | s in readers
    ensures ReadersFine(native, readers, views[r := now], after)
    ensures SeriesFine(series, views[r := now], after) && CursorsFine(cursors, holds, views[r := now], after, states)
  {
    hide ReadersFine, SeriesFine, CursorsFine, Cut;
    ReadersCut(native, readers, r, views, now, natives, after);
    SeriesCut(native, readers, series, r, views, now, natives, after);
    CursorsCut(native, readers, cursors, holds, r, views, now, natives, after, states);
  }

  /** Cursor `k` moved: it kept its native state, or gave it up and that state alone was destroyed. */
  lemma CursorMoved(cursors: seq<Cursor>, holds: seq<Hold>, views: map<Reader, View>, natives: seq<NativeReader>,
                    states: seq<NativeCursor>, k: nat, now: Hold, after: seq<NativeCursor>)
    requires CursorsFine(cursors, holds, views, natives, states) && k < |cursors|
    requires CursorOk(cursors[k].epoch, now, views[cursors[k].reader], natives, after)
    requires now.native == holds[k].native || now.native.None?
    requires after == if now.native.None? then Released(states, holds[k].native) else states
    ensures CursorsFine(cursors, holds[k := now], views, natives, after)
  {
    hide Current;
    var holds' := holds[k := now];
    forall c | 0 <= c < |after| && !after[c].destroyed
      ensures Owned(holds', c)
    {
      assert Owned(holds, c);
      var j :| 0 <= j < |holds| && holds[j].native == Some(c);
      assert holds'[j].native == Some(c);
    }
  }

  lemma CursorFine(native: Native, readers: seq<Reader>, cursors: seq<Cursor>, k: nat)
    requires ReadersFine(native, readers, Views(readers), native.readers) && k < |cursors|
    requires CursorsFine(cursors, Holds(cursors), Views(readers), native.readers, native.cursors)
    ensures cursors[k].reader in readers && cursors[k].reader.native == native && cursors[k].Valid()
  {
    hide Held, Owned;
    assert cursors[k].reader in Views(readers);
    var i :| 0 <= i < |readers| && readers[i] == cursors[k].reader;
  }

  method NextCursor(native: Native, readers: seq<Reader>, series: seq<Series>, cursors: seq<Cursor>, k: nat, timestamps: nat, values: nat,
                    ghost w: World)
    returns (note: Note)
    requires Client(native, readers, series, cursors) && k < |cursors| && Shows(native, readers, series, cursors, w)
    modifies cursors[k], native
    ensures Client(native, readers, series, cursors)
    ensures k < |w.cursors| && w.cursors[k].reader < |w.readers|
    ensures Shows(native, readers, series, cursors, ActNext(w, k, timestamps, values).world)
    ensures note == ActNext(w, k, timestamps, values).note
  {
    hide ReadersFine, SeriesFine, CursorsFine, Current, IsOpen, NextOn, SeriesPlaced, CursorsPlaced;
    ghost var views, holds, states := Views(readers), Holds(cursors), native.cursors;
    var c := cursors[k];
    CursorFine(native, readers, cursors, k);
    assert views[c.reader] == View(c.reader.handle, c.reader.epoch);
    var count, done, fault := c.NextInto(timestamps, values);
    note := Note(fault, [], count, done);
    ghost var now := Hold(c.native, c.complete);
    assert Views(readers) == views && ViewList(readers) == w.readers;
    assert Holds(cursors) == holds[k := now] by {
      CursorsApart(cursors, holds, views, native.readers, states);
    }
    CursorsPlacedNow(w.cursors, readers, cursors, holds, k, now);
    CursorPlaced(w.cursors, readers, cursors, holds, k);
    CursorMoved(cursors, holds, views, native.readers, states, k, now, native.cursors);
  }

  lemma CursorsApart(cursors: seq<Cursor>, holds: seq<Hold>, views: map<Reader, View>, natives: seq<NativeReader>, states: seq<NativeCursor>)
    requires CursorsFine(cursors, holds, views, natives, states)
    ensures forall j, k :: 0 <= j < k < |cursors| ==> cursors[j] != cursors[k]
  {
  }

  method CloseCursor(native: Native, readers: seq<Reader>, series: seq<Series>, cursors: seq<Cursor>, k: nat, ghost w: World)
    requires Client(native, readers, series, cursors) && k < |cursors| && Shows(native, readers, series, cursors, w)
    modifies cursors[k], native
    ensures Client(native, readers, series, cursors)
    ensures k < |w.cursors| && Shows(native, readers, series, cursors, Dropped(w, k, true))
    ensures cursors[k].native.None? && native.readers == old(native.readers)
    ensures forall j :: 0 <= j < |cursors| && old(cursors[j].native).None? ==> cursors[j].native.None?
  {
    hide ReadersFine, SeriesFine, CursorsFine, Current, IsOpen, SeriesPlaced, CursorsPlaced;
    ghost var views, holds, states := Views(readers), Holds(cursors), native.cursors;
    var c := cursors[k];
    CursorFine(native, readers, cursors, k);
    c.Close();
    ghost var now := Hold(c.native, c.complete);
    assert Views(readers) == views && ViewList(readers) == w.readers;
    assert Holds(cursors) == holds[k := now] by {
      CursorsApart(cursors, holds, views, native.readers, states);
    }
    CursorsPlacedNow(w.cursors, readers, cursors, holds, k, now);
    CursorPlaced(w.cursors, readers, cursors, holds, k);
    CursorMoved(cursors, holds, views, native.readers, states, k, now, native.cursors);
  }

  /** A new reader holds a new native reader. */
  lemma ReaderOpened(native: Native, readers: seq<Reader>, series: seq<Series>, cursors: seq<Cursor>, holds: seq<Hold>,
                     views: map<Reader, View>, natives: seq<NativeReader>, states: seq<NativeCursor>, r: Reader, opened': NativeReader)
    requires ReadersFine(native, readers, views, natives) && SeriesFine(series, views, natives)
    requires CursorsFine(cursors, holds, views, natives, states)
    requires r !in readers && r !in views && r.native == native && opened'.open
    ensures ReadersFine(native, readers + [r], views[r := View(Some(|natives|), 0)], natives + [opened'])
    ensures SeriesFine(series, views[r := View(Some(|natives|), 0)], natives + [opened'])
    ensures CursorsFine(cursors, holds, views[r := View(Some(|natives|), 0)], natives + [opened'], states)
  {
    hide Owned;
    var all, views', after := readers + [r], views[r := View(Some(|natives|), 0)], natives + [opened'];
    forall h | 0 <= h < |after| && after[h].open
      ensures Held(all, views', h)
    {
      if h < |natives| {
        assert Held(readers, views, h);
        var i :| 0 <= i < |readers| && readers[i] in views && views[readers[i]].handle == Some(h);
        assert all[i] == readers[i] && views'[all[i]].handle == Some(h);
      } else {
        assert all[|readers|] == r && views'[r].handle == Some(h);
      }
    }
  }

  /** The client with its new reader, whose native reader is the library's newest. */
  lemma ClientGrown(native: Native, readers: seq<Reader>, series: seq<Series>, cursors: seq<Cursor>, natives: seq<NativeReader>, r: Reader,
                    opened': NativeReader)
    requires ReadersFine(native, readers, Views(readers), natives) && SeriesFine(series, Views(readers), natives)
    requires CursorsFine(cursors, Holds(cursors), Views(readers), natives, native.cursors)
    requires native.readers == natives + [opened'] && opened'.open
    requires r !in readers && r.native == native && r.handle == Some(|natives|) && r.epoch == 0
    ensures Client(native, readers + [r], series, cursors)
  {
    hide ReadersFine, SeriesFine, CursorsFine;
    ReaderOpened(native, readers, series, cursors, Holds(cursors), Views(readers), natives, native.cursors, r, opened');
    assert Views(readers + [r]) == Views(readers)[r := View(Some(|natives|), 0)];
  }

  method OpenReader(native: Native, readers: seq<Reader>, series: seq<Series>, cursors: seq<Cursor>, snapshot: Snapshot, ghost w: World)
    returns (all: seq<Reader>, note: Note)
    requires Client(native, readers, series, cursors) && Shows(native, readers, series, cursors, w)
    modifies native
    ensures Client(native, all, series, cursors)
    ensures Shows(native, all, series, cursors, ActOpen(w, snapshot).world) && note == ActOpen(w, snapshot).note
    ensures forall i :: 0 <= i < |all| ==> all[i] in readers || fresh(all[i])
  {
    hide ReadersFine, SeriesFine, CursorsFine, SeriesPlaced, CursorsPlaced;
    ghost var views, holds, natives := Views(readers), Holds(cursors), native.readers;
    var handle := native.OpenReader(snapshot);
    note := Faulted(if handle.None? then Some(NativeFault) else None);
    all := readers;
    assert Views(readers) == views && Holds(cursors) == holds && ViewList(readers) == w.readers;
    if handle.Some? {
      var r := new Reader(native, handle.value);
      all := readers + [r];
      PlacedWithReader(w, readers, series, cursors, holds, r);
      assert ViewList(all) == w.readers + [View(r.handle, r.epoch)];
      ClientGrown(native, readers, series, cursors, natives, r, NativeReader(true, 0, snapshot));
    }
  }

  method PrepareSeries(native: Native, readers: seq<Reader>, series: seq<Series>, cursors: seq<Cursor>, i: nat, name: string, ghost w: World)
    returns (all: seq<Series>, note: Note)
    requires Client(native, readers, series, cursors) && i < |readers| && Shows(native, readers, series, cursors, w)
    modifies native
    ensures Client(native, readers, all, cursors)
    ensures i < |w.readers| && Shows(native, readers, all, cursors, ActPrepare(w, i, name).world) && note == ActPrepare(w, i, name).note
  {
    hide ReadersFine, CursorsFine, SeriesPlaced, CursorsPlaced;
    ghost var views, holds := Views(readers), Holds(cursors);
    ReaderFine(native, readers, i);
    var made, fault := readers[i].PrepareSeries(name);
    note := Faulted(fault);
    assert Views(readers) == views && Holds(cursors) == holds && ViewList(readers) == w.readers;
    all := series;
    if made != null {
      SeriesPlacedLast(w.series, readers, series, made, i);
      all := series + [made];
    }
  }

  lemma SeriesReady(native: Native, readers: seq<Reader>, series: seq<Series>, k: nat)
    requires ReadersFine(native, readers, Views(readers), native.readers) && k < |series|
    requires SeriesFine(series, Views(readers), native.readers)
    ensures series[k].reader.native == native && series[k].Valid()
  {
    hide Held;
    assert series[k].reader in Views(readers);
    var i :| 0 <= i < |readers| && readers[i] == series[k].reader;
  }

  method UseReader(native: Native, readers: seq<Reader>, series: seq<Series>, cursors: seq<Cursor>, i: nat, name: string, start: int, end: int,
                   ghost w: World)
    returns (note: Note)
    requires Client(native, readers, series, cursors) && i < |readers| && Shows(native, readers, series, cursors, w)
    modifies native
    ensures Client(native, readers, series, cursors)
    ensures i < |w.readers| && Shows(native, readers, series, cursors, ActRange(w, i, name, start, end).world)
    ensures note == ActRange(w, i, name, start, end).note
  {
    hide ReadersFine, SeriesFine, CursorsFine, SeriesPlaced, CursorsPlaced;
    ghost var views, holds := Views(readers), Holds(cursors);
    ReaderFine(native, readers, i);
    var points, fault := readers[i].Range(name, start, end);
    note := Note(fault, points, |points|, false);
    assert Views(readers) == views && Holds(cursors) == holds && ViewList(readers) == w.readers;
  }

  method LookUp(native: Native, readers: seq<Reader>, series: seq<Series>, cursors: seq<Cursor>, i: nat, k: nat,
                target: int, mode: nat, limit: Option<nat>, ghost w: World)
    returns (note: Note)
    requires Client(native, readers, series, cursors) && i < |readers| && k < |series| && Shows(native, readers, series, cursors, w)
    modifies native
    ensures Client(native, readers, series, cursors)
    ensures i < |w.readers| && k < |w.series| && w.series[k].reader < |w.readers|
    ensures Shows(native, readers, series, cursors, ActLookup(w, i, k, target, mode, limit).world)
    ensures note == ActLookup(w, i, k, target, mode, limit).note
  {
    hide ReadersFine, SeriesFine, CursorsFine, SeriesPlaced, CursorsPlaced;
    ghost var views, holds := Views(readers), Holds(cursors);
    ReaderFine(native, readers, i);
    SeriesReady(native, readers, series, k);
    SeriesPlace(w.series, readers, series, k);
    ReadersApart(native, readers, views, native.readers);
    var point, fault := readers[i].LookupPrepared(series[k], target, mode, limit);
    note := Note(fault, if point.Some? then [point.value] else [], 0, point.Some?);
    assert Views(readers) == views && Holds(cursors) == holds && ViewList(readers) == w.readers;
  }

  method UseSeries(native: Native, readers: seq<Reader>, series: seq<Series>, cursors: seq<Cursor>, k: nat, start: int, end: int, ghost w: World)
    returns (note: Note)
    requires Client(native, readers, series, cursors) && k < |series| && Shows(native, readers, series, cursors, w)
    modifies native
    ensures Client(native, readers, series, cursors)
    ensures k < |w.series| && w.series[k].reader < |w.readers|
    ensures Shows(native, readers, series, cursors, ActSeriesRange(w, k, start, end).world)
    ensures note == ActSeriesRange(w, k, start, end).note
  {
    hide ReadersFine, SeriesFine, CursorsFine, SeriesPlaced, CursorsPlaced;
    ghost var views, holds := Views(readers), Holds(cursors);
    SeriesReady(native, readers, series, k);
    SeriesPlace(w.series, readers, series, k);
    var points, fault := series[k].Range(start, end);
    note := Note(fault, points, |points|, false);
    assert Views(readers) == views && Holds(cursors) == holds && ViewList(readers) == w.readers;
  }

  /** A new cursor holds the newest native state, or none and every newer state is already destroyed. */
  lemma CursorOpened(cursors: seq<Cursor>, holds: seq<Hold>, views: map<Reader, View>, natives: seq<NativeReader>,
                     states: seq<NativeCursor>, made: Cursor, hold: Hold, after: seq<NativeCursor>)
    requires CursorsFine(cursors, holds, views, natives, states) && made !in cursors
    requires |states| <= |after| && after[..|states|] == states
    requires made.reader in views && CursorOk(made.epoch, hold, views[made.reader], natives, after)
    requires forall c :: |states| <= c < |after| && !after[c].destroyed ==> hold.native == Some(c)
    requires hold.native.Some? ==> hold.native.value >= |states|
    ensures CursorsFine(cursors + [made], holds + [hold], views, natives, after)
  {
    hide Current;
    assert forall c :: 0 <= c < |states| ==> after[c] == states[c];
    var all := holds + [hold];
    forall c | 0 <= c < |after| && !after[c].destroyed
      ensures Owned(all, c)
    {
      if c < |states| {
        assert Owned(holds, c);
        var j :| 0 <= j < |holds| && holds[j].native == Some(c);
        assert all[j].native == Some(c);
      } else {
        assert all[|holds|].native == Some(c);
      }
    }
  }

  lemma StatesGrew(cursors: seq<Cursor>, holds: seq<Hold>, views: map<Reader, View>, natives: seq<NativeReader>,
                   states: seq<NativeCursor>, after: seq<NativeCursor>)
    requires CursorsFine(cursors, holds, views, natives, states)
    requires |states| <= |after| && after[..|states|] == states
    requires forall c :: |states| <= c < |after| ==> after[c].destroyed
    ensures CursorsFine(cursors, holds, views, natives, after)
  {
    hide Current;
    assert forall c :: 0 <= c < |states| ==> after[c] == states[c];
  }

  method OpenCursor(native: Native, readers: seq<Reader>, series: seq<Series>, cursors: seq<Cursor>, i: nat,
                    name: string, start: int, end: int, ghost w: World)
    returns (all: seq<Cursor>, note: Note)
    requires Client(native, readers, series, cursors) && i < |readers| && Shows(native, readers, series, cursors, w)
    modifies native
    ensures Client(native, readers, series, all)
    ensures i < |w.readers| && Shows(native, readers, series, all, ActCursor(w, i, name, start, end).world)
    ensures note == ActCursor(w, i, name, start, end).note
    ensures forall k :: 0 <= k < |all| ==> all[k] in cursors || fresh(all[k])
  {
    hide ReadersFine, SeriesFine, CursorsFine, Current, SeriesPlaced, CursorsPlaced, Fails, Left;
    ghost var views, holds, states := Views(readers), Holds(cursors), native.cursors;
    ReaderFine(native, readers, i);
    var made, fault := readers[i].Cursor(name, start, end);
    note := Faulted(fault);
    assert Views(readers) == views && Holds(cursors) == holds && ViewList(readers) == w.readers;
    if made == null {
      all := cursors;
      StatesGrew(cursors, holds, views, native.readers, states, native.cursors);
    } else {
      all := cursors + [made];
      CursorsPlacedLast(w.cursors, readers, cursors, holds, made, Hold(made.native, made.complete), i);
      assert Holds(all) == holds + [Hold(made.native, made.complete)];
      assert Client(native, readers, series, all) by {
        ghost var hold := Hold(made.native, made.complete);
        CursorOpened(cursors, holds, views, native.readers, states, made, hold, native.cursors);
        assert Holds(all) == holds + [hold];
      }
    }
  }

  method ServeReader(native: Native, readers: seq<Reader>, series: seq<Series>, cursors: seq<Cursor>, event: Event, ghost w: World)
    returns (readers': seq<Reader>, note: Note)
    requires Client(native, readers, series, cursors) && Shows(native, readers, series, cursors, w)
    requires OfReader(event)
    modifies native, readers
    ensures Client(native, readers', series, cursors)
    ensures Places(w) && Shows(native, readers', series, cursors, ActReader(w, event).world) && note == ActReader(w, event).note
    ensures forall i :: 0 <= i < |readers'| ==> readers'[i] in readers || fresh(readers'[i])
  {
    ShownPlaces(native, readers, series, cursors, w);
    hide Client, Shows, Places, ActOpen, ActRefresh, ActClose, ActRange;
    readers', note := readers, SKIPPED;
    match event {
      case DoOpen(snapshot) => readers', note := OpenReader(native, readers, series, cursors, snapshot, w);
      case DoRefresh(i) => if i < |readers| { note := RefreshReader(native, readers, series, cursors, i, w); }
      case DoClose(i) => if i < |readers| { note := CloseReader(native, readers, series, cursors, i, w); }
      case DoRange(i, name, start, end) => if i < |readers| { note := UseReader(native, readers, series, cursors, i, name, start, end, w); }
    }
  }

  method ServeSeries(native: Native, readers: seq<Reader>, series: seq<Series>, cursors: seq<Cursor>, event: Event, ghost w: World)
    returns (series': seq<Series>, note: Note)
    requires Client(native, readers, series, cursors) && Shows(native, readers, series, cursors, w)
    requires OfSeries(event)
    modifies native
    ensures Client(native, readers, series', cursors)
    ensures Places(w) && Shows(native, readers, series', cursors, ActSeries(w, event).world) && note == ActSeries(w, event).note
  {
    ShownPlaces(native, readers, series, cursors, w);
    hide Client, Shows, Places, ActPrepare, ActSeriesRange, ActLookup;
    series', note := series, SKIPPED;
    match event {
      case DoPrepare(i, name) => if i < |readers| { series', note := PrepareSeries(native, readers, series, cursors, i, name, w); }
      case DoSeriesRange(k, start, end) => if k < |series| { note := UseSeries(native, readers, series, cursors, k, start, end, w); }
      case DoLookup(i, k, target, mode, limit) =>
        if i < |readers| && k < |series| { note := LookUp(native, readers, series, cursors, i, k, target, mode, limit, w); }
    }
  }

  method ServeCursor(native: Native, readers: seq<Reader>, series: seq<Series>, cursors: seq<Cursor>, event: Event, ghost w: World)
    returns (cursors': seq<Cursor>, note: Note)
    requires Client(native, readers, series, cursors) && Shows(native, readers, series, cursors, w)
    requires !OfReader(event) && !OfSeries(event)
    modifies native, cursors
    ensures Client(native, readers, series, cursors')
    ensures Places(w) && Shows(native, readers, series, cursors', ActCursors(w, event).world) && note == ActCursors(w, event).note
    ensures forall k :: 0 <= k < |cursors'| ==> cursors'[k] in cursors || fresh(cursors'[k])
  {
    ShownPlaces(native, readers, series, cursors, w);
    hide Client, Shows, Places, ActCursor, ActNext, Dropped;
    cursors', note := cursors, SKIPPED;
    match event {
      case DoCursor(i, name, start, end) =>
        if i < |readers| { cursors', note := OpenCursor(native, readers, series, cursors, i, name, start, end, w); }
      case DoNext(k, timestamps, values) =>
        if k < |cursors| { note := NextCursor(native, readers, series, cursors, k, timestamps, values, w); }
      case DoCloseCursor(k) => if k < |cursors| { CloseCursor(native, readers, series, cursors, k, w); }
    }
  }

  method Serve(native: Native, readers: seq<Reader>, series: seq<Series>, cursors: seq<Cursor>, event: Event, ghost w: World)
    returns (readers': seq<Reader>, series': seq<Series>, cursors': seq<Cursor>, note: Note)
    requires Client(native, readers, series, cursors) && Shows(native, readers, series, cursors, w)
    modifies native, readers, cursors
    ensures Client(native, readers', series', cursors')
    ensures Places(w) && Shows(native, readers', series', cursors', Act(w, event).world) && note == Act(w, event).note
    ensures forall i :: 0 <= i < |readers'| ==> readers'[i] in readers || fresh(readers'[i])
    ensures forall k :: 0 <= k < |cursors'| ==> cursors'[k] in cursors || fresh(cursors'[k])
  {
    hide Client, Shows, Places, ActReader, ActSeries, ActCursors, OfReader, OfSeries;
    readers', series', cursors' := readers, series, cursors;
    if OfReader(event) {
      readers', note := ServeReader(native, readers, series, cursors, event, w);
    } else if OfSeries(event) {
      series', note := ServeSeries(native, readers, series, cursors, event, w);
    } else {
      cursors', note := ServeCursor(native, readers, series, cursors, event, w);
    }
  }

  lemma AllClosed(native: Native, readers: seq<Reader>, series: seq<Series>, cursors: seq<Cursor>)
    requires Client(native, readers, series, cursors)
    ensures (forall i :: 0 <= i < |readers| ==> readers[i].handle.None?) ==>
              forall h :: 0 <= h < |native.readers| ==> !native.readers[h].open
    ensures (forall k :: 0 <= k < |cursors| ==> cursors[k].native.None?) ==>
              forall c :: 0 <= c < |native.cursors| ==> native.cursors[c].destroyed
  {
  }

  lemma NoClient(native: Native)
    requires native.readers == [] && native.cursors == []
    ensures Client(native, [], [], [])
    ensures Shows(native, [], [], [], World([], [], [], [], [], native.failures, native.arrivals))
  {
  }

  /** Every cursor closed, then every reader. */
  ghost function Shut(w: World, cursors: nat, readers: nat): (r: World)
    requires cursors <= |w.cursors| && readers <= |w.readers|
    ensures |r.cursors| == |w.cursors| && |r.readers| == |w.readers|
    decreases readers, cursors
  {
    if readers > 0 then ActClose(Shut(w, cursors, readers - 1), readers - 1).world
    else if cursors > 0 then Dropped(Shut(w, cursors - 1, 0), cursors - 1, true)
    else w
  }

  /**
   Any calls on any readers, series and cursors, each with the outcome told on values, then every cursor and
   reader closed. Every native call met its precondition on the way, so nothing was closed or destroyed
   twice; at the end nothing is left.
   */
  method Run(events: seq<Event>, failures: seq<bool>, arrivals: seq<Arrival>) returns (native: Native, notes: seq<Note>)
    ensures notes == ActAll(events, failures, arrivals).notes
    ensures var end := ActAll(events, failures, arrivals).world;
            var shut := Shut(end, |end.cursors|, |end.readers|);
            native.readers == shut.natives && native.cursors == shut.states && native.failures == shut.failures
    ensures forall h :: 0 <= h < |native.readers| ==> !native.readers[h].open
    ensures forall c :: 0 <= c < |native.cursors| ==> native.cursors[c].destroyed
  {
    hide Client, Act, ActClose, Dropped, Shows;
    native := new Native(failures, arrivals);
    NoClient(native);
    var readers: seq<Reader>, series: seq<Series>, cursors: seq<Cursor> := [], [], [];
    ghost var w := World([], [], [], [], [], failures, arrivals);
    notes := [];
    assert events[..0] == [];
    for i := 0 to |events|
      invariant Client(native, readers, series, cursors) && Shows(native, readers, series, cursors, w)
      invariant ActAll(events[..i], failures, arrivals) == History(w, notes)
      invariant fresh(native) && fresh(readers) && fresh(cursors)
    {
      ActLast(events, i, failures, arrivals);
      var note;
      readers, series, cursors, note := Serve(native, readers, series, cursors, events[i], w);
      w, notes := Act(w, events[i]).world, notes + [note];
    }
    assert events[..|events|] == events;
    ghost var end := w;
    ShownPlaces(native, readers, series, cursors, w);
    for k := 0 to |cursors|
      invariant Client(native, readers, series, cursors) && Shows(native, readers, series, cursors, Shut(end, k, 0))
      invariant forall j :: 0 <= j < k ==> cursors[j].native.None?
    {
      CloseCursor(native, readers, series, cursors, k, Shut(end, k, 0));
    }
    AllClosed(native, readers, series, cursors);
    for i := 0 to |readers|
      invariant Client(native, readers, series, cursors) && Shows(native, readers, series, cursors, Shut(end, |cursors|, i))
      invariant forall j :: 0 <= j < i ==> readers[j].handle.None?
      invariant forall c :: 0 <= c < |native.cursors| ==> native.cursors[c].destroyed
    {
      var note := CloseReader(native, readers, series, cursors, i, Shut(end, |cursors|, i));
    }
    AllClosed(native, readers, series, cursors);
    ShownNatives(native, readers, series, cursors, Shut(end, |cursors|, |readers|));
  }

  lemma ShownNatives(native: Native, readers: seq<Reader>, series: seq<Series>, cursors: seq<Cursor>, w: World)
    requires Shows(native, readers, series, cursors, w)
    ensures native.readers == w.natives && native.cursors == w.states && native.failures == w.failures
  {
  }
}

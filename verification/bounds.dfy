/**
 What holds of the oracle and of the extents in every run, whatever its faults do to the agreement: no
 hypothesis on the bytes, the script or the operations is made.
 */
module Bounds {
  import opened Options
  import opened Objects
  import opened Encodings
  import opened Storage
  import opened Engine
  import opened Appender
  import opened Checkpoints
  import opened Oracle
  import opened Generations
  import opened Simulation
  import opened Runs

  /**
   One history entry per generation, extents and counts that never shrink, points in order, the reader's
   counts within them, and the extents of the two named generations within the two images.
   */
  ghost predicate InBounds(s: Sim) {
    && ModelOk(s.model)
    && s.model.history[s.model.current].endSize <= |s.store.dirty|
    && s.model.history[s.model.durable].endSize <= |s.store.durable|
  }

  /** What keeps it so: writes of objects and of roots stay apart, and the flag tells a synced image. */
  ghost predicate Bounded(s: Sim) {
    && Ready(s) && InBounds(s)
    && |s.store.dirty| >= BLOCK_SIZE && s.model.history[0].endSize >= BLOCK_SIZE && s.writer.writeOffset >= BLOCK_SIZE
    && FlagTells(s.store)
  }

  predicate FlagTells(t: Store) {
    t.priorGenerationBecameDurable ==> |t.dirty| <= |t.durable|
  }

  /** An object lies past the control block, a root inside it. */
  predicate Apart(action: Action) {
    action.Write? ==> action.offset >= BLOCK_SIZE || action.offset + SizeOf(action.item) <= BLOCK_SIZE
  }

  ghost predicate AllApart(actions: seq<Action>) {
    forall k :: 0 <= k < |actions| ==> Apart(actions[k])
  }

  lemma ApartLast(rest: seq<Action>, last: Action)
    ensures AllApart(rest + [last]) <==> AllApart(rest) && Apart(last)
  {
    var actions := rest + [last];
    assert actions[|rest|] == last;
    assert forall k :: 0 <= k < |rest| ==> actions[k] == rest[k];
  }

  lemma ApartBoth(a: seq<Action>, b: seq<Action>)
    requires AllApart(a) && AllApart(b)
    ensures AllApart(a + b)
  {
  }

  // ---- Where an operation writes ----

  /** A draft past the control block that keeps its writes past it. */
  ghost predicate DraftApart(d: Draft) {
    d.offset >= BLOCK_SIZE && AllApart(d.actions)
  }

  lemma EmitApart(d: Draft, item: Object)
    requires DraftApart(d)
    ensures DraftApart(Emit(d, item))
  {
    hide AllApart;
    ApartLast(d.actions, Write(item, Align8(d.offset)));
  }

  lemma {:induction false} FillApart(d: Draft, layout: Layout, series: nat, pending: seq<Point>, batch: seq<Point>)
    requires DraftApart(d) && |pending| <= RECORDS_MAX
    ensures DraftApart(Fill(d, layout, series, pending, batch).0)
    decreases |batch|, |pending|
  {
    hide DraftApart, Emit;
    if batch == [] {
    } else if |pending| == RECORDS_MAX {
      EmitApart(d, Page(SketchAt(layout, |d.actions|).size, series, pending));
      FillApart(EmitPage(d, layout, series, pending), layout, series, [], batch);
    } else if pending == [] && |batch| >= RECORDS_MAX {
      EmitApart(d, Page(SketchAt(layout, |d.actions|).size, series, batch[..RECORDS_MAX]));
      FillApart(EmitPage(d, layout, series, batch[..RECORDS_MAX]), layout, series, [], batch[RECORDS_MAX..]);
    } else {
      var room := RECORDS_MAX - |pending|;
      var amount := if room < |batch| then room else |batch|;
      FillApart(d, layout, series, pending + batch[..amount], batch[amount..]);
    }
  }

  lemma {:induction false} FlushApart(d: Draft, layout: Layout, pending: seq<seq<Point>>, n: nat)
    requires DraftApart(d) && n <= |pending|
    ensures DraftApart(FlushAll(d, layout, pending, n))
  {
    hide DraftApart, Emit;
    if n > 0 {
      FlushApart(d, layout, pending, n - 1);
      var before := FlushAll(d, layout, pending, n - 1);
      EmitApart(before, Page(SketchAt(layout, |before.actions|).size, n - 1, pending[n - 1]));
    }
  }

  lemma {:induction false} NodesApart(d: Draft, layout: Layout, n: nat)
    requires DraftApart(d)
    ensures DraftApart(EmitNodes(d, layout, n))
  {
    hide DraftApart, Emit;
    if n > 0 {
      NodesApart(d, layout, n - 1);
      var before := EmitNodes(d, layout, n - 1);
      EmitApart(before, NodeAt(layout, |before.actions|));
    }
  }

  /** A checkpoint writes its objects past the control block and its root inside it, and ends past it. */
  lemma PlanApart(w: Writer, sync: bool, layout: Layout)
    requires HasRoot(w) && w.writeOffset >= BLOCK_SIZE
    ensures var plan := PlanCheckpoint(w, sync, layout);
            && AllApart(plan.actions) && plan.writer.writeOffset >= BLOCK_SIZE && HasRoot(plan.writer)
  {
    var start := StartDraft(w);
    FlushApart(start, layout, w.pending, |w.pending|);
    NodesApart(FlushAll(start, layout, w.pending, |w.pending|), layout, layout.nodes);
    var d := CheckpointObjects(w, layout);
    var next := NextRoot(w, layout, d);
    EmitApart(d, next.manifest);
    hide CheckpointObjects, NextRoot;
    var objects := Emit(d, next.manifest);
    var syncs := if sync then [SyncFile] else [];
    var root := Write(next, SlotOffset(SlotOf(next.generation)));
    hide Emit;
    ApartBoth(objects.actions, syncs);
    ApartLast(objects.actions + syncs, root);
    ApartBoth(objects.actions + syncs + [root], syncs);
  }

  // ---- What the calls do to the sizes ----

  /**
   The volatile image never shrinks, and the durable one moves only up to it. While calls finish, and when a
   sync fails, the flag tells a synced image; when a write fails it still tells that what stood before is synced.
   */
  ghost predicate Grows(s: Store, o: Outcome) {
    var t := o.store;
    && |s.dirty| <= |t.dirty| && (t.durable == s.durable || |s.dirty| <= |t.durable|)
    && (t.priorGenerationBecameDurable ==> |s.dirty| <= |t.durable|)
    && (o.ok || t.faultOnSync ==> FlagTells(t))
  }

  lemma DoGrows(c: Codec, s: Store, t: Store, action: Action)
    requires Grows(s, Outcome(t, true)) && |s.dirty| >= BLOCK_SIZE && Apart(action)
    ensures Grows(s, Do(c, t, action))
  {
  }

  lemma {:induction false} ExecGrows(c: Codec, s: Store, actions: seq<Action>)
    requires AllApart(actions) && |s.dirty| >= BLOCK_SIZE && FlagTells(s)
    ensures Grows(s, Exec(c, s, actions))
  {
    hide Do, Grows, Apart, FlagTells;
    if actions == [] {
      NothingGrows(s);
    } else {
      var rest, last := actions[..|actions| - 1], actions[|actions| - 1];
      assert actions == rest + [last];
      ApartLast(rest, last);
      ExecGrows(c, s, rest);
      if Exec(c, s, rest).ok {
        OutcomeIs(Exec(c, s, rest));
        DoGrows(c, s, Exec(c, s, rest).store, last);
      }
    }
  }

  lemma NothingGrows(s: Store)
    requires FlagTells(s)
    ensures Grows(s, Outcome(s, true))
  {
  }

  lemma OutcomeIs(o: Outcome)
    requires o.ok
    ensures o == Outcome(o.store, true)
  {
  }

  /** A finished checkpoint with syncs leaves both images alike. */
  lemma SyncedAlike(c: Codec, s: Store, w: Writer, layout: Layout)
    requires HasRoot(w)
    ensures var o := Exec(c, s, PlanCheckpoint(w, true, layout).actions);
            o.ok ==> o.store.durable == o.store.dirty
  {
    var actions := PlanCheckpoint(w, true, layout).actions;
    var rest := actions[..|actions| - 1];
    assert actions[|actions| - 1] == SyncFile;
    assert actions == rest + [SyncFile];
    ExecLast(c, s, rest, SyncFile);
  }

  // ---- Recovery ----

  /** Neither kind of crash loses a named generation: recovery stops at the one asked for. */
  lemma RecoveryStops(c: Codec, t: Store, m: Model, power: bool)
    requires Shape(m) && Recover(c, t, m, power).Some?
    requires m.history[m.durable].endSize <= |t.durable| && (!power ==> m.history[m.current].endSize <= |t.dirty|)
    ensures var n := Recover(c, t, m, power).value;
            && n.model.current == (if power then m.durable else m.current)
            && n.model.history == m.history[..n.model.current + 1] && n.model.durable == m.durable
  {
    hide Open;
  }

  /** Opening the file anew keeps everything in bounds, whatever root it finds. */
  lemma ReopenedBounded(c: Codec, t: Store, m: Model)
    requires ModelOk(m) && Reopened(c, t, m).Some? && FlagTells(t)
    requires |t.dirty| >= BLOCK_SIZE && m.history[0].endSize >= BLOCK_SIZE
    requires m.history[m.current].endSize <= |t.dirty| && m.history[m.durable].endSize <= |t.durable|
    ensures Bounded(Reopened(c, t, m).value)
  {
    SyncedOk(m);
    hide Open, ModelOk;
    ModelShape(m);
  }

  lemma ModelShape(m: Model)
    requires ModelOk(m)
    ensures Shape(m)
  {
  }

  lemma RecoveredBounded(c: Codec, t: Store, m: Model, power: bool)
    requires ModelOk(m) && Recover(c, t, m, power).Some?
    requires |t.dirty| >= BLOCK_SIZE && |t.durable| >= BLOCK_SIZE && m.history[0].endSize >= BLOCK_SIZE
    requires m.history[m.durable].endSize <= |t.durable| && (!power ==> m.history[m.current].endSize <= |t.dirty|)
    ensures Bounded(Recover(c, t, m, power).value)
  {
    ModelShape(m);
    RecoveryStops(c, t, m, power);
    var g := if power then m.durable else m.current;
    RestoreOk(m, g);
    hide Open, ModelOk, Reopened, Bounded;
    ReopenedBounded(c, CrashStore(t, power), Restore(m, g));
  }

  lemma SyncedOk(m: Model)
    requires ModelOk(m)
    ensures ModelOk(SyncReader(m))
  {
  }

  // ---- Every operation ----

  lemma TruncationBounded(c: Codec, s: Sim)
    requires Bounded(s) && TruncateStep(c, s).Some?
    ensures Bounded(TruncateStep(c, s).value)
  {
    var size := TruncatedSize(s.model, |s.store.dirty|);
    if size.Some? {
      CutBounded(c, s, size.value);
    }
  }

  lemma CutBounded(c: Codec, s: Sim, size: nat)
    requires Bounded(s) && TruncatedSize(s.model, |s.store.dirty|) == Some(size)
    requires Recover(c, TruncateStore(s.store, size), s.model, false).Some?
    ensures Bounded(Recover(c, TruncateStore(s.store, size), s.model, false).value)
  {
    var m, t := s.model, CrashStore(TruncateStore(s.store, size), false);
    var g := Fit(m.history, m.current, |t.dirty|);
    RestoreOk(m, g);
    CutSizes(m, g, size, |s.store.durable|);
    assert |t.dirty| == size;
    hide Open, ModelOk, Reopened, Restore, Fit, TruncatedSize, Bounded;
    ReopenedBounded(c, t, Restore(m, g));
  }

  /** The recovery loop ends where both cut images still hold the generation. */
  lemma CutSizes(m: Model, g: nat, size: nat, durable: nat)
    requires ModelOk(m) && m.current > 0 && m.history[m.current - 1].endSize <= size
    requires g <= m.current && (forall h :: g < h <= m.current ==> m.history[h].endSize > size)
    requires (g > 0 ==> m.history[g].endSize <= size)
    requires m.history[m.durable].endSize <= durable && m.history[0].endSize >= BLOCK_SIZE
    ensures var r := Restore(m, g);
            && r.history[0].endSize == m.history[0].endSize && size >= BLOCK_SIZE
            && r.history[r.current].endSize <= size
            && r.history[r.durable].endSize <= size && r.history[r.durable].endSize <= durable
  {
    assert g >= m.current - 1;
    assert m.history[0].endSize <= m.history[m.current - 1].endSize;
  }

  /** What a failed checkpoint records stays within what its calls left. */
  lemma FailedBounded(s: Sim, o: Outcome, order: MarkOrder)
    requires Bounded(s) && Grows(ForgetFault(s.store), o) && !o.ok
    ensures var m, t := AfterFailedCheckpoint(s.model, o.store, order), o.store;
            && ModelOk(m) && m.history[0].endSize >= BLOCK_SIZE && |t.dirty| >= BLOCK_SIZE && |t.durable| >= BLOCK_SIZE
            && m.history[m.durable].endSize <= |t.durable| && m.history[m.current].endSize <= |t.dirty|
  {
    var t := o.store;
    SnapshotOk(s.model, |t.dirty|, false);
    MarkOk(s.model);
    SnapshotOk(s.model.(durable := s.model.current), |t.dirty|, false);
    MarkOk(TakeSnapshot(s.model, |t.dirty|, false));
    ExtentsGrow(s.model);
  }

  lemma ExtentsGrow(m: Model)
    requires ModelOk(m)
    ensures m.history[0].endSize <= m.history[m.durable].endSize <= m.history[m.current].endSize
  {
  }

  lemma MarkOk(m: Model)
    requires ModelOk(m)
    ensures ModelOk(m.(durable := m.current))
  {
  }

  lemma SnapshotBounded(s: Sim, t: Store, w: Writer, sync: bool)
    requires Bounded(s) && Grows(ForgetFault(s.store), Outcome(t, true)) && (sync ==> t.durable == t.dirty)
    requires HasRoot(w) && w.writeOffset >= BLOCK_SIZE && |w.pending| == |s.writer.pending|
    requires forall i :: 0 <= i < |w.pending| ==> |w.pending[i]| <= RECORDS_MAX
    ensures Bounded(Sim(t, TakeSnapshot(s.model, |t.dirty|, sync), w, s.reader))
  {
    SnapshotOk(s.model, |t.dirty|, sync);
    ExtentsHere(s);
    hide ModelOk;
  }

  lemma CheckpointBounded(c: Codec, s: Sim, sync: bool, layout: Layout, order: MarkOrder)
    requires Bounded(s) && CheckpointStep(c, s, sync, layout, order).Some?
    ensures Bounded(CheckpointStep(c, s, sync, layout, order).value)
  {
    var store := ForgetFault(s.store);
    var plan := PlanCheckpoint(s.writer, sync, layout);
    var o := Exec(c, store, plan.actions);
    PlanApart(s.writer, sync, layout);
    ExecGrows(c, store, plan.actions);
    if o.ok {
      if sync {
        SyncedAlike(c, store, s.writer, layout);
      }
      hide PlanCheckpoint, Exec, ModelOk, Bounded;
      SnapshotBounded(s, o.store, plan.writer, sync);
    } else {
      FailedBounded(s, o, order);
      hide PlanCheckpoint, Exec, Recover, AfterFailedCheckpoint, Bounded;
      RecoveredBounded(c, o.store, AfterFailedCheckpoint(s.model, o.store, order), PowerLost(o.store));
    }
  }

  lemma ExtentsHere(s: Sim)
    requires Bounded(s)
    ensures Shape(s.model)
    ensures s.model.history[0].endSize <= s.model.history[s.model.durable].endSize <= s.model.history[s.model.current].endSize <= |s.store.dirty|
  {
  }

  lemma ReopenBounded(c: Codec, s: Sim, layout: Layout)
    requires Bounded(s) && ReopenStep(c, s, layout).Some?
    ensures Bounded(ReopenStep(c, s, layout).value)
  {
    var plan := PlanCheckpoint(s.writer, false, layout);
    var o := Exec(c, s.store, plan.actions);
    PlanApart(s.writer, false, layout);
    ExecGrows(c, s.store, plan.actions);
    SnapshotOk(s.model, |o.store.dirty|, false);
    ExtentsHere(s);
    hide PlanCheckpoint, Exec, Recover, Reopened, ModelOk;
    if o.ok {
      ReopenedBounded(c, o.store, TakeSnapshot(s.model, |o.store.dirty|, false));
    } else {
      RecoveredBounded(c, o.store, s.model, PowerLost(o.store));
    }
  }

  lemma AppendBounded(c: Codec, s: Sim, series: nat, arrivals: seq<Arrival>, layout: Layout)
    requires Bounded(s) && series < |s.model.points| && AppendStep(c, s, series, arrivals, layout).Some?
    ensures Bounded(AppendStep(c, s, series, arrivals, layout).value)
  {
    var batch := Batch(LastTimestamp(s.model.points[series]), arrivals);
    ExtentsHere(s);
    if batch != [] {
      var store := ForgetFault(s.store);
      var (d, rest) := Fill(StartDraft(s.writer), layout, series, s.writer.pending[series], batch);
      FillApart(StartDraft(s.writer), layout, series, s.writer.pending[series], batch);
      ExecGrows(c, store, d.actions);
      AppendInOrder(s.model.points[series], arrivals);
      hide Exec, Recover, Fill, Batch, Accepts, ModelOk, StrictlyIncreasing, AllApart, Bounded;
      var o := Exec(c, store, d.actions);
      if o.ok {
        AppendedBounded(s, o, series, batch, AppendStep(c, s, series, arrivals, layout).value);
      } else {
        FailedWritesBounded(c, s, o);
      }
    }
  }

  lemma AppendedBounded(s: Sim, o: Outcome, series: nat, batch: seq<Point>, n: Sim)
    requires Bounded(s) && series < |s.model.points| && Grows(ForgetFault(s.store), o) && o.ok
    requires StrictlyIncreasing(s.model.points[series] + batch)
    requires n.store == o.store && n.model == s.model.(points := s.model.points[series := s.model.points[series] + batch])
    requires Ready(n) && n.writer.writeOffset >= BLOCK_SIZE
    ensures Bounded(n)
  {
    LongerOk(s.model, series, batch);
    ExtentsHere(s);
    hide ModelOk, StrictlyIncreasing;
  }

  /** Recovery after writes that failed with nothing marked. */
  lemma FailedWritesBounded(c: Codec, s: Sim, o: Outcome)
    requires Bounded(s) && Grows(ForgetFault(s.store), o) && Ready(s)
    requires Recover(c, o.store, s.model, PowerLost(o.store)).Some?
    ensures Bounded(Recover(c, o.store, s.model, PowerLost(o.store)).value)
  {
    ExtentsHere(s);
    hide ModelOk, Recover;
    RecoveredBounded(c, o.store, s.model, PowerLost(o.store));
  }

  lemma LongerOk(m: Model, series: nat, batch: seq<Point>)
    requires ModelOk(m) && series < |m.points| && StrictlyIncreasing(m.points[series] + batch)
    ensures ModelOk(m.(points := m.points[series := m.points[series] + batch]))
  {
    hide StrictlyIncreasing;
  }

  lemma RefreshBounded(c: Codec, s: Sim)
    requires Bounded(s) && RefreshStep(c, s).Some?
    ensures Bounded(RefreshStep(c, s).value)
  {
    SyncedOk(s.model);
    hide ModelOk, RefreshReader;
  }

  lemma StepBounded(c: Codec, s: Sim, op: Op, order: MarkOrder)
    requires Bounded(s) && KnownSeries(op, |s.model.points|) && Step(c, s, op, order).Some?
    ensures Bounded(Step(c, s, op, order).value)
  {
    hide TruncateStep, CheckpointStep, ReopenStep, RefreshStep, AppendStep, Bounded;
    match op
    case TruncateFile => TruncationBounded(c, s);
    case Checkpoint(sync, layout) => CheckpointBounded(c, s, sync, layout, order);
    case Reopen(layout) => ReopenBounded(c, s, layout);
    case Refresh => RefreshBounded(c, s);
    case Query =>
    case Append(series, arrivals, layout) => AppendBounded(c, s, series, arrivals, layout);
  }

  // ---- Runs ----

  lemma {:induction false} RunBounded(c: Codec, s: Sim, ops: seq<Op>, order: MarkOrder)
    requires Bounded(s) && KnownOps(ops, |s.model.points|) && RunOps(c, s, ops, order).Some?
    ensures Bounded(RunOps(c, s, ops, order).value)
    decreases |ops|
  {
    hide Step, KnownSeries, InBounds;
    if ops != [] {
      StepBounded(c, s, ops[0], order);
      RunBounded(c, Step(c, s, ops[0], order).value, ops[1..], order);
    }
  }

  lemma StartBounded(c: Codec, count: nat, first: Sketch, script: seq<Choice>)
    ensures Bounded(Start(c, count, first, script))
  {
    CreatedStore(c, count, first, script);
    CreatedBytes(c, first);
    hide Exec, CreatedImage;
  }

  /**
   Every state of every run from a new file is in bounds: for every coding, number of series, fault script,
   operation sequence, truncations included, and order of marking.
   */
  lemma ReachableInBounds(c: Codec, count: nat, first: Sketch, script: seq<Choice>, ops: seq<Op>, order: MarkOrder)
    requires KnownOps(ops, count)
    ensures var r := RunOps(c, Start(c, count, first, script), ops, order);
            r.Some? ==> InBounds(r.value)
  {
    hide RunOps, InBounds, Start;
    StartBounded(c, count, first, script);
    if RunOps(c, Start(c, count, first, script), ops, order).Some? {
      RunBounded(c, Start(c, count, first, script), ops, order);
    }
  }

  // ---- Where every recovery stops ----

  /** The storage and the oracle that recovery starts from, when the operation's calls do not all finish. */
  datatype Broken = Broken(store: Store, model: Model)

  function BrokenOff(c: Codec, s: Sim, op: Op, order: MarkOrder): (b: Option<Broken>)
    requires Ready(s) && KnownSeries(op, |s.model.points|)
    ensures b.Some? ==> Shape(b.value.model)
  {
    match op
    case Checkpoint(sync, layout) =>
      var o := Exec(c, ForgetFault(s.store), PlanCheckpoint(s.writer, sync, layout).actions);
      if o.ok then None else Some(Broken(o.store, AfterFailedCheckpoint(s.model, o.store, order)))
    case Reopen(layout) =>
      var o := Exec(c, s.store, PlanCheckpoint(s.writer, false, layout).actions);
      if o.ok then None else Some(Broken(o.store, s.model))
    case Append(series, arrivals, layout) =>
      var batch := Batch(LastTimestamp(s.model.points[series]), arrivals);
      var o := Exec(c, ForgetFault(s.store), Fill(StartDraft(s.writer), layout, series, s.writer.pending[series], batch).0.actions);
      if o.ok || !Accepts(s.writer, series, batch) || batch == [] then None else Some(Broken(o.store, s.model))
    case TruncateFile => None
    case Refresh => None
    case Query => None
  }

  /** After power loss the oracle is back at its durable generation, after a process crash at its current one. */
  ghost predicate StopsThere(b: Broken, n: Sim)
    requires Shape(b.model)
  {
    && n.model.current == (if PowerLost(b.store) then b.model.durable else b.model.current)
    && n.model.history == b.model.history[..n.model.current + 1] && n.model.durable == b.model.durable
  }

  lemma BrokenFits(c: Codec, s: Sim, op: Op, order: MarkOrder)
    requires Bounded(s) && KnownSeries(op, |s.model.points|) && BrokenOff(c, s, op, order).Some?
    ensures var b := BrokenOff(c, s, op, order).value;
            && b.model.history[b.model.durable].endSize <= |b.store.durable|
            && b.model.history[b.model.current].endSize <= |b.store.dirty|
  {
    ExtentsHere(s);
    match op
    case Checkpoint(sync, layout) =>
      PlanApart(s.writer, sync, layout);
      ExecGrows(c, ForgetFault(s.store), PlanCheckpoint(s.writer, sync, layout).actions);
      FailedBounded(s, Exec(c, ForgetFault(s.store), PlanCheckpoint(s.writer, sync, layout).actions), order);
    case Reopen(layout) =>
      PlanApart(s.writer, false, layout);
      ExecGrows(c, s.store, PlanCheckpoint(s.writer, false, layout).actions);
    case Append(series, arrivals, layout) =>
      var batch := Batch(LastTimestamp(s.model.points[series]), arrivals);
      FillApart(StartDraft(s.writer), layout, series, s.writer.pending[series], batch);
      ExecGrows(c, ForgetFault(s.store), Fill(StartDraft(s.writer), layout, series, s.writer.pending[series], batch).0.actions);
  }

  lemma BrokenRecovers(c: Codec, s: Sim, op: Op, order: MarkOrder)
    requires Ready(s) && KnownSeries(op, |s.model.points|) && BrokenOff(c, s, op, order).Some?
    ensures var b := BrokenOff(c, s, op, order).value; Step(c, s, op, order) == Recover(c, b.store, b.model, PowerLost(b.store))
  {
    hide Exec, PlanCheckpoint, Fill, Batch, Recover, AfterFailedCheckpoint, PowerLost, Accepts;
  }

  /** In every state of every run from a new file, an operation broken off recovers to that generation, if the file opens. */
  lemma ReachableStops(c: Codec, count: nat, first: Sketch, script: seq<Choice>, ops: seq<Op>, op: Op, order: MarkOrder)
    requires KnownOps(ops, count) && KnownSeries(op, count)
    ensures var r := RunOps(c, Start(c, count, first, script), ops, order);
            r.Some? ==>
              var b, n := BrokenOff(c, r.value, op, order), Step(c, r.value, op, order);
              b.Some? && n.Some? ==> StopsThere(b.value, n.value)
  {
    hide RunOps, InBounds, Start, Bounded, BrokenOff, Step, StopsThere, KnownOps;
    StartBounded(c, count, first, script);
    var r := RunOps(c, Start(c, count, first, script), ops, order);
    if r.Some? {
      RunBounded(c, Start(c, count, first, script), ops, order);
      if BrokenOff(c, r.value, op, order).Some? && Step(c, r.value, op, order).Some? {
        BrokenStops(c, r.value, op, order);
      }
    }
  }

  lemma BrokenStops(c: Codec, s: Sim, op: Op, order: MarkOrder)
    requires Ready(s) && Bounded(s) && KnownSeries(op, |s.model.points|) && BrokenOff(c, s, op, order).Some?
    requires Step(c, s, op, order).Some?
    ensures StopsThere(BrokenOff(c, s, op, order).value, Step(c, s, op, order).value)
  {
    hide BrokenOff, Step, Bounded, Recover, PowerLost;
    BrokenFits(c, s, op, order);
    BrokenRecovers(c, s, op, order);
    var b := BrokenOff(c, s, op, order).value;
    RecoveryStops(c, b.store, b.model, PowerLost(b.store));
  }
}

/**
 The simulator in its own imperative form: storage and oracle are objects updated in place, and every
 method is proved to do what the functions of Storage, Oracle and Simulation say. The engine's writer and
 reader are kept as values, replaced whole when they are reopened.
 */
module Simulator {
  import opened Options
  import opened Objects
  import opened Encodings
  import S = Storage
  import O = Oracle
  import opened Engine
  import opened Appender
  import opened Simulation
  import opened Agreement
  import opened Scripts
  import opened Runs
  import opened Generations
  import opened Checkpoints
  import opened FreshRuns
  import opened Told

  class MemoryStorage {
    var dirty: seq<Byte>
    var durable: seq<Byte>
    var faultsEnabled: bool
    var script: seq<S.Choice>
    var lastFault: Option<S.Fault>
    var faultOnSync: bool
    var publishedBeforeSyncFault: bool
    var priorGenerationBecameDurable: bool
    var lastCompletedWriteOffset: nat

    function State(): S.Store
      reads this
    {
      S.Store(dirty, durable, faultsEnabled, script, lastFault, faultOnSync, publishedBeforeSyncFault,
              priorGenerationBecameDurable, lastCompletedWriteOffset)
    }

    constructor (initial: S.Store)
      ensures State() == initial
    {
      dirty, durable := initial.dirty, initial.durable;
      faultsEnabled, script := initial.faultsEnabled, initial.script;
      lastFault, faultOnSync := initial.lastFault, initial.faultOnSync;
      publishedBeforeSyncFault := initial.publishedBeforeSyncFault;
      priorGenerationBecameDurable := initial.priorGenerationBecameDurable;
      lastCompletedWriteOffset := initial.lastCompletedWriteOffset;
    }

    /** Take the next fault choice. */
    method Draw() returns (choice: S.Choice)
      modifies this`script
      ensures choice == S.Draw(old(State())) && State() == old(State()).(script := S.Rest(old(State())))
    {
      if faultsEnabled && script != [] {
        choice, script := script[0], script[1..];
      } else {
        choice := S.NoFault;
      }
    }

    method WriteBytes(bytes: seq<Byte>, offset: nat)
      modifies this`dirty
      ensures dirty == S.Put(old(dirty), bytes, offset)
    {
      var end := offset + |bytes|;
      if end > |dirty| {
        dirty := dirty + seq(end - |dirty|, _ => 0);
      }
      dirty := dirty[..offset] + bytes + dirty[end..];
    }

    method BeforeWrite(bytes: seq<Byte>, offset: nat) returns (ok: bool)
      modifies this
      ensures S.Outcome(State(), ok) == S.BeforeWrite(old(State()), bytes, offset)
    {
      lastFault, faultOnSync, publishedBeforeSyncFault := None, false, false;
      var choice := Draw();
      match choice
      case Crash(power) =>
        lastFault, ok := Some(S.CrashKind(power)), false;
      case FailWrite =>
        lastFault, ok := Some(S.WriteFailure), false;
      case Short(k) =>
        ok := |bytes| <= 1;
        if !ok {
          WriteBytes(bytes[..S.ShortAmount(k, |bytes|)], offset);
          lastFault := Some(S.ShortWrite);
        }
      case NoFault =>
        ok := true;
    }

    method PwriteAll(bytes: seq<Byte>, offset: nat) returns (ok: bool)
      modifies this
      ensures S.Outcome(State(), ok) == S.PwriteAll(old(State()), bytes, offset)
    {
      ok := BeforeWrite(bytes, offset);
      if ok {
        WriteBytes(bytes, offset);
        lastCompletedWriteOffset := offset;
        if offset >= BLOCK_SIZE {
          priorGenerationBecameDurable := false;
        }
      }
    }

    /** At most `length` bytes from `offset`; fewer, or none, near and past the end of the file. */
    method PreadAll(length: nat, offset: nat) returns (bytes: seq<Byte>)
      ensures |bytes| == if offset >= |dirty| then 0 else Min(length, |dirty| - offset)
      ensures forall p :: 0 <= p < |bytes| ==> bytes[p] == dirty[offset + p]
    {
      if offset >= |dirty| {
        return [];
      }
      var amount := Min(length, |dirty| - offset);
      bytes := dirty[offset..offset + amount];
    }

    method SyncFile() returns (ok: bool)
      modifies this
      ensures S.Outcome(State(), ok) == S.Sync(old(State()))
    {
      lastFault, faultOnSync, publishedBeforeSyncFault := None, false, false;
      var choice := Draw();
      if choice.Crash? {
        lastFault, faultOnSync := Some(S.CrashKind(choice.power)), true;
        publishedBeforeSyncFault := lastCompletedWriteOffset < BLOCK_SIZE;
        return false;
      }
      durable := dirty;
      priorGenerationBecameDurable := lastCompletedWriteOffset >= BLOCK_SIZE;
      ok := true;
    }

    method CrashNow(power: bool)
      modifies this
      ensures State() == S.CrashStore(old(State()), power)
    {
      if power {
        dirty := durable;
      }
      lastFault, priorGenerationBecameDurable := None, false;
    }

    method TruncateTo(size: nat)
      requires size <= |dirty|
      modifies this
      ensures State() == S.TruncateStore(old(State()), size)
    {
      dirty := dirty[..size];
      if |durable| > size {
        durable := durable[..size];
      }
      lastFault := Some(S.Truncation);
    }
  }

  class OracleModel {
    var points: seq<seq<Point>>
    var history: seq<O.Snapshot>
    var current: nat
    var durable: nat
    var readerCounts: seq<nat>

    function State(): O.Model
      reads this
    {
      O.Model(points, history, current, durable, readerCounts)
    }

    constructor (initial: O.Model)
      ensures State() == initial
    {
      points, history := initial.points, initial.history;
      current, durable, readerCounts := initial.current, initial.durable, initial.readerCounts;
    }

    method TakeSnapshot(endSize: nat, isDurable: bool)
      modifies this
      ensures State() == O.TakeSnapshot(old(State()), endSize, isDurable)
    {
      var counts := [];
      for i := 0 to |points|
        invariant counts == O.Lengths(points)[..i]
      {
        counts := counts + [|points[i]|];
      }
      assert counts == O.Lengths(points);
      history := history + [O.Snapshot(counts, endSize)];
      current := |history| - 1;
      if isDurable {
        durable := current;
      }
    }

    method Restore(generation: nat)
      requires O.Shape(State()) && generation <= current
      modifies this
      ensures State() == O.Restore(old(State()), generation)
    {
      var committed := history[generation];
      for i := 0 to |points|
        invariant |points| == |old(points)|
        invariant forall k :: 0 <= k < i ==> points[k] == Cut(old(points)[k], committed.counts[k])
        invariant forall k :: i <= k < |points| ==> points[k] == old(points)[k]
        invariant unchanged(`history) && unchanged(`current) && unchanged(`durable)
      {
        points := points[i := Cut(points[i], committed.counts[i])];
      }
      assert points == O.CutPoints(old(points), committed.counts);
      history := history[..generation + 1];
      current := generation;
      if durable > generation {
        durable := generation;
      }
      readerCounts := committed.counts;
    }
  }

  class Simulator {
    const codec: Codec
    const storage: MemoryStorage
    const model: OracleModel
    var writer: Writer
    var reader: Reader

    function State(): Sim
      reads this, storage, model
    {
      Sim(storage.State(), model.State(), writer, reader)
    }

    constructor (codec: Codec, initial: Sim)
      ensures State() == initial && this.codec == codec && fresh(storage) && fresh(model)
    {
      this.codec := codec;
      storage := new MemoryStorage(initial.store);
      model := new OracleModel(initial.model);
      writer, reader := initial.writer, initial.reader;
    }

    /** Make the engine's calls in order until one fails. */
    method Perform(actions: seq<Action>) returns (ok: bool)
      modifies storage
      ensures S.Outcome(storage.State(), ok) == Exec(codec, old(storage.State()), actions)
    {
      hide S.PwriteAll, S.Sync;
      ghost var start := storage.State();
      ok := true;
      var i := 0;
      while i < |actions| && ok
        invariant i <= |actions|
        invariant S.Outcome(storage.State(), ok) == Exec(codec, start, actions[..i])
      {
        ExecLast(codec, start, actions[..i], actions[i]);
        assert actions[..i] + [actions[i]] == actions[..i + 1];
        if actions[i].Write? {
          ok := storage.PwriteAll(codec.encode(actions[i].item), actions[i].offset);
        } else {
          ok := storage.SyncFile();
        }
        i := i + 1;
      }
      if ok {
        assert actions[..i] == actions;
      } else {
        ExecStops(codec, start, actions, i);
      }
    }

    /** Open a writer and a reader on the volatile image. */
    method ReopenBoth() returns (ok: bool)
      requires O.Shape(model.State())
      modifies this, model
      ensures ok <==> Reopened(codec, old(storage.State()), old(model.State())).Some?
      ensures ok ==> State() == Reopened(codec, old(storage.State()), old(model.State())).value
    {
      var root := Open(codec, storage.dirty);
      ok := root.Some?;
      if ok {
        writer := OpenWriter(root.value, |storage.dirty|, |model.points|);
        reader := Reader(root.value, |storage.dirty|);
        model.readerCounts := model.history[model.current].counts;
      }
    }

    /** Roll back to the newest generation whose extent is still there. */
    method RecoverFrom(power: bool) returns (ok: bool)
      requires O.Shape(model.State())
      modifies this, storage, model
      ensures ok <==> Recover(codec, old(storage.State()), old(model.State()), power).Some?
      ensures ok ==> State() == Recover(codec, old(storage.State()), old(model.State()), power).value
    {
      storage.CrashNow(power);
      var generation: nat := if power then model.durable else model.current;
      ghost var start := generation;
      while generation > 0 && model.history[generation].endSize > |storage.dirty|
        invariant generation <= model.current
        invariant O.Fit(model.history, generation, |storage.dirty|) == O.Fit(model.history, start, |storage.dirty|)
      {
        generation := generation - 1;
      }
      model.Restore(generation);
      ok := ReopenBoth();
    }

    method TruncateOperation() returns (ok: bool)
      requires Ready(State())
      modifies this, storage, model
      ensures Matches(ok, State(), TruncateStep(codec, old(State())))
    {
      hide S.TruncateStore, Recover;
      ok := true;
      if |model.history| > 1 {
        var target := model.history[model.current - 1].endSize;
        if target < |storage.dirty| {
          storage.TruncateTo(target + Min(7, |storage.dirty| - target));
          ok := RecoverFrom(false);
        }
      }
    }

    /** Record what a failed checkpoint left: the snapshot first, the durable mark after it. */
    method RecordFailure()
      requires O.Shape(model.State())
      modifies model
      ensures model.State() == AfterFailedCheckpoint(old(model.State()), storage.State(), AfterSnapshot)
    {
      if storage.lastFault == Some(S.ProcessCrash) && storage.faultOnSync && storage.publishedBeforeSyncFault {
        model.TakeSnapshot(|storage.dirty|, false);
      }
      if storage.priorGenerationBecameDurable {
        model.durable := model.current;
      }
    }

    method CheckpointOperation(sync: bool, layout: Layout) returns (ok: bool)
      requires Ready(State())
      modifies this, storage, model
      ensures Matches(ok, State(), CheckpointStep(codec, old(State()), sync, layout, AfterSnapshot))
    {
      hide PlanCheckpoint, Exec, Recover;
      storage.lastFault := None;
      var plan := PlanCheckpoint(writer, sync, layout);
      ok := Perform(plan.actions);
      if ok {
        model.TakeSnapshot(|storage.dirty|, sync);
        writer := plan.writer;
      } else {
        RecordFailure();
        ok := RecoverFrom(storage.lastFault == Some(S.PowerLoss));
      }
    }

    method ReopenOperation(layout: Layout) returns (ok: bool)
      requires Ready(State())
      modifies this, storage, model
      ensures Matches(ok, State(), ReopenStep(codec, old(State()), layout))
    {
      hide PlanCheckpoint, Exec, Recover, Reopened;
      var plan := PlanCheckpoint(writer, false, layout);
      ok := Perform(plan.actions);
      if ok {
        model.TakeSnapshot(|storage.dirty|, false);
        ok := ReopenBoth();
      } else {
        ok := RecoverFrom(storage.lastFault == Some(S.PowerLoss));
      }
    }

    method RefreshOperation() returns (ok: bool)
      requires Ready(State())
      modifies this, model
      ensures Matches(ok, State(), RefreshStep(codec, old(State())))
    {
      var refreshed := RefreshReader(codec, reader, storage.dirty);
      ok := refreshed.Some?;
      if ok {
        reader := refreshed.value.reader;
        if refreshed.value.changed {
          model.readerCounts := model.history[model.current].counts;
        }
      }
    }

    method AppendOperation(series: nat, arrivals: seq<Arrival>, layout: Layout) returns (ok: bool)
      requires Ready(State()) && series < |model.points|
      modifies this, storage, model
      ensures Matches(ok, State(), AppendStep(codec, old(State()), series, arrivals, layout))
    {
      hide Fill, Exec, Recover, Batch, Accepts;
      var batch := NextBatch(LastTimestamp(model.points[series]), arrivals);
      storage.lastFault := None;
      ok := Accepts(writer, series, batch);
      if !ok || batch == [] {
        return;
      }
      var (d, rest) := Fill(StartDraft(writer), layout, series, writer.pending[series], batch);
      ok := Perform(d.actions);
      if !ok {
        ok := RecoverFrom(storage.lastFault == Some(S.PowerLoss));
        return;
      }
      var kept := |writer.root.manifest.pages|;
      var flushed := if kept <= |d.pages| then d.pages[kept..] else [];
      writer := Writer(writer.root, d.offset, writer.pending[series := rest], flushed, true);
      model.points := model.points[series := model.points[series] + batch];
    }

    /** One operation of the loop; `ok` is false when the simulator reports a failure. */
    method Operation(op: Op) returns (ok: bool)
      requires Ready(State()) && KnownSeries(op, |model.points|)
      modifies this, storage, model
      ensures Matches(ok, State(), Step(codec, old(State()), op, AfterSnapshot))
    {
      hide TruncateStep, CheckpointStep, ReopenStep, RefreshStep, AppendStep;
      match op
      case TruncateFile => ok := TruncateOperation();
      case Checkpoint(sync, layout) => ok := CheckpointOperation(sync, layout);
      case Reopen(layout) => ok := ReopenOperation(layout);
      case Refresh => ok := RefreshOperation();
      case Query => ok := true;
      case Append(series, arrivals, layout) => ok := AppendOperation(series, arrivals, layout);
    }

    /**
     The operation loop: it finishes exactly when the run does, in the run's last state, and otherwise stops
     in front of the operation the run stops at. If no operation is disturbed, the oracle agrees with both
     images wherever the loop stops, and it stops early only at a truncation. If none is foretold to be, the loop
     finishes.
     */
    method RunSeed(ops: seq<Op>) returns (done: nat, ok: bool)
      requires Ready(State()) && KnownOps(ops, |model.points|)
      modifies this, storage, model
      ensures ok <==> RunOps(codec, old(State()), ops, AfterSnapshot).Some?
      ensures ok ==> done == |ops| && RunOps(codec, old(State()), ops, AfterSnapshot) == Some(State())
      ensures !ok ==> done < |ops| && StopsAt(codec, old(State()), ops, AfterSnapshot, done)
      ensures old(Inv(codec, State())) && NeverForged(codec, old(State()), ops, AfterSnapshot) &&
              NeverDisturbed(codec, old(State()), ops, AfterSnapshot) ==>
                (ok ==> OracleAgrees(codec, State(), writer.root)) && (!ok ==> ops[done].TruncateFile?)
      ensures old(Inv(codec, State())) && NeverMixed(codec, old(State()), ops, AfterSnapshot) &&
              NeverForetold(codec, old(State()), ops, AfterSnapshot) ==>
                ok && OracleAgrees(codec, State(), writer.root)
    {
      hide Step, OracleAgrees, Inv, NeverForged, NeverDisturbed, NeverMixed, NeverForetold, RunOps, StopsAt, Ready, KnownSeries;
      ghost var start := State();
      done, ok := 0, true;
      RunOfNothing(codec, start, ops[..0]);
      while done < |ops|
        invariant done <= |ops|
        invariant Ready(State()) && |State().model.points| == |start.model.points|
        invariant RunOps(codec, start, ops[..done], AfterSnapshot) == Some(State())
        decreases |ops| - done
      {
        RunOfOneMore(codec, start, ops, done);
        ok := Operation(ops[done]);
        if !ok {
          StoppedRun(codec, start, ops, done);
          PassingRun(codec, start, ops);
          return;
        }
        done := done + 1;
      }
      assert ops[..done] == ops;
      if Inv(codec, start) && NeverForged(codec, start, ops, AfterSnapshot) && NeverDisturbed(codec, start, ops, AfterSnapshot) {
        UndisturbedRun(codec, start, ops, AfterSnapshot);
        InvAgrees(codec, State());
      }
      if Inv(codec, start) && NeverMixed(codec, start, ops, AfterSnapshot) && NeverForetold(codec, start, ops, AfterSnapshot) {
        ForetoldRunKeeps(codec, start, ops, AfterSnapshot);
        InvAgrees(codec, State());
      }
    }
  }

  /** A run of which nothing is foretold does not stop. */
  lemma PassingRun(c: Codec, s: Sim, ops: seq<Op>)
    requires Ready(s) && KnownOps(ops, |s.model.points|)
    ensures Inv(c, s) && NeverMixed(c, s, ops, AfterSnapshot) && NeverForetold(c, s, ops, AfterSnapshot) ==>
              RunOps(c, s, ops, AfterSnapshot).Some?
  {
    hide Inv, NeverMixed, NeverForetold, RunOps;
    if Inv(c, s) && NeverMixed(c, s, ops, AfterSnapshot) && NeverForetold(c, s, ops, AfterSnapshot) {
      ForetoldRunKeeps(c, s, ops, AfterSnapshot);
    }
  }

  lemma RunOfNothing(c: Codec, s: Sim, ops: seq<Op>)
    requires Ready(s) && ops == []
    ensures RunOps(c, s, ops, AfterSnapshot) == Some(s)
  {
  }

  /** A run one operation longer ends where that operation leads; if it leads nowhere, the run stops there. */
  lemma {:induction false} RunOfOneMore(c: Codec, s: Sim, ops: seq<Op>, k: nat)
    requires Ready(s) && KnownOps(ops, |s.model.points|) && k < |ops| && RunOps(c, s, ops[..k], AfterSnapshot).Some?
    ensures var x := RunOps(c, s, ops[..k], AfterSnapshot).value;
            && RunOps(c, s, ops[..k + 1], AfterSnapshot) == Step(c, x, ops[k], AfterSnapshot)
            && (Step(c, x, ops[k], AfterSnapshot).None? ==> StopsAt(c, s, ops, AfterSnapshot, k))
    decreases k
  {
    hide Step, Ready, KnownSeries;
    if k > 0 {
      var next := Step(c, s, ops[0], AfterSnapshot);
      assert ops[..k][0] == ops[..k + 1][0] == ops[0];
      assert ops[..k][1..] == ops[1..][..k - 1] && ops[..k + 1][1..] == ops[1..][..k];
      RunOfOneMore(c, next.value, ops[1..], k - 1);
    } else {
      assert ops[..1][1..] == [] && ops[..0] == [];
    }
  }

  lemma {:induction false} StopsIsNone(c: Codec, s: Sim, ops: seq<Op>, k: nat)
    requires Ready(s) && KnownOps(ops, |s.model.points|) && StopsAt(c, s, ops, AfterSnapshot, k)
    ensures k < |ops| && RunOps(c, s, ops, AfterSnapshot).None?
    decreases k
  {
    hide Step;
    if k > 0 {
      StopsIsNone(c, Step(c, s, ops[0], AfterSnapshot).value, ops[1..], k - 1);
    }
  }

  /** A run that stops has no last state, and an undisturbed one stops at a truncation. */
  lemma StoppedRun(c: Codec, s: Sim, ops: seq<Op>, k: nat)
    requires Ready(s) && KnownOps(ops, |s.model.points|) && StopsAt(c, s, ops, AfterSnapshot, k)
    ensures k < |ops| && RunOps(c, s, ops, AfterSnapshot).None?
    ensures Inv(c, s) && NeverForged(c, s, ops, AfterSnapshot) && NeverDisturbed(c, s, ops, AfterSnapshot) ==> ops[k].TruncateFile?
  {
    hide Step, Inv, NeverForged, NeverDisturbed, RunOps, StopsAt;
    StopsIsNone(c, s, ops, k);
    if Inv(c, s) && NeverForged(c, s, ops, AfterSnapshot) && NeverDisturbed(c, s, ops, AfterSnapshot) {
      StopsOnlyAtTruncation(c, s, ops, AfterSnapshot, k);
    }
  }

  ghost predicate Matches(ok: bool, after: Sim, expected: Option<Sim>) {
    (ok <==> expected.Some?) && (ok ==> after == expected.value)
  }

  /** Timestamps grow by the drawn gaps, from the last recorded one. */
  method NextBatch(start: int, arrivals: seq<Arrival>) returns (batch: seq<Point>)
    ensures batch == Batch(start, arrivals)
  {
    hide Batch;
    var last := start;
    batch := [];
    assert arrivals[0..] == arrivals;
    for i := 0 to |arrivals|
      invariant batch + Batch(last, arrivals[i..]) == Batch(start, arrivals)
    {
      BatchStep(batch, last, arrivals, i);
      last := last + arrivals[i].gap;
      batch := batch + [Point(last, arrivals[i].bits)];
    }
    BatchOfNone(last, arrivals[|arrivals|..]);
  }

  lemma BatchOfNone(last: int, arrivals: seq<Arrival>)
    requires arrivals == []
    ensures Batch(last, arrivals) == []
  {
  }

  lemma BatchStep(before: seq<Point>, last: int, arrivals: seq<Arrival>, i: nat)
    requires i < |arrivals|
    ensures var t := last + arrivals[i].gap;
            before + Batch(last, arrivals[i..]) == before + [Point(t, arrivals[i].bits)] + Batch(t, arrivals[i + 1..])
  {
    assert arrivals[i..][1..] == arrivals[i + 1..];
    assert Batch(last, arrivals[i..]) == [Point(last + arrivals[i].gap, arrivals[i].bits)] + Batch(last + arrivals[i].gap, arrivals[i + 1..]);
  }

  lemma {:induction false} ExecStops(c: Codec, s: S.Store, actions: seq<Action>, n: nat)
    requires n <= |actions| && !Exec(c, s, actions[..n]).ok
    ensures Exec(c, s, actions) == Exec(c, s, actions[..n])
    decreases |actions| - n
  {
    if n == |actions| {
      assert actions[..n] == actions;
    } else {
      ExecLast(c, s, actions[..n], actions[n]);
      assert actions[..n] + [actions[n]] == actions[..n + 1];
      ExecStops(c, s, actions, n + 1);
    }
  }
}

/**
 The simulator's operations as functions of its state, and the theorem that the oracle agrees with the
 bytes. An operation yields None when the simulator would report a failure and stop.
 */
module Simulation {
  import opened Options
  import opened Objects
  import opened Encodings
  import opened Storage
  import opened Engine
  import opened Images
  import opened Appender
  import opened Checkpoints
  import opened Oracle
  import opened Generations

  /** A reader keeps the root it adopted and the file size it last looked at. */
  datatype Reader = Reader(root: Object, observed: nat)

  datatype Sim = Sim(store: Store, model: Model, writer: Writer, reader: Reader)

  /** When a failed checkpoint marks the durable generation: as written, or before the snapshot. */
  datatype MarkOrder = AfterSnapshot | BeforeSnapshot

  datatype Arrival = Arrival(gap: Positive, bits: Bits)

  datatype Op =
    | TruncateFile
    | Checkpoint(sync: bool, layout: Layout)
    | Reopen(layout: Layout)
    | Refresh
    | Query
    | Append(series: nat, arrivals: seq<Arrival>, layout: Layout)

  /** The oracle and the writer know the same series. */
  ghost predicate Ready(s: Sim) {
    && Shape(s.model) && HasRoot(s.writer) && s.reader.root.Root? && |s.writer.pending| == |s.model.points|
    && forall i :: 0 <= i < |s.writer.pending| ==> |s.writer.pending[i]| <= RECORDS_MAX
  }

  predicate HasPages(r: Object) { r.Root? && r.manifest.Manifest? }

  predicate HasRoot(w: Writer) { HasPages(w.root) }

  // ---- Recovery ----

  function OpenWriter(root: Object, size: nat, count: nat): Writer {
    Writer(root, size, seq(count, _ => []), [], false)
  }

  /** The oracle adopts the counts of its current generation for the reader. */
  function SyncReader(m: Model): Model
    requires Shape(m)
  {
    m.(readerCounts := m.history[m.current].counts)
  }

  /** Open a writer and a reader on the volatile image. */
  function Reopened(c: Codec, store: Store, model: Model): (r: Option<Sim>)
    requires Shape(model)
    ensures r.Some? ==> Ready(r.value) && |r.value.model.points| == |model.points|
  {
    var root := Open(c, store.dirty);
    if root.None? then None
    else Some(Sim(store, SyncReader(model), OpenWriter(root.value, |store.dirty|, |model.points|),
                  Reader(root.value, |store.dirty|)))
  }

  /** Close both handles, apply the crash, roll the oracle back and open both handles again. */
  function Recover(c: Codec, store: Store, model: Model, power: bool): (r: Option<Sim>)
    requires Shape(model)
    ensures r.Some? ==> Ready(r.value) && |r.value.model.points| == |model.points|
  {
    var crashed := CrashStore(store, power);
    var g := Fit(model.history, if power then model.durable else model.current, |crashed.dirty|);
    Reopened(c, crashed, Restore(model, g))
  }

  // ---- Operations ----

  function Min(a: nat, b: nat): nat { if a < b then a else b }

  /** The size a truncation leaves: the previous generation's extent and at most seven more bytes. */
  function TruncatedSize(m: Model, length: nat): (size: Option<nat>)
    requires Shape(m)
    ensures size.Some? ==> m.current > 0 && m.history[m.current - 1].endSize <= size.value <= length
  {
    if |m.history| <= 1 then None
    else
      var target := m.history[m.current - 1].endSize;
      if target >= length then None else Some(target + Min(7, length - target))
  }

  /** A truncation happens exactly when a generation came before and the file reaches past its end; at most seven bytes stay beyond. */
  lemma TruncationMeans(m: Model, length: nat)
    requires Shape(m)
    ensures var size := TruncatedSize(m, length);
            && (size.Some? <==> |m.history| >= 2 && m.current >= 1 && m.history[m.current - 1].endSize < length)
            && (size.Some? ==>
                  size.value == if length <= m.history[m.current - 1].endSize + 7 then length
                                else m.history[m.current - 1].endSize + 7)
  {
  }

  function TruncateStep(c: Codec, s: Sim): (r: Option<Sim>)
    requires Ready(s)
    ensures r.Some? ==> Ready(r.value) && |r.value.model.points| == |s.model.points|
  {
    var size := TruncatedSize(s.model, |s.store.dirty|);
    if size.None? then Some(s) else Recover(c, TruncateStore(s.store, size.value), s.model, false)
  }

  function MarkDurable(m: Model, became: bool): Model {
    if became then m.(durable := m.current) else m
  }

  /** A process crash in the sync after the root leaves the new generation published. */
  predicate CrashedAfterPublish(t: Store) {
    t.lastFault == Some(ProcessCrash) && t.faultOnSync && t.publishedBeforeSyncFault
  }

  /** What the oracle records when a checkpoint fails. */
  function AfterFailedCheckpoint(m: Model, t: Store, order: MarkOrder): (r: Model)
    ensures Shape(m) ==> Shape(r)
    ensures r.points == m.points
  {
    var became := t.priorGenerationBecameDurable;
    if !CrashedAfterPublish(t) then MarkDurable(m, became)
    else
      match order
      case AfterSnapshot => MarkDurable(TakeSnapshot(m, |t.dirty|, false), became)
      case BeforeSnapshot => TakeSnapshot(MarkDurable(m, became), |t.dirty|, false)
  }

  function ForgetFault(s: Store): Store { s.(lastFault := None) }

  predicate PowerLost(t: Store) { t.lastFault == Some(PowerLoss) }

  function CheckpointStep(c: Codec, s: Sim, sync: bool, layout: Layout, order: MarkOrder): (r: Option<Sim>)
    requires Ready(s)
    ensures r.Some? ==> Ready(r.value) && |r.value.model.points| == |s.model.points|
  {
    var plan := PlanCheckpoint(s.writer, sync, layout);
    var o := Exec(c, ForgetFault(s.store), plan.actions);
    if o.ok then Some(Sim(o.store, TakeSnapshot(s.model, |o.store.dirty|, sync), plan.writer, s.reader))
    else Recover(c, o.store, AfterFailedCheckpoint(s.model, o.store, order), PowerLost(o.store))
  }

  /** A memory checkpoint, then a fresh writer and reader. */
  function ReopenStep(c: Codec, s: Sim, layout: Layout): (r: Option<Sim>)
    requires Ready(s)
    ensures r.Some? ==> Ready(r.value) && |r.value.model.points| == |s.model.points|
  {
    var plan := PlanCheckpoint(s.writer, false, layout);
    var o := Exec(c, s.store, plan.actions);
    if o.ok then Reopened(c, o.store, TakeSnapshot(s.model, |o.store.dirty|, false))
    else Recover(c, o.store, s.model, PowerLost(o.store))
  }

  /** The newest generation among the candidate roots, before any of them is loaded. */
  function NewestCandidate(c: Codec, image: seq<Byte>): Option<nat>
    requires |image| >= BLOCK_SIZE
  {
    var list := Candidates(c, image);
    var best := BestSlot(list, SLOT_COUNT);
    if best.None? then None else Some(list[best.value].value.generation)
  }

  datatype Refreshed = Refreshed(changed: bool, reader: Reader)

  /** A reader looks for a newer generation, unless the file is exactly what it has adopted. */
  function RefreshReader(c: Codec, reader: Reader, image: seq<Byte>): Option<Refreshed>
    requires reader.root.Root?
  {
    if |image| == reader.observed == reader.root.committed then Some(Refreshed(false, reader))
    else if |image| < BLOCK_SIZE || !HeaderIntact(c, image) then None
    else
      var newest := NewestCandidate(c, image);
      if newest.None? || newest.value <= reader.root.generation then Some(Refreshed(false, reader))
      else
        var loaded := Load(c, image, Candidates(c, image));
        if loaded.None? then None
        else if loaded.value.generation <= reader.root.generation
        then Some(Refreshed(false, reader.(observed := |image|)))
        else Some(Refreshed(true, Reader(loaded.value, |image|)))
  }

  /** A candidate root is newer than `generation`. */
  ghost predicate NewerCandidate(c: Codec, image: seq<Byte>, generation: nat)
    requires |image| >= BLOCK_SIZE
  {
    exists k :: 0 <= k < SLOT_COUNT && Candidate(c, image, k).Some? && Candidate(c, image, k).value.generation > generation
  }

  /**
   A refresh, case by case. A file that is exactly what was adopted is left alone; a short or damaged one fails; one
   with no newer candidate changes nothing; otherwise the newest root that loads is adopted if it is newer, the file's
   size is noted either way, and the refresh fails when none loads.
   */
  lemma RefreshMeans(c: Codec, reader: Reader, image: seq<Byte>)
    requires reader.root.Root?
    ensures var r := RefreshReader(c, reader, image);
            if |image| == reader.observed && |image| == reader.root.committed then r == Some(Refreshed(false, reader))
            else if |image| < 65536 || !HeaderIntact(c, image) then r.None?
            else if !NewerCandidate(c, image, reader.root.generation) then r == Some(Refreshed(false, reader))
            else
              var loaded := Load(c, image, Candidates(c, image));
              && (r.None? <==> loaded.None?)
              && (r.Some? ==> (r.value.changed <==> loaded.value.generation > reader.root.generation))
              && (r.Some? ==> r.value.reader == Reader(if r.value.changed then loaded.value else reader.root, |image|))
  {
    hide HeaderIntact, Load;
    if |image| >= BLOCK_SIZE {
      var list := Candidates(c, image);
      var best := BestSlot(list, SLOT_COUNT);
      assert forall k :: 0 <= k < SLOT_COUNT ==> list[k] == Candidate(c, image, k);
    }
  }

  function RefreshStep(c: Codec, s: Sim): (r: Option<Sim>)
    requires Ready(s)
    ensures r.Some? ==> Ready(r.value) && |r.value.model.points| == |s.model.points|
  {
    var refreshed := RefreshReader(c, s.reader, s.store.dirty);
    if refreshed.None? then None
    else Some(s.(reader := refreshed.value.reader,
                 model := if refreshed.value.changed then SyncReader(s.model) else s.model))
  }

  /** Timestamps of a generated batch: each a positive gap after the one before. */
  function Batch(last: int, arrivals: seq<Arrival>): (points: seq<Point>)
    ensures |points| == |arrivals|
    ensures forall k :: 0 <= k < |points| ==> points[k].timestamp > last
    ensures StrictlyIncreasing(points)
    decreases |arrivals|
  {
    if arrivals == [] then []
    else
      var t := last + arrivals[0].gap;
      [Point(t, arrivals[0].bits)] + Batch(t, arrivals[1..])
  }

  function LastTimestamp(points: seq<Point>): int {
    if points == [] then 0 else points[|points| - 1].timestamp
  }

  /** A batch has the drawn bits, each point a drawn gap after the one before; the first follows the series' last, or zero. */
  lemma {:induction false} BatchGaps(points: seq<Point>, last: int, arrivals: seq<Arrival>, k: nat)
    requires k < |arrivals|
    ensures LastTimestamp(points) == if points == [] then 0 else points[|points| - 1].timestamp
    ensures var batch := Batch(last, arrivals);
            && batch[k].timestamp == (if k == 0 then last else batch[k - 1].timestamp) + arrivals[k].gap
            && batch[k].bits == arrivals[k].bits
    decreases k
  {
    if k > 0 {
      BatchGaps(points, last + arrivals[0].gap, arrivals[1..], k - 1);
    }
  }

  function AppendStep(c: Codec, s: Sim, series: nat, arrivals: seq<Arrival>, layout: Layout): (r: Option<Sim>)
    requires Ready(s) && series < |s.model.points|
    ensures r.Some? ==> Ready(r.value) && |r.value.model.points| == |s.model.points|
  {
    var batch := Batch(LastTimestamp(s.model.points[series]), arrivals);
    var w := s.writer;
    if !Accepts(w, series, batch) then None
    else if batch == [] then Some(s.(store := ForgetFault(s.store)))
    else
      var (d, rest) := Fill(StartDraft(w), layout, series, w.pending[series], batch);
      var o := Exec(c, ForgetFault(s.store), d.actions);
      if !o.ok then Recover(c, o.store, s.model, PowerLost(o.store))
      else
        var kept := |w.root.manifest.pages|;
        var flushed := if kept <= |d.pages| then d.pages[kept..] else [];
        Some(Sim(o.store,
                 s.model.(points := s.model.points[series := s.model.points[series] + batch]),
                 Writer(w.root, d.offset, w.pending[series := rest], flushed, true),
                 s.reader))
  }

  predicate KnownSeries(op: Op, count: nat) { op.Append? ==> op.series < count }

  function Step(c: Codec, s: Sim, op: Op, order: MarkOrder): (r: Option<Sim>)
    requires Ready(s) && KnownSeries(op, |s.model.points|)
    ensures r.Some? ==> Ready(r.value) && |r.value.model.points| == |s.model.points|
  {
    match op
    case TruncateFile => TruncateStep(c, s)
    case Checkpoint(sync, layout) => CheckpointStep(c, s, sync, layout, order)
    case Reopen(layout) => ReopenStep(c, s, layout)
    case Refresh => RefreshStep(c, s)
    case Query => Some(s)
    case Append(series, arrivals, layout) => AppendStep(c, s, series, arrivals, layout)
  }
}

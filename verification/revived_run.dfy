/**
 How a truncated generation comes back to life: its root is still in its slot, and appending the same points
 again writes the same pages, index nodes and manifest at the same places. When the root write then fails, the
 old root stands. This happens from every state in which nothing newer is retained and the file ends one byte
 past a multiple of eight, for any coding, sizes and points; and a new file gets there in three operations.
 */
module RevivedRun {
  import opened Options
  import opened Objects
  import opened Encodings
  import opened Storage
  import opened Engine
  import opened Images
  import opened Appender
  import opened Checkpoints
  import opened Oracle
  import opened Generations
  import opened Simulation
  import opened Agreement
  import opened Scripts
  import opened Publishing
  import opened Runs
  import opened FreshRuns
  import opened FailingRuns

  // ---- What a checkpoint writes depends on the end of the file only up to alignment ----

  ghost predicate Alike(a: Draft, b: Draft) {
    a.actions == b.actions && a.pages == b.pages && Align8(a.offset) == Align8(b.offset)
  }

  lemma {:induction false} AlikeFlushed(a: Draft, b: Draft, layout: Layout, pending: seq<seq<Point>>, n: nat)
    requires Alike(a, b) && n <= |pending|
    ensures Alike(FlushAll(a, layout, pending, n), FlushAll(b, layout, pending, n))
  {
    if n > 0 {
      AlikeFlushed(a, b, layout, pending, n - 1);
    }
  }

  lemma {:induction false} AlikeNodes(a: Draft, b: Draft, layout: Layout, n: nat)
    requires Alike(a, b)
    ensures Alike(EmitNodes(a, layout, n), EmitNodes(b, layout, n))
  {
    if n > 0 {
      AlikeNodes(a, b, layout, n - 1);
    }
  }

  lemma SamePublication(w: Writer, v: Writer, layout: Layout)
    requires HasRoot(w) && w.root == v.root && w.pending == v.pending && w.flushed == v.flushed
    requires Align8(w.writeOffset) == Align8(v.writeOffset)
    ensures PublishedRoot(w, layout) == PublishedRoot(v, layout)
  {
    AlikeFlushed(StartDraft(w), StartDraft(v), layout, w.pending, |w.pending|);
    AlikeNodes(FlushAll(StartDraft(w), layout, w.pending, |w.pending|),
               FlushAll(StartDraft(v), layout, v.pending, |v.pending|), layout, layout.nodes);
  }

  // ---- The state it starts from ----

  /** All is committed, nothing newer is retained, and the file ends one byte past a multiple of eight. */
  ghost predicate Rested(c: Codec, s: Sim) {
    && Ready(s) && Inv(c, s) && Fresh(c, s) && !s.writer.dirty
    && s.writer.root.committed == |s.store.dirty| && s.writer.root.committed % 8 == 1
    && s.model.history[s.model.current].counts == Lengths(s.model.points)
  }

  /** A series, a batch for it, and the sizes of what is written for them. */
  datatype Entry = Entry(series: nat, arrivals: seq<Arrival>, layout: Layout)

  function AppendOf(e: Entry): Op { Op.Append(e.series, e.arrivals, e.layout) }

  function CheckpointOf(e: Entry): Op { Op.Checkpoint(false, e.layout) }

  /** A batch, a memory checkpoint, a truncation, the same batch and the same checkpoint. */
  function Rerun(e: Entry): seq<Op> {
    [AppendOf(e), CheckpointOf(e), Op.TruncateFile, AppendOf(e), CheckpointOf(e)]
  }

  /** The calls of each checkpoint: a page, the index nodes, the manifest and the root. The second root write fails. */
  function SecondRootFails(layout: Layout): seq<Choice> {
    QuietThen(2 * layout.nodes + 5, FailWrite)
  }

  lemma RestedFacts(c: Codec, s: Sim)
    requires Rested(c, s)
    ensures HistoryOk(s.model, s.writer.root) && Shape(s.model) && HasRoot(s.writer) && |s.store.dirty| >= BLOCK_SIZE
    ensures s.model.history[s.model.current].endSize == s.writer.root.committed == |s.store.dirty| == s.writer.writeOffset
    ensures s.writer.flushed == [] && |s.writer.pending| == |s.model.points|
    ensures forall i :: 0 <= i < |s.writer.pending| ==> s.writer.pending[i] == []
    ensures WellFormedRoot(s.writer.root)
    ensures DecodeSlot(c, s.store.dirty, SlotOf(s.writer.root.generation)) == Some(s.writer.root)
    ensures s.store.faultsEnabled
  {
    Extents(s.model, s.writer.root, s.model.current, s.model.current);
    CountsWithin(c, s);
    hide HistoryOk, FewerRoots, Settled, WriterAgrees, ReaderOk, ChainIntact, HeaderIntact, SlotExplained, NoGap, Fresh,
         DecodeSlot, DurableOk;
    assert Retains(c, s.store.dirty, s.writer.root, 0);
  }

  /** One series pending among idle ones makes one page. */
  lemma {:induction false} OnePagePending(pending: seq<seq<Point>>, series: nat, batch: seq<Point>)
    requires series < |pending| && batch != [] && forall i :: 0 <= i < |pending| ==> pending[i] == []
    ensures Pages(pending[series := batch]) == 1
  {
    var n := |pending| - 1;
    if series == n {
      assert pending[series := batch][..n] == pending[..n];
      NoPagePending(pending[..n]);
    } else {
      assert pending[series := batch][..n] == pending[..n][series := batch];
      OnePagePending(pending[..n], series, batch);
    }
  }

  lemma {:induction false} NoPagePending(pending: seq<seq<Point>>)
    requires forall i :: 0 <= i < |pending| ==> pending[i] == []
    ensures Pages(pending) == 0
  {
    if pending != [] {
      NoPagePending(pending[..|pending| - 1]);
    }
  }

  // ---- A checkpoint without a fault ----

  /** The state after a memory checkpoint whose calls all finish. */
  function Checkpointed(c: Codec, s: Sim, layout: Layout): Sim
    requires Ready(s)
  {
    var t := Exec(c, ForgetFault(s.store), PlanCheckpoint(s.writer, false, layout).actions).store;
    Sim(t, TakeSnapshot(s.model, |t.dirty|, false), PlanCheckpoint(s.writer, false, layout).writer, s.reader)
  }

  lemma QuietPublishes(s: Sim, op: Op, n: nat, last: Choice)
    requires HasRoot(s.writer) && s.writer.dirty && op.Checkpoint? && !op.sync && s.store.script == QuietThen(n, last)
    requires Pages(s.writer.pending) + op.layout.nodes + 1 < n
    ensures Publishes(s, op)
    ensures |ThroughRoot(s.writer, false, op.layout)| == Pages(s.writer.pending) + op.layout.nodes + 2
  {
    CheckpointCalls(s.writer, op.layout);
    hide ObjectsDraft, PublishedRoot, Faultless, QuietThen, NthDraw;
    assert BeforeRoot(s.writer, false, op.layout) == ObjectsDraft(s.writer, op.layout).actions;
    QuietFirst(n, last, BeforeRoot(s.writer, false, op.layout));
  }

  lemma NothingTorn(c: Codec, s: Sim, op: Op, order: MarkOrder)
    requires HasRoot(s.writer) && Publishes(s, op) && !Durably(op)
    ensures !RootMixed(c, s, op) && !RootForged(c, s, op) && !RootCompleted(c, s, op) && !Foiled(c, s, op, order)
  {
  }

  /** All its calls finish. */
  lemma QuietExec(c: Codec, s: Sim, op: Op, n: nat, last: Choice)
    requires Ready(s) && s.store.faultsEnabled && s.writer.dirty && op.Checkpoint? && !op.sync
    requires s.store.script == QuietThen(n, last)
    requires Pages(s.writer.pending) + op.layout.nodes + 1 < n
    ensures var o := Exec(c, ForgetFault(s.store), PlanCheckpoint(s.writer, false, op.layout).actions);
            && o.ok && o.store.faultsEnabled
            && o.store.script == QuietThen(n - (Pages(s.writer.pending) + op.layout.nodes + 2), last)
  {
    hide Exec, PlanCheckpoint, PublishedRoot, QuietThen, Faultless, Pages, Publishes, BeforeRoot;
    PlanIsPhases(s.writer, false, op.layout);
    QuietPublishes(s, op, n, last);
    var actions := PlanCheckpoint(s.writer, false, op.layout).actions;
    assert actions == ThroughRoot(s.writer, false, op.layout);
    QuietFirst(n, last, actions);
    ExecFollowsScript(c, ForgetFault(s.store), actions);
  }

  lemma QuietCalls(c: Codec, s: Sim, op: Op, n: nat, last: Choice)
    requires Ready(s) && Inv(c, s) && s.writer.dirty && op.Checkpoint? && !op.sync && s.store.script == QuietThen(n, last)
    requires Pages(s.writer.pending) + op.layout.nodes + 1 < n
    ensures var o := Exec(c, ForgetFault(s.store), PlanCheckpoint(s.writer, false, op.layout).actions);
            && o.ok && Published(c, ForgetFault(s.store), o.store, s.writer.root, PublishedRoot(s.writer, op.layout), false)
            && o.store.script == QuietThen(n - (Pages(s.writer.pending) + op.layout.nodes + 2), last) && o.store.faultsEnabled
  {
    StartsLongHere(c, s);
    hide Inv, Exec, PlanCheckpoint, PublishedRoot, Publishes, RootCompleted, RootForged, RootMixed, CarriesNext, Foiled,
         QuietThen, Pages, Unpublished, PublishedUnsynced, Overtaken;
    QuietPublishes(s, op, n, last);
    NothingTorn(c, s, op, AfterSnapshot);
    QuietExec(c, s, op, n, last);
    ScriptedOutcome(c, s, op, ForgetFault(s.store));
  }

  /** It just records the snapshot. */
  lemma CheckpointedIs(c: Codec, s: Sim, layout: Layout, order: MarkOrder)
    requires Ready(s) && Exec(c, ForgetFault(s.store), PlanCheckpoint(s.writer, false, layout).actions).ok
    ensures Step(c, s, Op.Checkpoint(false, layout), order) == Some(Checkpointed(c, s, layout))
  {
    hide Exec, PlanCheckpoint, Recover, AfterFailedCheckpoint;
  }

  /** Over a fresh state the next root is published, the root before it is retained, and the state is fresh again. */
  lemma QuietCheckpoint(c: Codec, s: Sim, op: Op, order: MarkOrder, n: nat, last: Choice)
    requires Ready(s) && Inv(c, s) && Fresh(c, s) && s.writer.dirty && op.Checkpoint? && !op.sync
    requires s.store.script == QuietThen(n, last)
    requires Pages(s.writer.pending) + op.layout.nodes + 1 < n
    ensures Step(c, s, op, order) == Some(Checkpointed(c, s, op.layout))
    ensures var x, next := Checkpointed(c, s, op.layout), PublishedRoot(s.writer, op.layout);
            && Inv(c, x) && Fresh(c, x)
            && x.writer == Writer(next, next.committed, seq(|s.writer.pending|, _ => []), [], false)
            && x.store.script == QuietThen(n - (Pages(s.writer.pending) + op.layout.nodes + 2), last)
            && next.committed == |x.store.dirty| && |s.store.dirty| < |x.store.dirty|
  {
    QuietCalls(c, s, op, n, last);
    QuietPublishes(s, op, n, last);
    NothingTorn(c, s, op, order);
    CheckpointedIs(c, s, op.layout, order);
    PlannedWriter(s.writer, false, op.layout);
    hide Inv, Fresh, Exec, PlanCheckpoint, ThroughRoot, PublishedRoot, Publishes, RootCompleted, RootForged, RootMixed,
         Foiled, QuietThen, Pages, Step, Carries, FewerRoots, OtherSlotsSame;
    StepFresh(c, s, op, order);
  }

  /** The root before the one published is still in its slot. */
  lemma KeepsPrevious(c: Codec, s: Sim, op: Op, n: nat, last: Choice)
    requires Ready(s) && Inv(c, s) && s.writer.dirty && op.Checkpoint? && !op.sync && s.store.script == QuietThen(n, last)
    requires Pages(s.writer.pending) + op.layout.nodes + 1 < n
    requires |s.store.dirty| >= BLOCK_SIZE
    requires DecodeSlot(c, s.store.dirty, SlotOf(s.writer.root.generation)) == Some(s.writer.root)
    ensures var x, next := Checkpointed(c, s, op.layout), PublishedRoot(s.writer, op.layout);
            && |x.store.dirty| >= BLOCK_SIZE && WellFormedRoot(next) && next.previous == Some(s.writer.root)
            && Retains(c, x.store.dirty, next, 1) && DecodeSlot(c, x.store.dirty, SlotOf(next.generation)) == Some(next)
  {
    QuietCalls(c, s, op, n, last);
    PublishedFollows(s.writer, op.layout);
    var x, next := Checkpointed(c, s, op.layout), PublishedRoot(s.writer, op.layout);
    hide Inv, Exec, PlanCheckpoint, PublishedRoot, Pages, QuietThen, DecodeSlot, ChainIntact, HeaderIntact, SlotExplained,
         NoGap, FewerRoots;
    assert Retains(c, x.store.dirty, next, 0);
    PredecessorOf(next);
    NearbySlotsDiffer(s.writer.root.generation, next.generation);
    assert Ancestor(next, 1) == s.writer.root;
  }

  // ---- The truncation ----

  /** The manifest is aligned, so the next extent ends well past seven more bytes. */
  lemma NextExtent(c: Codec, w: Writer, image: seq<Byte>, layout: Layout)
    requires WriterOk(c, w, image) && |image| >= BLOCK_SIZE && w.writeOffset % 8 == 1
    ensures PublishedRoot(w, layout).committed > w.writeOffset + 7
  {
    ObjectsDraftOk(c, w, image, layout);
    hide FlushAll, EmitNodes, Ascending, End;
    assert CheckpointObjects(w, layout).offset >= w.writeOffset;
  }

  /** A snapshot of a root is undone by a cut seven bytes past the extent before it. */
  lemma CutsSeven(m: Model, before: nat, end: nat)
    requires Shape(m) && m.history[m.current].endSize == before && before + 7 < end
    ensures var after := TakeSnapshot(m, end, false);
            && TruncatedSize(after, end) == Some(before + 7)
            && after.current == m.current + 1 && after.history[m.current].endSize == before
            && Fit(after.history, after.current, before + 7) == m.current
  {
  }

  /** Restoring drops the batch that was appended since. */
  lemma RestoresPoints(m: Model, before: seq<seq<Point>>, series: nat, batch: seq<Point>, end: nat)
    requires Shape(m) && series < |before| && m.points == before[series := before[series] + batch]
    requires m.history[m.current].counts == Lengths(before)
    ensures Restore(TakeSnapshot(m, end, false), m.current).points == before
  {
    var after := TakeSnapshot(m, end, false);
    assert after.history[m.current] == m.history[m.current];
    forall i | 0 <= i < |before|
      ensures CutPoints(m.points, Lengths(before))[i] == before[i]
    {
      assert Cut(m.points[i], |before[i]|) == before[i];
    }
    assert CutPoints(m.points, Lengths(before)) == before;
  }

  lemma RetainedRecovers(c: Codec, image: seq<Byte>, r: Object, size: nat)
    requires |image| >= BLOCK_SIZE && WellFormedRoot(r) && Retains(c, image, r, 1)
    ensures Recoverable(c, image, r, size)
  {
  }

  /** The cut image holds the root before, and opens to it. */
  lemma CutOpens(c: Codec, s: Sim, r: Object, size: nat)
    requires Ready(s) && Inv(c, s) && WellFormedRoot(s.writer.root) && s.writer.root.previous == Some(r) && r.Root?
    requires |s.store.dirty| >= BLOCK_SIZE && Retains(c, s.store.dirty, s.writer.root, 1)
    requires s.model.current > 0
    requires s.model.history[s.model.current - 1].endSize == r.committed <= size < s.writer.root.committed
    requires size <= |s.store.dirty|
    ensures Open(c, Cut(s.store.dirty, size)) == Some(r)
  {
    var m, next := s.model, s.writer.root;
    hide WriterOk, WriterAgrees, ReaderOk, HistoryOk, Carries, FewerRoots, Overtaken, Recoverable, Open, Restore, Fit;
    RetainedRecovers(c, s.store.dirty, next, size);
    TruncationReopens(c, s.store, m, next, size);
    var after := CrashStore(TruncateStore(s.store, size), false);
    RootBelow(next, r, size);
    RootAtSelf(r, size);
    SettledHolds(c, after.dirty, after.durable, Restore(m, Fit(m.history, m.current, size)), r);
    OpenSelects(c, after.dirty, r);
  }

  // ---- The five operations ----

  function BatchOf(s: Sim, e: Entry): seq<Point>
    requires e.series < |s.model.points|
  {
    Batch(LastTimestamp(s.model.points[e.series]), e.arrivals)
  }

  lemma RestedShort(c: Codec, s: Sim, e: Entry)
    requires Rested(c, s) && e.series < |s.model.points| && 0 < |e.arrivals| < RECORDS_MAX
    ensures FewPoints(s, e.series, e.arrivals) && HasRoot(s.writer)
    ensures Pages(s.writer.pending[e.series := BatchOf(s, e)]) == 1
  {
    RestedFacts(c, s);
    hide Rested, Batch, HistoryOk, DecodeSlot, WellFormedRoot, Pages;
    OnePagePending(s.writer.pending, e.series, BatchOf(s, e));
  }

  lemma RestedInv(c: Codec, s: Sim)
    requires Rested(c, s)
    ensures Ready(s) && Inv(c, s) && Fresh(c, s)
  {
    hide Inv, Fresh;
  }

  /** A short batch waits, and nothing else changes. */
  lemma BatchWaits(c: Codec, s: Sim, e: Entry, order: MarkOrder)
    requires HasRoot(s.writer) && Ready(s) && Inv(c, s) && Fresh(c, s) && FewPoints(s, e.series, e.arrivals)
    ensures var x := Waiting(s, e.series, BatchOf(s, e));
            Step(c, s, AppendOf(e), order) == Some(x) && Ready(x) && Inv(c, x) && Fresh(c, x)
  {
    hide Inv, Fresh, AppendStep, Batch, OracleAgrees, Ready, Waiting, Step;
    AppendStays(c, s, e.series, e.arrivals, e.layout);
    AppendFresh(c, s, e.series, e.arrivals, e.layout);
    AppendIsStep(c, s, e, order);
    InvIsReady(c, Waiting(s, e.series, BatchOf(s, e)));
  }

  /** The batch waits over the committed file. */
  lemma FirstBatch(c: Codec, s: Sim, e: Entry, order: MarkOrder)
    requires Rested(c, s) && e.series < |s.model.points| && 0 < |e.arrivals| < RECORDS_MAX
    ensures FewPoints(s, e.series, e.arrivals) && HasRoot(s.writer)
    ensures var x := Waiting(s, e.series, BatchOf(s, e));
            Step(c, s, AppendOf(e), order) == Some(x) && Inv(c, x) && Fresh(c, x)
  {
    RestedShort(c, s, e);
    RestedInv(c, s);
    hide Rested, Inv, Fresh, Batch, Pages, Ready, Waiting, FewPoints, Step;
    BatchWaits(c, s, e, order);
  }

  lemma AppendIsStep(c: Codec, s: Sim, e: Entry, order: MarkOrder)
    requires Ready(s) && e.series < |s.model.points|
    ensures Step(c, s, AppendOf(e), order) == AppendStep(c, s, e.series, e.arrivals, e.layout)
  {
    hide AppendStep, CheckpointStep, ReopenStep, RefreshStep, TruncateStep;
  }

  lemma InvIsReady(c: Codec, s: Sim)
    requires Inv(c, s)
    ensures Ready(s)
  {
  }

  /** A committed state with the truncated root still in its slot, and the next root write bound to fail. */
  ghost predicate Rewound(c: Codec, s: Sim, before: Sim, e: Entry, next: Object) {
    && Ready(s) && Inv(c, s) && HasRoot(before.writer) && next.Root? && next.generation >= 1
    && s.writer == OpenWriter(before.writer.root, before.writer.root.committed + 7, |before.model.points|)
    && s.model.points == before.model.points
    && |s.store.dirty| >= BLOCK_SIZE && DecodeSlot(c, s.store.dirty, SlotOf(next.generation)) == Some(next)
    && s.store.script == QuietThen(e.layout.nodes + 2, FailWrite)
  }

  /** What the checkpoint leaves to be truncated. */
  ghost predicate Extended(c: Codec, x: Sim, s: Sim, e: Entry, next: Object) {
    && Ready(x) && Inv(c, x) && HasRoot(s.writer) && e.series < |s.model.points| && Shape(s.model)
    && x.writer.root == next && next.Root? && WellFormedRoot(next) && next.previous == Some(s.writer.root)
    && |x.store.dirty| >= BLOCK_SIZE && Retains(c, x.store.dirty, next, 1)
    && DecodeSlot(c, x.store.dirty, SlotOf(next.generation)) == Some(next)
    && s.writer.root.committed + 7 < next.committed == |x.store.dirty|
    && s.model.history[s.model.current].endSize == s.writer.root.committed >= BLOCK_SIZE
    && s.model.history[s.model.current].counts == Lengths(s.model.points)
    && x.model == TakeSnapshot(s.model.(points := s.model.points[e.series := s.model.points[e.series] + BatchOf(s, e)]),
                               |x.store.dirty|, false)
    && x.store.script == QuietThen(e.layout.nodes + 2, FailWrite)
  }

  /** What is known of the committed state, for the truncation to return to. */
  lemma RestedExtent(c: Codec, s: Sim)
    requires Rested(c, s)
    ensures HasRoot(s.writer) && Shape(s.model) && |s.store.dirty| >= BLOCK_SIZE
    ensures s.model.history[s.model.current].endSize == s.writer.root.committed == s.writer.writeOffset >= BLOCK_SIZE
    ensures s.writer.root.committed % 8 == 1 && s.model.history[s.model.current].counts == Lengths(s.model.points)
    ensures s.writer.root.generation >= 1
    ensures DecodeSlot(c, s.store.dirty, SlotOf(s.writer.root.generation)) == Some(s.writer.root)
  {
    RestedFacts(c, s);
    hide Inv, Fresh, HistoryOk, DecodeSlot;
  }

  lemma FirstCheckpoint(c: Codec, s: Sim, e: Entry, order: MarkOrder)
    requires Rested(c, s) && e.series < |s.model.points| && 0 < |e.arrivals| < RECORDS_MAX
    requires s.store.script == SecondRootFails(e.layout)
    ensures FewPoints(s, e.series, e.arrivals) && HasRoot(s.writer)
    ensures var w := Waiting(s, e.series, BatchOf(s, e));
            && Ready(w) && Step(c, w, CheckpointOf(e), order) == Some(Checkpointed(c, w, e.layout))
            && Extended(c, Checkpointed(c, w, e.layout), s, e, PublishedRoot(w.writer, e.layout))
  {
    FirstBatch(c, s, e, order);
    InvIsReady(c, Waiting(s, e.series, BatchOf(s, e)));
    RestedShort(c, s, e);
    RestedExtent(c, s);
    hide Rested, Inv, Fresh, Step, Batch, Pages, QuietThen, DecodeSlot, Ready, Extended, Checkpointed, PublishedRoot,
         Lengths, FewPoints;
    Extends(c, s, e, order, Waiting(s, e.series, BatchOf(s, e)));
  }

  lemma Extends(c: Codec, s: Sim, e: Entry, order: MarkOrder, w: Sim)
    requires HasRoot(s.writer) && Shape(s.model) && |s.store.dirty| >= BLOCK_SIZE && FewPoints(s, e.series, e.arrivals)
    requires s.model.history[s.model.current].endSize == s.writer.root.committed == s.writer.writeOffset >= BLOCK_SIZE
    requires s.writer.root.committed % 8 == 1 && s.model.history[s.model.current].counts == Lengths(s.model.points)
    requires s.writer.root.generation >= 1
    requires DecodeSlot(c, s.store.dirty, SlotOf(s.writer.root.generation)) == Some(s.writer.root)
    requires w == Waiting(s, e.series, BatchOf(s, e)) && s.store.script == SecondRootFails(e.layout)
    requires Ready(w) && Inv(c, w) && Fresh(c, w) && Pages(w.writer.pending) == 1
    ensures Step(c, w, CheckpointOf(e), order) == Some(Checkpointed(c, w, e.layout))
    ensures Extended(c, Checkpointed(c, w, e.layout), s, e, PublishedRoot(w.writer, e.layout))
  {
    hide Inv, Fresh, Batch, DecodeSlot, WellFormedRoot, Pages, QuietThen, PublishedRoot, PlanCheckpoint, Exec, Step,
         Retains, Lengths;
    WaitingExtent(c, w, e.layout);
    QuietCheckpoint(c, w, CheckpointOf(e), order, 2 * e.layout.nodes + 5, FailWrite);
    KeepsPrevious(c, w, CheckpointOf(e), 2 * e.layout.nodes + 5, FailWrite);
  }

  lemma WaitingExtent(c: Codec, w: Sim, layout: Layout)
    requires Ready(w) && Inv(c, w) && w.writer.writeOffset % 8 == 1
    ensures PublishedRoot(w.writer, layout).committed > w.writer.writeOffset + 7
  {
    StartsLongHere(c, w);
    hide ImagesOk, Settled, WriterAgrees, ReaderOk, PublishedRoot, WriterOk;
    NextExtent(c, w.writer, w.store.dirty, layout);
  }

  lemma StartsLongHere(c: Codec, s: Sim)
    requires Inv(c, s)
    ensures |s.store.dirty| >= BLOCK_SIZE && s.store.faultsEnabled
  {
    CarriedIsLong(c, s.store.dirty, s.writer.root);
  }

  /** The oracle when the snapshot of the batch was taken. */
  lemma ExtendedModel(c: Codec, x: Sim, s: Sim, e: Entry, next: Object) returns (m: Model)
    requires Extended(c, x, s, e, next)
    ensures HasRoot(s.writer) && e.series < |s.model.points| && Shape(m)
    ensures x.model == TakeSnapshot(m, |x.store.dirty|, false)
    ensures m.history[m.current].endSize == s.writer.root.committed
    ensures m.history[m.current].counts == Lengths(s.model.points)
    ensures m.points == s.model.points[e.series := s.model.points[e.series] + BatchOf(s, e)]
    ensures BLOCK_SIZE <= s.writer.root.committed < s.writer.root.committed + 7 < |x.store.dirty|
  {
    hide Inv, DecodeSlot, WellFormedRoot, Retains, QuietThen, Batch, Lengths, Ready, TakeSnapshot;
    m := s.model.(points := s.model.points[e.series := s.model.points[e.series] + BatchOf(s, e)]);
  }

  lemma ExtendedInv(c: Codec, x: Sim, s: Sim, e: Entry, next: Object)
    requires Extended(c, x, s, e, next)
    ensures Ready(x) && Inv(c, x) && HasRoot(s.writer) && x.writer.root == next && WellFormedRoot(next)
    ensures next.previous == Some(s.writer.root)
    ensures |x.store.dirty| >= BLOCK_SIZE && Retains(c, x.store.dirty, next, 1) && next.Root? && next.generation >= 1
    ensures DecodeSlot(c, x.store.dirty, SlotOf(next.generation)) == Some(next)
    ensures s.writer.root.committed + 7 < next.committed && x.store.script == QuietThen(e.layout.nodes + 2, FailWrite)
  {
    hide Inv, DecodeSlot, Retains, QuietThen, Batch;
  }

  lemma RewindsInv(c: Codec, x: Sim, size: nat)
    requires Ready(x) && Inv(c, x) && |x.store.dirty| >= BLOCK_SIZE && WellFormedRoot(x.writer.root)
    requires Retains(c, x.store.dirty, x.writer.root, 1)
    requires TruncatedSize(x.model, |x.store.dirty|) == Some(size)
    ensures TruncateStep(c, x).Some? && Inv(c, TruncateStep(c, x).value)
  {
    hide Inv, Retains, TruncateStep, TruncatedSize, Lands, Recoverable;
    RetainedRecovers(c, x.store.dirty, x.writer.root, size);
    TruncateKeeps(c, x);
    LandedSome(c, TruncateStep(c, x), x.writer.root);
  }

  ghost predicate RewoundTo(n: Option<Sim>, x: Sim, r: Object, size: nat, points: seq<seq<Point>>) {
    && n.Some? && n.value.writer == OpenWriter(r, size, |points|) && n.value.model.points == points
    && n.value.store.dirty == Cut(x.store.dirty, size) && n.value.store.script == x.store.script
  }

  /** The truncation takes the simulator back to where the batch came in. */
  lemma Rewinds(c: Codec, x: Sim, s: Sim, e: Entry, next: Object)
    requires Extended(c, x, s, e, next)
    ensures TruncateStep(c, x).Some? && Rewound(c, TruncateStep(c, x).value, s, e, next)
  {
    hide Extended, Inv, DecodeSlot, WellFormedRoot, Retains, QuietThen, Fit, TruncatedSize, TruncateStep, OpenWriter,
         Ready, TakeSnapshot, Lengths, Batch, BatchOf, Restore, Open, Rewound, RewoundTo;
    ExtendedInv(c, x, s, e, next);
    var m := ExtendedModel(c, x, s, e, next);
    var size := s.writer.root.committed + 7;
    CutsSeven(m, s.writer.root.committed, |x.store.dirty|);
    RestoresPoints(m, s.model.points, e.series, BatchOf(s, e), |x.store.dirty|);
    RewindsInv(c, x, size);
    InvIsReady(c, TruncateStep(c, x).value);
    CutOpens(c, x, s.writer.root, size);
    CutState(c, x, s.writer.root, size, s.model.points);
    CutDecodes(c, x.store.dirty, size);
    RewoundBy(c, x, s, e, next);
  }

  lemma RewoundBy(c: Codec, x: Sim, s: Sim, e: Entry, next: Object)
    requires Ready(x) && HasRoot(s.writer) && next.Root? && next.generation >= 1
    requires TruncateStep(c, x).Some? && Ready(TruncateStep(c, x).value) && Inv(c, TruncateStep(c, x).value)
    requires RewoundTo(TruncateStep(c, x), x, s.writer.root, s.writer.root.committed + 7, s.model.points)
    requires x.store.script == QuietThen(e.layout.nodes + 2, FailWrite)
    requires |Cut(x.store.dirty, s.writer.root.committed + 7)| >= BLOCK_SIZE
    requires DecodeSlot(c, Cut(x.store.dirty, s.writer.root.committed + 7), SlotOf(next.generation)) == Some(next)
    ensures Rewound(c, TruncateStep(c, x).value, s, e, next)
  {
    hide Inv, DecodeSlot, QuietThen, TruncateStep, OpenWriter, Ready;
  }

  lemma CutIs(c: Codec, x: Sim, size: nat)
    requires Ready(x) && TruncatedSize(x.model, |x.store.dirty|) == Some(size)
    requires x.model.current > 0 && Fit(x.model.history, x.model.current, size) == x.model.current - 1
    ensures TruncateStep(c, x) ==
            Reopened(c, CrashStore(TruncateStore(x.store, size), false), Restore(x.model, x.model.current - 1))
  {
    hide Open, Restore, Fit, Reopened, Recover, CrashStore, TruncateStore;
    RecoverTruncated(c, x.store, x.model, size);
  }

  lemma CutStoreIs(s: Store, size: nat)
    requires size <= |s.dirty|
    ensures var after := CrashStore(TruncateStore(s, size), false);
            after.dirty == Cut(s.dirty, size) && |after.dirty| == size && after.script == s.script
  {
  }

  lemma CutState(c: Codec, x: Sim, r: Object, size: nat, points: seq<seq<Point>>)
    requires Ready(x) && TruncatedSize(x.model, |x.store.dirty|) == Some(size) && x.model.current > 0
    requires Fit(x.model.history, x.model.current, size) == x.model.current - 1
    requires Restore(x.model, x.model.current - 1).points == points && |x.model.points| == |points|
    requires Open(c, Cut(x.store.dirty, size)) == Some(r)
    ensures RewoundTo(TruncateStep(c, x), x, r, size, points)
  {
    hide Open, Restore, Fit, Reopened, OpenWriter, Recover, TruncatedSize, TruncateStep, CrashStore, TruncateStore, Cut;
    CutIs(c, x, size);
    CutStoreIs(x.store, size);
    ReopenedShape(c, CrashStore(TruncateStore(x.store, size), false), Restore(x.model, x.model.current - 1));
  }

  // ---- The same batch again ----

  lemma SamePending(count: nat, pending: seq<seq<Point>>)
    requires |pending| == count && forall i :: 0 <= i < count ==> pending[i] == []
    ensures pending == seq(count, _ => [])
  {
  }

  /** The batch comes in as it did before. */
  lemma SecondBatch(c: Codec, s: Sim, before: Sim, e: Entry, next: Object, order: MarkOrder)
    requires Rewound(c, s, before, e, next) && e.series < |before.model.points| && 0 < |e.arrivals| < RECORDS_MAX
    ensures Ready(s) && FewPoints(s, e.series, e.arrivals)
    ensures var x := Waiting(s, e.series, BatchOf(s, e));
            && Step(c, s, AppendOf(e), order) == Some(x) && Inv(c, x)
            && BatchOf(s, e) == BatchOf(before, e)
  {
    hide Inv, AppendStep, Batch, DecodeSlot, QuietThen, Ready, Step, Waiting;
    AppendStays(c, s, e.series, e.arrivals, e.layout);
    AppendIsStep(c, s, e, order);
  }

  lemma SecondIsScripted(s: Sim, e: Entry)
    requires HasRoot(s.writer) && s.writer.dirty && Pages(s.writer.pending) == 1
    requires s.store.script == QuietThen(e.layout.nodes + 2, FailWrite)
    ensures ReachesRoot(s, CheckpointOf(e)) && RootDraw(s, CheckpointOf(e)) == FailWrite
  {
    CheckpointCalls(s.writer, e.layout);
    hide ObjectsDraft, PublishedRoot, Faultless, QuietThen, NthDraw, Pages;
    assert BeforeRoot(s.writer, false, e.layout) == ObjectsDraft(s.writer, e.layout).actions;
    QuietFirst(e.layout.nodes + 2, FailWrite, BeforeRoot(s.writer, false, e.layout));
  }

  lemma SevenOn(n: nat)
    requires n % 8 == 1
    ensures Align8(n + 7) == Align8(n)
  {
  }

  lemma TwinStood(c: Codec, s: Sim, w: Writer, e: Entry, next: Object)
    requires Ready(s) && HasRoot(w) && w.writeOffset % 8 == 1 && w.dirty
    requires s.writer == w.(writeOffset := w.writeOffset + 7) && next == PublishedRoot(w, e.layout)
    requires |s.store.dirty| >= BLOCK_SIZE && DecodeSlot(c, s.store.dirty, SlotOf(next.generation)) == Some(next)
    ensures NextStood(c, s, CheckpointOf(e))
  {
    hide DecodeSlot, PublishedRoot, Ready, Align8;
    SevenOn(w.writeOffset);
    SamePublication(w, s.writer, e.layout);
  }

  /** Its checkpoint meets the twin of its own root. */
  lemma SecondCheckpoint(c: Codec, s: Sim, w: Writer, e: Entry, next: Object, order: MarkOrder)
    requires Ready(s) && Inv(c, s) && HasRoot(w) && w.writeOffset % 8 == 1 && w.dirty
    requires s.writer == w.(writeOffset := w.writeOffset + 7) && next == PublishedRoot(w, e.layout)
    requires Pages(w.pending) == 1
    requires s.store.script == QuietThen(e.layout.nodes + 2, FailWrite)
    requires |s.store.dirty| >= BLOCK_SIZE && DecodeSlot(c, s.store.dirty, SlotOf(next.generation)) == Some(next)
    ensures Step(c, s, CheckpointOf(e), order).Some?
    ensures !OracleAgrees(c, Step(c, s, CheckpointOf(e), order).value, Newest(s, CheckpointOf(e)))
  {
    hide Inv, DecodeSlot, PublishedRoot, QuietThen, Pages, Step, OracleAgrees, Newest, ReachesRoot, RootDraw, Ready,
         NextStood, Revived;
    TwinStood(c, s, w, e, next);
    SecondIsScripted(s, e);
    TwinDisturbs(c, s, CheckpointOf(e), order);
  }

  lemma TailDisagrees(c: Codec, s: Sim, ops: seq<Op>, order: MarkOrder, next: Sim, rest: seq<Op>)
    requires Ready(s) && KnownOps(ops, |s.model.points|) && ops != [] && rest == ops[1..]
    requires Ready(next) && Step(c, s, ops[0], order) == Some(next) && KnownOps(rest, |next.model.points|)
    requires !AgreesThroughout(c, next, rest, order)
    ensures !AgreesThroughout(c, s, ops, order)
  {
    hide Step, OracleAgrees, Newest, KnownSeries;
  }

  lemma LastDisagrees(c: Codec, s: Sim, op: Op, order: MarkOrder)
    requires Ready(s) && KnownSeries(op, |s.model.points|) && Step(c, s, op, order).Some?
    requires !OracleAgrees(c, Step(c, s, op, order).value, Newest(s, op))
    ensures KnownOps([op], |s.model.points|) && !AgreesThroughout(c, s, [op], order)
  {
    hide Step, OracleAgrees, Newest, KnownSeries;
    assert [op][0] == op;
  }

  /** The same batch and the same checkpoint over the rewound file. */
  lemma AgainDisagrees(c: Codec, s: Sim, before: Sim, e: Entry, next: Object, order: MarkOrder)
    requires Rewound(c, s, before, e, next) && Rested(c, before) && e.series < |before.model.points|
    requires 0 < |e.arrivals| < RECORDS_MAX
    requires FewPoints(before, e.series, e.arrivals)
    requires next == PublishedRoot(Waiting(before, e.series, BatchOf(before, e)).writer, e.layout)
    ensures KnownOps([AppendOf(e), CheckpointOf(e)], |s.model.points|)
    ensures !AgreesThroughout(c, s, [AppendOf(e), CheckpointOf(e)], order)
  {
    hide Rewound, Rested, Inv, DecodeSlot, PublishedRoot, QuietThen, Pages, Step, OracleAgrees, Newest, Batch, BatchOf,
         AgreesThroughout, Lengths, Ready;
    RewoundWriter(c, s, before, e, next);
    SecondBatch(c, s, before, e, next, order);
    var x := Waiting(s, e.series, BatchOf(s, e));
    InvIsReady(c, x);
    AgainCheckpoint(c, s, before, e, next, order, x);
    LastDisagrees(c, x, CheckpointOf(e), order);
    TailDisagrees(c, s, [AppendOf(e), CheckpointOf(e)], order, x, [CheckpointOf(e)]);
  }

  lemma AgainCheckpoint(c: Codec, s: Sim, before: Sim, e: Entry, next: Object, order: MarkOrder, x: Sim)
    requires Rewound(c, s, before, e, next) && Rested(c, before) && e.series < |before.model.points|
    requires 0 < |e.arrivals| < RECORDS_MAX
    requires FewPoints(before, e.series, e.arrivals)
    requires next == PublishedRoot(Waiting(before, e.series, BatchOf(before, e)).writer, e.layout)
    requires FewPoints(s, e.series, e.arrivals) && BatchOf(s, e) == BatchOf(before, e)
    requires x == Waiting(s, e.series, BatchOf(s, e)) && Ready(x) && Inv(c, x)
    ensures Step(c, x, CheckpointOf(e), order).Some?
    ensures !OracleAgrees(c, Step(c, x, CheckpointOf(e), order).value, Newest(x, CheckpointOf(e)))
  {
    hide Rewound, Rested, Inv, DecodeSlot, PublishedRoot, QuietThen, Pages, Step, OracleAgrees, Newest, Batch, BatchOf,
         Lengths, Ready;
    RestedShort(c, before, e);
    RestedExtent(c, before);
    RewoundWriter(c, s, before, e, next);
    SecondCheckpoint(c, x, Waiting(before, e.series, BatchOf(before, e)).writer, e, next, order);
  }

  /** The reopened writer is the one there was, seven bytes on. */
  lemma RewoundWriter(c: Codec, s: Sim, before: Sim, e: Entry, next: Object)
    requires Rewound(c, s, before, e, next) && Rested(c, before)
    ensures Ready(s) && HasRoot(before.writer)
    ensures s.writer == before.writer.(writeOffset := before.writer.writeOffset + 7)
    ensures s.model.points == before.model.points
    ensures s.store.script == QuietThen(e.layout.nodes + 2, FailWrite) && next.Root? && next.generation >= 1
    ensures |s.store.dirty| >= BLOCK_SIZE && DecodeSlot(c, s.store.dirty, SlotOf(next.generation)) == Some(next)
  {
    hide Inv, HistoryOk, DecodeSlot, QuietThen, WellFormedRoot, Fresh, Ready, Lengths;
    RestedFacts(c, before);
    SamePending(|before.model.points|, before.writer.pending);
  }

  /**
   From any such state, whatever the coding, the points and the sizes: after these five operations the file opens
   to a root whose own write had failed, in either order of marking.
   */
  lemma RerunDisagrees(c: Codec, s: Sim, e: Entry, order: MarkOrder)
    requires Rested(c, s) && e.series < |s.model.points| && 0 < |e.arrivals| < RECORDS_MAX
    requires s.store.script == SecondRootFails(e.layout)
    ensures Ready(s) && KnownOps(Rerun(e), |s.model.points|)
    ensures !AgreesThroughout(c, s, Rerun(e), order)
  {
    hide Rested, Extended, Inv, Fresh, Step, PublishedRoot, AgreesThroughout, Checkpointed, BatchOf, Ready, KnownSeries;
    RestedInv(c, s);
    FirstBatch(c, s, e, order);
    FirstCheckpoint(c, s, e, order);
    var w := Waiting(s, e.series, BatchOf(s, e));
    var x := Checkpointed(c, w, e.layout);
    CutDisagrees(c, x, s, e, PublishedRoot(w.writer, e.layout), order);
    SameSeries(s, e);
    TailDisagrees(c, w, Rerun(e)[1..], order, x, Rerun(e)[2..]);
    TailDisagrees(c, s, Rerun(e), order, w, Rerun(e)[1..]);
  }

  /** The truncation, and what follows it. */
  lemma CutDisagrees(c: Codec, x: Sim, s: Sim, e: Entry, next: Object, order: MarkOrder)
    requires Extended(c, x, s, e, next) && Rested(c, s) && e.series < |s.model.points| && 0 < |e.arrivals| < RECORDS_MAX
    requires FewPoints(s, e.series, e.arrivals)
    requires next == PublishedRoot(Waiting(s, e.series, BatchOf(s, e)).writer, e.layout)
    ensures Ready(x) && |x.model.points| == |s.model.points|
    ensures KnownOps(Rerun(e)[2..], |x.model.points|) && !AgreesThroughout(c, x, Rerun(e)[2..], order)
  {
    hide Rested, Rewound, Extended, Inv, Step, TruncateStep, PublishedRoot, AgreesThroughout, Waiting, BatchOf, FewPoints,
         Ready, KnownSeries;
    TruncateIsStep(c, x, s, e, next, order);
    Rewinds(c, x, s, e, next);
    var y := TruncateStep(c, x).value;
    AgainDisagrees(c, y, s, e, next, order);
    RewoundWriter(c, y, s, e, next);
    SameSeries(s, e);
    assert Rerun(e)[2..][0] == Op.TruncateFile && Rerun(e)[2..][1..] == [AppendOf(e), CheckpointOf(e)];
    TailDisagrees(c, x, Rerun(e)[2..], order, y, [AppendOf(e), CheckpointOf(e)]);
  }

  lemma SameSeries(s: Sim, e: Entry)
    requires FewPoints(s, e.series, e.arrivals) && HasRoot(s.writer)
    ensures |Waiting(s, e.series, BatchOf(s, e)).model.points| == |s.model.points|
    ensures KnownOps(Rerun(e), |s.model.points|) && KnownOps(Rerun(e)[1..], |s.model.points|)
    ensures KnownOps(Rerun(e)[2..], |s.model.points|)
    ensures Rerun(e)[1..][1..] == Rerun(e)[2..]
  {
    hide Batch;
  }

  lemma TruncateIsStep(c: Codec, x: Sim, s: Sim, e: Entry, next: Object, order: MarkOrder)
    requires Extended(c, x, s, e, next)
    ensures Ready(x) && |x.model.points| == |s.model.points| && Step(c, x, Op.TruncateFile, order) == TruncateStep(c, x)
  {
    hide TruncateStep, Inv, DecodeSlot, WellFormedRoot, Retains, QuietThen, Batch;
  }

  // ---- From a new file ----

  const MANIFEST_HEADER := 64
  const MANIFEST_SERIES := 120

  /** How many bytes a manifest takes for series whose names have these lengths. */
  function ManifestSize(names: seq<nat>): nat {
    if names == [] then MANIFEST_HEADER else ManifestSize(names[..|names| - 1]) + MANIFEST_SERIES + names[|names| - 1]
  }

  /** Points for each of two series, and a checkpoint of both. */
  function Opening(given: seq<Arrival>, layout: Layout): seq<Op> {
    [Op.Append(0, given, layout), Op.Append(1, given, layout), Op.Checkpoint(false, layout)]
  }

  /** The calls of all three checkpoints; the last root write fails. */
  function ThirdRootFails(early: Layout, later: Layout): seq<Choice> {
    QuietThen(early.nodes + 4 + 2 * later.nodes + 5, FailWrite)
  }

  /** A committed extent ends where its aligned manifest does. */
  lemma CommittedAlign(w: Writer, layout: Layout)
    requires HasRoot(w)
    ensures PublishedRoot(w, layout).committed % 8 == SketchAt(layout, |CheckpointObjects(w, layout).actions|).size % 8
  {
    hide CheckpointObjects;
    EightsAway(Align8(CheckpointObjects(w, layout).offset), SketchAt(layout, |CheckpointObjects(w, layout).actions|).size);
  }

  lemma EightsAway(a: nat, b: nat)
    requires a % 8 == 0
    ensures (a + b) % 8 == b % 8
  {
  }

  lemma TwoPages(a: seq<Point>, b: seq<Point>)
    requires a != [] && b != []
    ensures Pages([a, b]) == 2
  {
    assert [a, b][..1] == [a];
    OnePage(a);
  }

  lemma StartOfTwo(c: Codec, first: Sketch, script: seq<Choice>)
    ensures var s := Start(c, 2, first, script);
            && Inv(c, s) && Fresh(c, s) && s.writer.pending == [[], []] && s.writer.flushed == [] && s.store.script == script
            && |s.model.points| == 2 && HasRoot(s.writer)
  {
    CreatedStore(c, 2, first, script);
    StartPending(c, first, script);
    hide Inv, Fresh, Start;
    StartInv(c, 2, first, script);
    StartFresh(c, 2, first, script);
  }

  lemma StartPending(c: Codec, first: Sketch, script: seq<Choice>)
    ensures var s := Start(c, 2, first, script); s.writer.pending == [[], []] && s.writer.flushed == []
  {
    hide Exec, TakeSnapshot;
    var none: seq<seq<Point>> := seq(2, _ => []);
    assert none == [[], []];
  }

  /** Two batches wait. */
  lemma BothWait(c: Codec, s: Sim, given: seq<Arrival>, early: Layout, order: MarkOrder) returns (w: Sim, x: Sim)
    requires HasRoot(s.writer) && Ready(s) && Inv(c, s) && Fresh(c, s) && s.writer.pending == [[], []]
    requires s.writer.flushed == [] && |s.model.points| == 2
    requires 0 < |given| < RECORDS_MAX
    ensures Step(c, s, Op.Append(0, given, early), order) == Some(w) && Ready(w) && |w.model.points| == 2
    ensures Step(c, w, Op.Append(1, given, early), order) == Some(x) && Ready(x) && |x.model.points| == 2
    ensures Inv(c, x) && Fresh(c, x) && x.writer.dirty && Pages(x.writer.pending) == 2 && x.store.script == s.store.script
  {
    hide Inv, Fresh, Step, Batch, Ready, Pages;
    var a, b := Entry(0, given, early), Entry(1, given, early);
    BatchWaits(c, s, a, order);
    w := Waiting(s, 0, BatchOf(s, a));
    assert w.writer.pending == [BatchOf(s, a), []];
    BatchWaits(c, w, b, order);
    x := Waiting(w, 1, BatchOf(w, b));
    assert x.writer.pending == [BatchOf(s, a), BatchOf(w, b)];
    TwoPages(BatchOf(s, a), BatchOf(w, b));
  }

  /** The checkpoint of both leaves such a state. */
  lemma OpensRested(c: Codec, x: Sim, early: Layout, later: Layout, order: MarkOrder)
    requires Ready(x) && Inv(c, x) && Fresh(c, x) && x.writer.dirty && Pages(x.writer.pending) == 2
    requires x.store.script == ThirdRootFails(early, later) && SketchAt(early, early.nodes + 2).size % 8 == 1
    ensures Step(c, x, Op.Checkpoint(false, early), order) == Some(Checkpointed(c, x, early))
    ensures var n := Checkpointed(c, x, early);
            Rested(c, n) && n.store.script == SecondRootFails(later) && |n.model.points| == |x.model.points|
  {
    hide Inv, Fresh, Step, Pages, QuietThen, PublishedRoot, CheckpointObjects, PlanCheckpoint, Exec, SketchAt;
    QuietCheckpoint(c, x, Op.Checkpoint(false, early), order, early.nodes + 4 + 2 * later.nodes + 5, FailWrite);
    CheckpointCalls(x.writer, early);
    CommittedAlign(x.writer, early);
    InvIsReady(c, Checkpointed(c, x, early));
  }

  /**
   From a new file, with the sizes left open: two series, a checkpoint whose manifest ends one byte past a multiple
   of eight, and the five operations. The file ends up opened to a root whose own write had failed.
   */
  lemma RevivedRunDisagrees(c: Codec, first: Sketch, given: seq<Arrival>, early: Layout, e: Entry, order: MarkOrder)
    requires SketchAt(early, early.nodes + 2).size % 8 == 1 && 0 < |given| < RECORDS_MAX
    requires e.series < 2 && 0 < |e.arrivals| < RECORDS_MAX
    ensures KnownOps(Opening(given, early) + Rerun(e), 2)
    ensures !AgreesThroughout(c, Start(c, 2, first, ThirdRootFails(early, e.layout)), Opening(given, early) + Rerun(e), order)
  {
    hide Start, Inv, Fresh, Step, Rested, AgreesThroughout, Checkpointed, KnownOps, ThirdRootFails, SecondRootFails,
         Ready, Pages, Opening, Rerun;
    var ops := Opening(given, early) + Rerun(e);
    KnownRun(given, early, e);
    var s := Start(c, 2, first, ThirdRootFails(early, e.layout));
    StartOfTwo(c, first, ThirdRootFails(early, e.layout));
    var w, x := BothWait(c, s, given, early, order);
    OpensRested(c, x, early, e.layout, order);
    RerunDisagrees(c, Checkpointed(c, x, early), e, order);
    TailDisagrees(c, x, ops[2..], order, Checkpointed(c, x, early), Rerun(e));
    TailDisagrees(c, w, ops[1..], order, x, ops[2..]);
    TailDisagrees(c, s, ops, order, w, ops[1..]);
  }

  lemma KnownRun(given: seq<Arrival>, early: Layout, e: Entry)
    requires e.series < 2
    ensures var ops := Opening(given, early) + Rerun(e);
            && |ops| == 8 && ops[0] == Op.Append(0, given, early) && ops[1..][0] == Op.Append(1, given, early)
            && ops[2..][0] == Op.Checkpoint(false, early)
            && ops[1..][1..] == ops[2..] && ops[2..][1..] == Rerun(e)
            && KnownOps(ops, 2) && KnownOps(ops[1..], 2) && KnownOps(ops[2..], 2) && KnownOps(Rerun(e), 2)
  {
  }

  /** With the sizes the engine gives an empty manifest and one of two series, named as the simulator names them. */
  lemma NamedRunDisagrees(c: Codec, first: Sketch, given: seq<Arrival>, early: Layout, e: Entry, order: MarkOrder)
    requires first.size == ManifestSize([]) && SketchAt(early, early.nodes + 2).size == ManifestSize([12, 13])
    requires 0 < |given| < RECORDS_MAX && e.series < 2 && 0 < |e.arrivals| < RECORDS_MAX
    ensures KnownOps(Opening(given, early) + Rerun(e), 2)
    ensures !AgreesThroughout(c, Start(c, 2, first, ThirdRootFails(early, e.layout)), Opening(given, early) + Rerun(e), order)
  {
    hide Start, AgreesThroughout, ThirdRootFails, KnownSeries;
    assert [12, 13][..1] == [12] && [12][..0] == [];
    assert ManifestSize([12, 13]) == 329;
    RevivedRunDisagrees(c, first, given, early, e, order);
  }
}

/**
 Runs from a new file that end the agreement, one for each disturbance.
 */
module FailingRuns {
  import opened Options
  import opened Objects
  import opened Encodings
  import opened Storage
  import opened Engine
  import opened Images
  import opened Appender
  import opened Checkpoints
  import opened Oracle
  import opened Generations
  import opened Simulation
  import opened Agreement
  import opened Scripts
  import opened Publishing
  import opened Runs

  // ---- A root write that fails over the very root it was to write ----

  predicate FailsWhole(draw: Choice) { draw.FailWrite? || draw == Choice.Crash(false) }

  /** What the calls leave when the root write stores nothing. */
  lemma NothingStored(c: Codec, s: Sim, op: Op, store: Store)
    requires HasRoot(s.writer) && ReachesRoot(s, op) && FailsWhole(RootDraw(s, op))
    requires store.faultsEnabled && store.script == s.store.script
    ensures var before := Exec(c, store, BeforeRoot(s.writer, Durably(op), op.layout));
            var o := Exec(c, store, PlanCheckpoint(s.writer, Durably(op), op.layout).actions);
            before.ok && !o.ok && o.store.dirty == before.store.dirty && !PowerLost(o.store)
  {
    var w, sync := s.writer, Durably(op);
    var before := BeforeRoot(w, sync, op.layout);
    ExecFollowsScript(c, store, before);
    NextDrawn(c, store, before);
    ExecLast(c, store, before, RootWrite(w, op.layout));
    PlanIsPhases(w, sync, op.layout);
    var through := ThroughRoot(w, sync, op.layout);
    assert through + [] == through;
    hide Exec, BeforeRoot, PlanCheckpoint, PublishedRoot, Put;
    ExecLast(c, store, through, SyncFile);
  }

  /** With the manifest written again, the stale twin of the new root stands, whether or not the root is written. */
  lemma TwinInObjects(c: Codec, s: Sim, op: Op, store: Store)
    requires CheckpointReady(c, store, s.writer) && |s.store.dirty| >= BLOCK_SIZE && HasRoot(s.writer)
    requires MayPublish(s, op) && NextStood(c, s, op) && store.dirty == s.store.dirty
    requires Exec(c, store, BeforeRoot(s.writer, Durably(op), op.layout)).ok
    ensures var t := Exec(c, store, BeforeRoot(s.writer, Durably(op), op.layout)).store;
            |t.dirty| >= BLOCK_SIZE && s.writer.root.Root? && Overtaken(c, t.dirty, s.writer.root.generation)
  {
    hide Exec, BeforeRoot, PublishedRoot, Overtaken, DecodeSlot, Succeeds, Carries, FewerRoots, WriterOk, WellFormedRoot,
         Unpublished;
    ObjectsThenSync(c, store, s.writer, Durably(op), op.layout);
    var t := Exec(c, store, BeforeRoot(s.writer, Durably(op), op.layout)).store;
    FewerRootsAfterExtension(c, s.store.dirty, t.dirty, 0);
    CompletedOvertakes(c, t.dirty, s.writer.root, PublishedRoot(s.writer, op.layout));
  }

  lemma TwinInImage(c: Codec, s: Sim, op: Op, store: Store)
    requires Inv(c, s) && ReachesRoot(s, op) && NextStood(c, s, op) && FailsWhole(RootDraw(s, op))
    requires store == s.store || store == ForgetFault(s.store)
    ensures var o := Exec(c, store, PlanCheckpoint(s.writer, Durably(op), op.layout).actions);
            !o.ok && !PowerLost(o.store) && |o.store.dirty| >= BLOCK_SIZE && s.writer.root.Root? &&
            Overtaken(c, o.store.dirty, s.writer.root.generation)
  {
    CountsWithin(c, s);
    CheckpointIsReady(c, s, store);
    assert HasRoot(s.writer) && store.faultsEnabled && store.script == s.store.script && store.dirty == s.store.dirty;
    hide Inv, Exec, BeforeRoot, PlanCheckpoint, Overtaken, NextStood, RootDraw, Faultless, FailsWhole;
    NothingStored(c, s, op, store);
    TwinInObjects(c, s, op, store);
  }

  lemma TwinStands(c: Codec, s: Sim, op: Op, order: MarkOrder)
    requires Ready(s) && Inv(c, s) && KnownSeries(op, |s.model.points|)
    requires ReachesRoot(s, op) && NextStood(c, s, op) && FailsWhole(RootDraw(s, op))
    requires Step(c, s, op, order).Some?
    ensures var n := Step(c, s, op, order).value;
            |n.store.dirty| >= BLOCK_SIZE && s.writer.root.Root? && Overtaken(c, n.store.dirty, s.writer.root.generation)
  {
    var store := if op.Reopen? then s.store else ForgetFault(s.store);
    TwinInImage(c, s, op, store);
    hide Inv, Exec, PlanCheckpoint, Overtaken, Recover, AfterFailedCheckpoint, Reopened, NextStood, BeforeRoot, Faultless,
         RootDraw;
    var o := Exec(c, store, PlanCheckpoint(s.writer, Durably(op), op.layout).actions).store;
    if op.Checkpoint? {
      RecoverKeepsImage(c, o, AfterFailedCheckpoint(s.model, o, order));
    } else {
      RecoverKeepsImage(c, o, s.model);
    }
  }

  lemma CheckpointIsReady(c: Codec, s: Sim, store: Store)
    requires Inv(c, s) && store.dirty == s.store.dirty
    ensures CheckpointReady(c, store, s.writer)
  {
    hide Carries, HistoryOk, DurableOk, FewerRoots, Settled, ReaderOk, WriterAgrees, WriterOk;
  }

  /** So such an operation is disturbed, in either order of marking. */
  lemma TwinDisturbs(c: Codec, s: Sim, op: Op, order: MarkOrder)
    requires Ready(s) && Inv(c, s) && KnownSeries(op, |s.model.points|)
    requires ReachesRoot(s, op) && NextStood(c, s, op) && FailsWhole(RootDraw(s, op))
    ensures Step(c, s, op, order).Some? && !OracleAgrees(c, Step(c, s, op, order).value, Newest(s, op))
    ensures Revived(c, s, op, order)
  {
    CountsWithin(c, s);
    NotTorn(c, s, op);
    hide Inv, Overtaken, Step, OracleAgrees, ReachesRoot, NextStood, ImagesOk, Lands, RootForged, RootCompleted,
         Publishes, Newest, WellFormedRoot, RootDraw;
    StepLandsHere(c, s, op, order);
    TwinStands(c, s, op, order);
    StepExact(c, s, op, order);
    var n := Step(c, s, op, order).value;
    LowerOvertaken(c, n.store.dirty, s.writer.root.generation, RootAt(s.writer.root, n.model.history[n.model.current].endSize).generation);
  }

  lemma NotTorn(c: Codec, s: Sim, op: Op)
    requires HasRoot(s.writer) && ReachesRoot(s, op) && !RootDraw(s, op).Short? && !RootDraw(s, op).NoFault?
    ensures !RootForged(c, s, op) && !RootCompleted(c, s, op) && !Publishes(s, op) && !op.TruncateFile?
    ensures Newest(s, op) == s.writer.root
  {
  }

  lemma StepLandsHere(c: Codec, s: Sim, op: Op, order: MarkOrder)
    requires Ready(s) && Inv(c, s) && KnownSeries(op, |s.model.points|) && !op.TruncateFile? && !Publishes(s, op)
    requires !RootForged(c, s, op) && WellFormedRoot(s.writer.root) && |s.store.dirty| >= BLOCK_SIZE
    ensures Step(c, s, op, order).Some? && Shape(Step(c, s, op, order).value.model)
  {
    hide Inv, Step, ImagesOk, Settled, RootForged, Publishes, Newest;
    StepLands(c, s, op, order);
  }

  // ---- A batch that waits ----

  lemma FillNothing(d: Draft, layout: Layout, series: nat, pending: seq<Point>)
    requires |pending| <= RECORDS_MAX
    ensures Fill(d, layout, series, pending, []) == (d, pending)
  {
  }

  /** A batch shorter than a page just waits. */
  lemma FillShort(d: Draft, layout: Layout, series: nat, batch: seq<Point>)
    requires 0 < |batch| < RECORDS_MAX
    ensures Fill(d, layout, series, [], batch) == (d, batch)
  {
    FillNothing(d, layout, series, batch);
    assert batch[..|batch|] == batch && batch[|batch|..] == [] && [] + batch == batch;
  }

  /** The state once such a batch waits in memory: no byte is written. */
  function Waiting(s: Sim, series: nat, batch: seq<Point>): Sim
    requires HasRoot(s.writer) && series < |s.model.points| && series < |s.writer.pending|
  {
    Sim(ForgetFault(s.store), s.model.(points := s.model.points[series := s.model.points[series] + batch]),
        Writer(s.writer.root, s.writer.writeOffset, s.writer.pending[series := batch], [], true), s.reader)
  }

  /** The series has nothing pending, no page is flushed ahead of the root, and the batch is short of a page. */
  predicate FewPoints(s: Sim, series: nat, arrivals: seq<Arrival>) {
    && series < |s.model.points| && series < |s.writer.pending| && s.writer.pending[series] == [] && s.writer.flushed == []
    && 0 < |arrivals| < RECORDS_MAX
  }

  lemma AppendWaits(c: Codec, s: Sim, series: nat, arrivals: seq<Arrival>, layout: Layout)
    requires Ready(s) && FewPoints(s, series, arrivals) && AppendStep(c, s, series, arrivals, layout).Some?
    ensures AppendStep(c, s, series, arrivals, layout).value ==
            Waiting(s, series, Batch(LastTimestamp(s.model.points[series]), arrivals))
  {
    hide Fill, Recover, Accepts, Batch;
    var start := StartDraft(s.writer);
    FillShort(start, layout, series, Batch(LastTimestamp(s.model.points[series]), arrivals));
    assert start.actions == [];
    assert s.writer.root.manifest.pages + [] == start.pages;
    assert start.pages[|s.writer.root.manifest.pages|..] == [];
  }

  /** Where nothing was written, nothing newer stands. */
  lemma SameImagesSettled(c: Codec, a: Sim, b: Sim)
    requires Inv(c, a) && Lands(c, Some(b), a.writer.root)
    requires a.store.dirty == b.store.dirty && a.store.durable == b.store.durable
    requires a.model.history == b.model.history && a.model.durable == b.model.durable
    requires a.model.current == b.model.current
    ensures Inv(c, b)
  {
    Extents(a.model, a.writer.root, a.model.current, a.model.current);
    RootAtSelf(a.writer.root, a.model.history[a.model.current].endSize);
    hide Carries, HistoryOk, DurableOk, FewerRoots, ReaderOk, WriterAgrees, WriterOk, Overtaken, Ready;
  }

  lemma AppendStays(c: Codec, s: Sim, series: nat, arrivals: seq<Arrival>, layout: Layout)
    requires Ready(s) && Inv(c, s) && FewPoints(s, series, arrivals)
    ensures var next := AppendStep(c, s, series, arrivals, layout);
            && next == Some(Waiting(s, series, Batch(LastTimestamp(s.model.points[series]), arrivals)))
            && Inv(c, next.value)
  {
    hide Inv, AppendStep, Lands, Batch;
    AppendLands(c, s, series, arrivals, layout);
    LandedSome(c, AppendStep(c, s, series, arrivals, layout), s.writer.root);
    AppendWaits(c, s, series, arrivals, layout);
    SameImagesSettled(c, s, AppendStep(c, s, series, arrivals, layout).value);
  }

  // ---- Counting a checkpoint's calls ----

  function Pages(pending: seq<seq<Point>>): nat {
    if pending == [] then 0
    else Pages(pending[..|pending| - 1]) + if pending[|pending| - 1] == [] then 0 else 1
  }

  lemma {:induction false} FlushCalls(d: Draft, layout: Layout, pending: seq<seq<Point>>, n: nat)
    requires n <= |pending|
    ensures |FlushAll(d, layout, pending, n).actions| == |d.actions| + Pages(pending[..n])
  {
    if n > 0 {
      FlushCalls(d, layout, pending, n - 1);
      assert pending[..n][..n - 1] == pending[..n - 1];
    }
  }

  lemma {:induction false} NodeCalls(d: Draft, layout: Layout, n: nat)
    ensures |EmitNodes(d, layout, n).actions| == |d.actions| + n
  {
    if n > 0 {
      NodeCalls(d, layout, n - 1);
    }
  }

  /** A page for every series with pending points, the index nodes and the manifest. */
  lemma CheckpointCalls(w: Writer, layout: Layout)
    requires HasRoot(w)
    ensures |CheckpointObjects(w, layout).actions| == Pages(w.pending) + layout.nodes
    ensures |ObjectsDraft(w, layout).actions| == Pages(w.pending) + layout.nodes + 1
  {
    var start := StartDraft(w);
    FlushCalls(start, layout, w.pending, |w.pending|);
    assert w.pending[..|w.pending|] == w.pending;
    NodeCalls(FlushAll(start, layout, w.pending, |w.pending|), layout, layout.nodes);
  }

  /** So many choices without a fault, then one more. */
  function QuietThen(n: nat, last: Choice): seq<Choice> { seq(n, _ => NoFault) + [last] }

  lemma QuietFirst(n: nat, last: Choice, actions: seq<Action>)
    requires |actions| <= n
    ensures Faultless(QuietThen(n, last), actions) && NthDraw(QuietThen(n, last), n) == last
    ensures |actions| < n ==> NthDraw(QuietThen(n, last), |actions|) == NoFault
    ensures |actions| <= |QuietThen(n, last)| && QuietThen(n, last)[|actions|..] == QuietThen(n - |actions|, last)
  {
    forall k | 0 <= k < |actions|
      ensures Harmless(actions[k], NthDraw(QuietThen(n, last), k))
    {
      assert QuietThen(n, last)[k] == NoFault;
    }
  }

  // ---- One point appended to one series ----

  function AppendOne(layout: Layout): Op { Op.Append(0, [Arrival(1, 0)], layout) }

  ghost predicate OneSeries(s: Sim) {
    Ready(s) && s.model.points == [[]] && s.writer.pending == [[]] && s.writer.flushed == []
  }

  lemma OnePoint()
    ensures Batch(0, [Arrival(1, 0)]) == [Point(1, 0)]
  {
  }

  /** A single pending series makes one page. */
  lemma OnePage(points: seq<Point>)
    requires points != []
    ensures Pages([points]) == 1
  {
    assert [points][..0] == [];
  }

  lemma FirstAppend(c: Codec, s: Sim, layout: Layout, order: MarkOrder)
    requires Inv(c, s) && OneSeries(s)
    ensures var next := Step(c, s, AppendOne(layout), order);
            && next.Some? && Inv(c, next.value)
            && next.value.store == ForgetFault(s.store)
            && next.value.writer == Writer(s.writer.root, s.writer.writeOffset, [[Point(1, 0)]], [], true)
            && |next.value.model.points| == 1
  {
    hide Inv, AppendStep, Batch;
    AppendStays(c, s, 0, [Arrival(1, 0)], layout);
    OnePoint();
    assert [[]][0 := [Point(1, 0)]] == [[Point(1, 0)]];
  }

  lemma SecondDisagrees(c: Codec, s: Sim, ops: seq<Op>, order: MarkOrder, middle: Sim)
    requires Ready(s) && KnownOps(ops, |s.model.points|) && |ops| == 2
    requires Ready(middle) && Step(c, s, ops[0], order) == Some(middle) && KnownSeries(ops[1], |middle.model.points|)
    requires Step(c, middle, ops[1], order).Some?
    requires !OracleAgrees(c, Step(c, middle, ops[1], order).value, Newest(middle, ops[1]))
    ensures !AgreesThroughout(c, s, ops, order)
  {
    hide Step, OracleAgrees, Newest, KnownSeries;
    assert ops[1..][0] == ops[1];
    assert !AgreesThroughout(c, middle, ops[1..], order);
  }

  // ---- A new file ----

  lemma StartShape(c: Codec, first: Sketch, script: seq<Choice>)
    ensures var s := Start(c, 1, first, script);
            && OneSeries(s) && s.store.dirty == s.store.durable == CreatedImage(c, first) && s.store.script == script
            && s.writer.root == FirstRoot(first) && s.writer.writeOffset == |CreatedImage(c, first)| == BLOCK_SIZE + first.size
  {
    CreatedStore(c, 1, first, script);
    CreatedBytes(c, first);
    hide CreatedImage, Exec;
    var points: seq<seq<Point>> := seq(1, _ => []);
    assert points == [[]];
  }

  /** The second slot shows nothing yet, and is all zeros. */
  lemma SecondSlotEmpty(c: Codec, first: Sketch)
    ensures var image := CreatedImage(c, first);
            && |image| >= BLOCK_SIZE && DecodeSlot(c, image, 1).None?
            && forall p :: 0 <= p < SLOT_SIZE ==> SlotBytes(image, 1)[p] == 0
  {
    CreatedSlots(c, first);
  }

  /** One point appended to one series, then a checkpoint. */
  function PointThenCheckpoint(sync: bool, layout: Layout): seq<Op> { [AppendOne(layout), Op.Checkpoint(sync, layout)] }

  // ---- The crash after the root ----

  /** Page, index nodes, manifest, sync and root go through; the last sync meets a process crash. */
  function CrashAfterRoot(layout: Layout): seq<Choice> { QuietThen(layout.nodes + 4, Choice.Crash(false)) }

  lemma CrashIsScripted(c: Codec, s: Sim, op: Op)
    requires HasRoot(s.writer) && s.writer.dirty && s.writer.pending == [[Point(1, 0)]] && op.Checkpoint? && op.sync
    requires s.store.script == CrashAfterRoot(op.layout)
    ensures PostRootProcessCrash(s, op) && !RootForged(c, s, op)
  {
    CheckpointCalls(s.writer, op.layout);
    OnePage([Point(1, 0)]);
    hide ObjectsDraft, PublishedRoot, Faultless, QuietThen, NthDraw;
    QuietFirst(op.layout.nodes + 4, Choice.Crash(false), BeforeRoot(s.writer, true, op.layout));
  }

  lemma CrashDisturbs(c: Codec, s: Sim, op: Op)
    requires Ready(s) && Inv(c, s) && op.Checkpoint? && op.sync && s.store.script == CrashAfterRoot(op.layout)
    requires s.writer.dirty && s.writer.pending == [[Point(1, 0)]] && s.writer.root.generation == 1
    requires |s.store.dirty| >= BLOCK_SIZE && DecodeSlot(c, s.store.dirty, 1).None?
    ensures Step(c, s, op, AfterSnapshot).Some? && !OracleAgrees(c, Step(c, s, op, AfterSnapshot).value, Newest(s, op))
  {
    hide Inv, Step, OracleAgrees, DecodeSlot, Newest, CrashAfterRoot, ThroughRoot, Publishes;
    CrashIsScripted(c, s, op);
    assert !NextStood(c, s, op);
    hide PostRootProcessCrash, RootForged, NextStood;
    assert MarkedTooLate(c, s, op, AfterSnapshot);
    TooLateExact(c, s, op, AfterSnapshot);
  }

  lemma CrashRunFrom(c: Codec, s: Sim, layout: Layout)
    requires Inv(c, s) && OneSeries(s) && s.store.script == CrashAfterRoot(layout) && s.writer.root.generation == 1
    requires |s.store.dirty| >= BLOCK_SIZE && DecodeSlot(c, s.store.dirty, 1).None?
    ensures !AgreesThroughout(c, s, PointThenCheckpoint(true, layout), AfterSnapshot)
  {
    hide Inv, Step, OracleAgrees, Newest, DecodeSlot, AgreesThroughout, CrashAfterRoot;
    FirstAppend(c, s, layout, AfterSnapshot);
    var middle := Step(c, s, AppendOne(layout), AfterSnapshot).value;
    CrashDisturbs(c, middle, Op.Checkpoint(true, layout));
    SecondDisagrees(c, s, PointThenCheckpoint(true, layout), AfterSnapshot, middle);
  }

  /** As written, this run ends with a durable mark on a root that was never synced. */
  lemma CrashRunDisagrees(c: Codec, first: Sketch, layout: Layout)
    ensures !AgreesThroughout(c, Start(c, 1, first, CrashAfterRoot(layout)), PointThenCheckpoint(true, layout), AfterSnapshot)
  {
    hide Start, CreatedImage, Inv, DecodeSlot, AgreesThroughout, CrashAfterRoot;
    StartInv(c, 1, first, CrashAfterRoot(layout));
    StartShape(c, first, CrashAfterRoot(layout));
    SecondSlotEmpty(c, first);
    CrashRunFrom(c, Start(c, 1, first, CrashAfterRoot(layout)), layout);
  }

  // ---- A short root write that is whole ----

  /** All objects go through; the root write stores the given number of its 4096 bytes. */
  function ShortRoot(layout: Layout, amount: nat): seq<Choice>
    requires 1 <= amount < SLOT_SIZE
  {
    QuietThen(layout.nodes + 2, Choice.Short(amount - 1))
  }

  /** The root that the run is to publish. */
  function SecondRoot(first: Sketch, layout: Layout): (next: Object)
    ensures next.Root? && next.generation == 2
  {
    PublishedRoot(Writer(FirstRoot(first), BLOCK_SIZE + first.size, [[Point(1, 0)]], [], true), layout)
  }

  lemma ShortIsScripted(s: Sim, op: Op, amount: nat)
    requires HasRoot(s.writer) && s.writer.dirty && s.writer.pending == [[Point(1, 0)]] && op.Checkpoint? && !op.sync
    requires 1 <= amount < SLOT_SIZE && s.store.script == ShortRoot(op.layout, amount)
    ensures ReachesRoot(s, op) && StoredShort(RootDraw(s, op)) == Some(amount)
  {
    CheckpointCalls(s.writer, op.layout);
    OnePage([Point(1, 0)]);
    hide ObjectsDraft, PublishedRoot, Faultless, QuietThen, NthDraw;
    assert BeforeRoot(s.writer, false, op.layout) == ObjectsDraft(s.writer, op.layout).actions;
    QuietFirst(op.layout.nodes + 2, Choice.Short(amount - 1), BeforeRoot(s.writer, false, op.layout));
  }

  /** A root that ends in zeros is completed by zeros, which are what an unused slot holds. */
  lemma ZerosComplete(c: Codec, image: seq<Byte>, next: Object, amount: nat)
    requires |image| >= BLOCK_SIZE && RootDecodes(next) && 1 <= amount < SLOT_SIZE && |c.encode(next)| == SLOT_SIZE
    requires forall p :: amount <= p < SLOT_SIZE ==> c.encode(next)[p] == 0
    requires forall p :: 0 <= p < SLOT_SIZE ==> SlotBytes(image, SlotOf(next.generation))[p] == 0
    ensures TailStands(c, image, next, amount) && !Forges(c, image, next, amount)
  {
    var slot := SlotOf(next.generation);
    assert forall p :: 0 <= p < SLOT_SIZE - amount ==> SlotBytes(image, slot)[amount..][p] == c.encode(next)[amount..][p];
    assert SlotBytes(image, slot)[amount..] == c.encode(next)[amount..];
    TornSlotDecodes(c, image, next, amount);
  }

  lemma ShortDisturbs(c: Codec, s: Sim, op: Op, order: MarkOrder, amount: nat)
    requires Ready(s) && Inv(c, s) && op.Checkpoint? && !op.sync
    requires 1 <= amount < SLOT_SIZE && s.store.script == ShortRoot(op.layout, amount)
    requires s.writer.dirty && s.writer.pending == [[Point(1, 0)]] && s.writer.root.generation == 1
    requires var bytes := c.encode(PublishedRoot(s.writer, op.layout));
             |bytes| == SLOT_SIZE && forall p :: amount <= p < SLOT_SIZE ==> bytes[p] == 0
    requires |s.store.dirty| >= BLOCK_SIZE && forall p :: 0 <= p < SLOT_SIZE ==> SlotBytes(s.store.dirty, 1)[p] == 0
    ensures RootCompleted(c, s, op) && !RootForged(c, s, op)
    ensures Step(c, s, op, order).Some? && !OracleAgrees(c, Step(c, s, op, order).value, Newest(s, op))
  {
    PublishedDecodesAs(c, s, op.layout);
    hide Inv, Step, OracleAgrees, DecodeSlot, Newest, ReachesRoot, RootDraw, StoredShort, Forges, TailStands, SlotBytes,
         ShortRoot;
    ShortIsScripted(s, op, amount);
    ZerosComplete(c, s.store.dirty, PublishedRoot(s.writer, op.layout), amount);
    assert RootCompleted(c, s, op) && !RootForged(c, s, op);
    hide RootCompleted, RootForged;
    StepExact(c, s, op, order);
    CompletedRootStands(c, s, op, order);
  }

  /**
   A new file, one point, a checkpoint whose root write stores all but trailing zeros: whatever the coding and the
   order of marking, the file then opens to a root whose write had failed. One zero byte at the end is enough.
   */
  lemma ShortRunDisagrees(c: Codec, first: Sketch, layout: Layout, amount: nat, order: MarkOrder)
    requires 1 <= amount < SLOT_SIZE
    requires forall p :: amount <= p < |c.encode(SecondRoot(first, layout))| ==> c.encode(SecondRoot(first, layout))[p] == 0
    ensures !AgreesThroughout(c, Start(c, 1, first, ShortRoot(layout, amount)), PointThenCheckpoint(false, layout), order)
  {
    hide Start, CreatedImage, Inv, DecodeSlot, SlotBytes, AgreesThroughout, ShortRoot, Step, OracleAgrees, Newest,
         PublishedRoot, RootForged, RootCompleted;
    var s := Start(c, 1, first, ShortRoot(layout, amount));
    StartInv(c, 1, first, ShortRoot(layout, amount));
    StartShape(c, first, ShortRoot(layout, amount));
    SecondSlotEmpty(c, first);
    FirstAppend(c, s, layout, order);
    var middle := Step(c, s, AppendOne(layout), order).value;
    assert PublishedRoot(middle.writer, layout) == SecondRoot(first, layout);
    assert |c.encode(SecondRoot(first, layout))| == SLOT_SIZE;
    ShortDisturbs(c, middle, Op.Checkpoint(false, layout), order, amount);
    SecondDisagrees(c, s, PointThenCheckpoint(false, layout), order, middle);
  }

  /** Some coding does end its roots in zeros. */
  lemma ShortRunExists(first: Sketch, layout: Layout, amount: nat, order: MarkOrder)
    requires 1 <= amount < SLOT_SIZE
    ensures !AgreesThroughout(Plain(), Start(Plain(), 1, first, ShortRoot(layout, amount)), PointThenCheckpoint(false, layout), order)
  {
    hide Start, AgreesThroughout, ShortRoot, PublishedRoot;
    var c: Codec := Plain();
    assert c.encode(SecondRoot(first, layout)) == PlainBytes(SecondRoot(first, layout));
    ShortRunDisagrees(c, first, layout, amount, order);
  }

  lemma PublishedDecodesAs(c: Codec, s: Sim, layout: Layout)
    requires Inv(c, s)
    ensures RootDecodes(PublishedRoot(s.writer, layout))
  {
    CountsWithin(c, s);
    hide ImagesOk, Settled, WriterAgrees, ReaderOk;
    NextRootDecodes(c, s.writer, s.store.dirty, layout);
  }
}

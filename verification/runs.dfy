/**
 Whole runs of the simulator under every script of faults: at which operations the oracle and the bytes
 agree, and exactly what ends the agreement.
 */
module Runs {
  import opened Options
  import opened Objects
  import opened Encodings
  import opened Storage
  import opened Engine
  import opened Images
  import opened Appender
  import opened Checkpoints
  import opened Oracle
  import opened Generations
  import opened Simulation
  import opened Agreement
  import opened Scripts
  import opened Publishing

  // ---- Refresh ----

  lemma NewestAtLeastCarried(c: Codec, image: seq<Byte>, r: Object)
    requires Carries(c, image, r)
    ensures |image| >= BLOCK_SIZE && r.Root?
    ensures NewestCandidate(c, image).Some? && NewestCandidate(c, image).value >= r.generation
  {
    hide DecodeSlot, ChainIntact;
    RetainedIsCandidate(c, image, r, 0);
    assert Candidates(c, image)[SlotOf(r.generation)] == Some(r);
  }

  lemma LoadsHeld(c: Codec, image: seq<Byte>, r: Object)
    requires Holds(c, image, r)
    ensures |image| >= BLOCK_SIZE && HeaderIntact(c, image) && WellFormedRoot(r) && r.Root? && r.committed <= |image|
    ensures Load(c, image, Candidates(c, image)) == Some(r)
  {
    hide ChainIntact, Retains, SlotExplained, NoGap, HeaderIntact, Load, Candidates, Overtaken;
    OpenSelects(c, image, r);
  }

  lemma DescendsFacts(r: Object, x: Object)
    requires WellFormedRoot(r) && Descends(r, x)
    ensures r.Root? && x.Root? && x.generation <= r.generation
    ensures if x.generation == r.generation then x == r else x.committed < r.committed
  {
  }

  /** A refresh finds a newer generation exactly when there is one, and then adopts the held root. */
  lemma RefreshExact(c: Codec, reader: Reader, image: seq<Byte>, r: Object)
    requires Holds(c, image, r) && Descends(r, reader.root)
    ensures var f := RefreshReader(c, reader, image);
            && f.Some?
            && (f.value.changed <==> reader.root.generation < r.generation)
            && f.value.reader.root == r
  {
    NewestAtLeastCarried(c, image, r);
    LoadsHeld(c, image, r);
    hide Carries, HeaderIntact, Candidates, Load, Overtaken, NewestCandidate, WellFormedRoot, Descends;
    DescendsFacts(r, reader.root);
  }

  lemma RefreshKeeps(c: Codec, s: Sim)
    requires Inv(c, s)
    ensures RefreshStep(c, s).Some? && Inv(c, RefreshStep(c, s).value) && Lands(c, RefreshStep(c, s), s.writer.root)
  {
    var r := s.writer.root;
    SettledHolds(c, s.store.dirty, s.store.durable, s.model, r);
    CountsWithin(c, s);
    hide Carries, Holds, DurableHolds, HistoryOk, DurableOk, FewerRoots, WriterOk, WriterAgrees, ContentIs, RefreshReader, Descends,
         ImagesOk, Settled, DurableRoot;
    RefreshExact(c, s.reader, s.store.dirty, r);
    SyncReaderKeeps(c, s.store.dirty, s.store.durable, s.model, r);
    ReopenedReader(s.model, r);
    RefreshedAgrees(s.writer, s.model);
    LandsAtSnapshot(c, RefreshStep(c, s).value, r);
  }

  lemma RefreshedAgrees(w: Writer, m: Model)
    requires Shape(m) && HasRoot(w) && |w.pending| == |m.points| && WriterAgrees(w, m)
    ensures WriterAgrees(w, SyncReader(m))
  {
  }

  // ---- Append ----

  lemma BatchAccepted(c: Codec, s: Sim, series: nat, arrivals: seq<Arrival>)
    requires Inv(c, s) && series < |s.model.points|
    ensures Accepts(s.writer, series, Batch(LastTimestamp(s.model.points[series]), arrivals))
  {
    hide ImagesOk, Settled, WriterOk, ReaderOk, Batch;
    assert Given(s.writer, series) == s.model.points[series];
  }

  /** More points at the end of a series change no committed prefix. */
  lemma HistoryAfterAppend(m: Model, r: Object, series: nat, batch: seq<Point>)
    requires HistoryOk(m, r) && series < |m.points| && StrictlyIncreasing(m.points[series] + batch)
    ensures HistoryOk(m.(points := m.points[series := m.points[series] + batch]), r)
  {
    hide Recorded, Content;
    var after := m.(points := m.points[series := m.points[series] + batch]);
    forall h | 0 <= h <= m.current
      ensures CountsFit(after.points, after.history[h].counts)
      ensures ContentIs(RootAt(r, after.history[h].endSize), after.points, after.history[h].counts)
    {
      var counts := m.history[h].counts;
      assert CountsFit(m.points, counts);
      assert (m.points[series] + batch)[..counts[series]] == m.points[series][..counts[series]];
    }
  }

  lemma ReaderAfterAppend(root: Object, points: seq<seq<Point>>, counts: seq<nat>, series: nat, batch: seq<Point>)
    requires RootDecodes(root) && CountsFit(points, counts) && ContentIs(root, points, counts) && series < |points|
    ensures var after := points[series := points[series] + batch];
            CountsFit(after, counts) && ContentIs(root, after, counts)
  {
    assert (points[series] + batch)[..counts[series]] == points[series][..counts[series]];
  }

  lemma AppendInOrder(points: seq<Point>, arrivals: seq<Arrival>)
    requires StrictlyIncreasing(points)
    ensures StrictlyIncreasing(points + Batch(LastTimestamp(points), arrivals))
  {
  }

  lemma DropFirst(a: seq<Placed>, b: seq<Placed>, c: seq<Placed>)
    ensures (a + b + c)[|a|..] == b + c && a + (b + c) == a + b + c
  {
  }

  lemma FillPages(c: Codec, w: Writer, image: seq<Byte>, layout: Layout, series: nat, batch: seq<Point>)
    requires WriterOk(c, w, image) && |image| >= BLOCK_SIZE && series < |w.pending|
    ensures var d := Fill(StartDraft(w), layout, series, w.pending[series], batch).0;
            var kept := w.root.manifest.pages;
            && DraftOk(d, kept + w.flushed, |image|)
            && |kept| <= |d.pages| && d.pages[|kept|..] == w.flushed + PagesOf(d.actions)
            && kept + d.pages[|kept|..] == d.pages
  {
    var start := StartDraft(w);
    assert start.pages + PagesOf(start.actions) == start.pages;
    FillOk(start, layout, series, w.pending[series], batch, start.pages, |image|);
    var d := Fill(start, layout, series, w.pending[series], batch).0;
    DropFirst(w.root.manifest.pages, w.flushed, PagesOf(d.actions));
  }

  /** What the writer has been given after a batch: the batch is added to its series, the others are as before. */
  lemma GivenAfterFill(w: Writer, layout: Layout, series: nat, batch: seq<Point>, i: nat)
    requires HasRoot(w) && series < |w.pending| && |w.pending[series]| <= RECORDS_MAX && i < |w.pending|
    ensures var (d, rest) := Fill(StartDraft(w), layout, series, w.pending[series], batch);
            Content(d.pages, i) + (if i == series then rest else w.pending[i]) ==
            Given(w, i) + if i == series then batch else []
  {
    var start := StartDraft(w);
    if i == series {
      FillContent(start, layout, series, w.pending[series], batch);
      assert Content(start.pages, series) + (w.pending[series] + batch) == Given(w, series) + batch;
    } else {
      FillOthers(start, layout, series, w.pending[series], batch, i);
      assert Given(w, i) + [] == Given(w, i);
    }
  }

  /** Page writes, finished or not, leave both images carrying their roots. */
  lemma ImagesAfterObjects(c: Codec, s: Store, o: Outcome, actions: seq<Action>, m: Model, r: Object)
    requires ImagesOk(c, s.dirty, s.durable, m, r) && ObjectsEffect(c, s, o, actions)
    ensures ImagesOk(c, o.store.dirty, o.store.durable, m, r)
  {
    CarriedFits(c, s.dirty, r);
    CarriedIsLong(c, s.dirty, r);
    hide HistoryOk, Carries, FewerRoots, AllWritten;
    CarriesAfterExtension(c, s.dirty, o.store.dirty, r);
    FewerRootsAfterExtension(c, s.dirty, o.store.dirty, r.generation);
    UnpublishedImages(c, s, o.store, m, r);
  }

  function WriterAfterAppend(w: Writer, series: nat, d: Draft, rest: seq<Point>): Writer
    requires HasRoot(w) && series < |w.pending| && |w.root.manifest.pages| <= |d.pages|
  {
    Writer(w.root, d.offset, w.pending[series := rest], d.pages[|w.root.manifest.pages|..], true)
  }

  lemma AppendedWriterOk(c: Codec, w: Writer, s: Store, series: nat, batch: seq<Point>, layout: Layout, o: Outcome)
    requires WriterOk(c, w, s.dirty) && |s.dirty| >= BLOCK_SIZE && series < |w.pending|
    requires ObjectsEffect(c, s, o, Fill(StartDraft(w), layout, series, w.pending[series], batch).0.actions) && o.ok
    ensures var (d, rest) := Fill(StartDraft(w), layout, series, w.pending[series], batch);
            |w.root.manifest.pages| <= |d.pages| && WriterOk(c, WriterAfterAppend(w, series, d, rest), o.store.dirty)
  {
    FillPages(c, w, s.dirty, layout, series, batch);
    hide Ascending, Fill, WellFormedRoot, IntactAt;
    var (d, rest) := Fill(StartDraft(w), layout, series, w.pending[series], batch);
    WrittenPagesIntact(c, o.store.dirty, d.actions, |s.dirty|);
    PagesIntactAfterExtension(c, s.dirty, o.store.dirty, w.flushed);
  }

  lemma AppendedWriterAgrees(w: Writer, m: Model, series: nat, batch: seq<Point>, layout: Layout)
    requires Shape(m) && HasRoot(w) && |w.pending| == |m.points| && WriterAgrees(w, m)
    requires series < |m.points| && batch != [] && |w.pending[series]| <= RECORDS_MAX
    requires m.history[m.current].counts[series] <= |m.points[series]|
    requires var d := Fill(StartDraft(w), layout, series, w.pending[series], batch).0;
             && |w.root.manifest.pages| <= |d.pages|
             && w.root.manifest.pages + d.pages[|w.root.manifest.pages|..] == d.pages
    ensures var (d, rest) := Fill(StartDraft(w), layout, series, w.pending[series], batch);
            WriterAgrees(WriterAfterAppend(w, series, d, rest), m.(points := m.points[series := m.points[series] + batch]))
  {
    hide Fill, Content;
    var (d, rest) := Fill(StartDraft(w), layout, series, w.pending[series], batch);
    var after := m.(points := m.points[series := m.points[series] + batch]);
    forall i | 0 <= i < |after.points|
      ensures Given(WriterAfterAppend(w, series, d, rest), i) == after.points[i]
    {
      GivenAfterFill(w, layout, series, batch, i);
      assert m.points[i] + [] == m.points[i];
    }
    assert after.history[after.current].counts[series] < |after.points[series]|;
  }

  lemma AppendedImages(c: Codec, dirty: seq<Byte>, durable: seq<Byte>, m: Model, r: Object, series: nat, batch: seq<Point>)
    requires ImagesOk(c, dirty, durable, m, r) && series < |m.points| && StrictlyIncreasing(m.points[series] + batch)
    ensures ImagesOk(c, dirty, durable, m.(points := m.points[series := m.points[series] + batch]), r)
  {
    HistoryAfterAppend(m, r, series, batch);
    hide HistoryOk, Carries, FewerRoots;
  }

  lemma CountsWithin(c: Codec, s: Sim)
    requires Inv(c, s)
    ensures WellFormedRoot(s.writer.root) && CountsFit(s.model.points, s.model.readerCounts)
    ensures forall i :: 0 <= i < |s.model.points| ==> StrictlyIncreasing(s.model.points[i])
    ensures forall i :: 0 <= i < |s.model.points| ==> s.model.history[s.model.current].counts[i] <= |s.model.points[i]|
    ensures |s.store.dirty| >= BLOCK_SIZE && |s.store.durable| >= BLOCK_SIZE
  {
    CarriedIsLong(c, s.store.dirty, s.writer.root);
    CarriedIsLong(c, s.store.durable, DurableRoot(s.model, s.writer.root));
    hide Carries, WriterOk, WriterAgrees, FewerRoots, Settled, ContentIs, Recorded;
  }

  lemma ObjectsStoreOk(c: Codec, s: Store, o: Outcome, actions: seq<Action>)
    requires ObjectsEffect(c, s, o, actions) && o.ok && StoreOk(s)
    ensures StoreOk(o.store) && o.store.faultsEnabled == s.faultsEnabled
  {
    hide AllWritten;
  }

  lemma AppendedPages(c: Codec, w: Writer, image: seq<Byte>, layout: Layout, series: nat, batch: seq<Point>)
    requires WriterOk(c, w, image) && |image| >= BLOCK_SIZE && series < |w.pending|
    ensures var (d, rest) := Fill(StartDraft(w), layout, series, w.pending[series], batch);
            && |rest| <= RECORDS_MAX
            && |w.root.manifest.pages| <= |d.pages|
            && w.root.manifest.pages + d.pages[|w.root.manifest.pages|..] == d.pages
  {
    FillPages(c, w, image, layout, series, batch);
  }

  /** The simulator's state once the batch is stored. */
  function AppendedSim(s: Sim, series: nat, batch: seq<Point>, layout: Layout, t: Store): Sim
    requires Ready(s) && series < |s.model.points|
    requires |s.writer.root.manifest.pages| <= |Fill(StartDraft(s.writer), layout, series, s.writer.pending[series], batch).0.pages|
  {
    var (d, rest) := Fill(StartDraft(s.writer), layout, series, s.writer.pending[series], batch);
    Sim(t, s.model.(points := s.model.points[series := s.model.points[series] + batch]),
        WriterAfterAppend(s.writer, series, d, rest), s.reader)
  }

  lemma AppendedWriter(c: Codec, s: Sim, series: nat, batch: seq<Point>, layout: Layout, o: Outcome)
    requires Ready(s) && WriterOk(c, s.writer, s.store.dirty) && WriterAgrees(s.writer, s.model)
    requires series < |s.model.points| && batch != [] && o.ok && |s.store.dirty| >= BLOCK_SIZE
    requires s.model.history[s.model.current].counts[series] <= |s.model.points[series]|
    requires ObjectsEffect(c, ForgetFault(s.store), o, Fill(StartDraft(s.writer), layout, series, s.writer.pending[series], batch).0.actions)
    ensures |s.writer.root.manifest.pages| <= |Fill(StartDraft(s.writer), layout, series, s.writer.pending[series], batch).0.pages|
    ensures var n := AppendedSim(s, series, batch, layout, o.store);
            Ready(n) && WriterOk(c, n.writer, n.store.dirty) && WriterAgrees(n.writer, n.model)
  {
    hide WriterOk, WriterAgrees, Fill, ObjectsEffect, StartDraft;
    AppendedPages(c, s.writer, s.store.dirty, layout, series, batch);
    AppendedWriterOk(c, s.writer, ForgetFault(s.store), series, batch, layout, o);
    AppendedWriterAgrees(s.writer, s.model, series, batch, layout);
  }

  lemma AppendedLands(c: Codec, s: Sim, series: nat, batch: seq<Point>, layout: Layout, o: Outcome)
    requires Ready(s) && Inv(c, s) && series < |s.model.points| && batch != [] && o.ok
    requires StrictlyIncreasing(s.model.points[series] + batch)
    requires ObjectsEffect(c, ForgetFault(s.store), o, Fill(StartDraft(s.writer), layout, series, s.writer.pending[series], batch).0.actions)
    ensures |s.writer.root.manifest.pages| <= |Fill(StartDraft(s.writer), layout, series, s.writer.pending[series], batch).0.pages|
    ensures Lands(c, Some(AppendedSim(s, series, batch, layout, o.store)), s.writer.root)
  {
    var store := ForgetFault(s.store);
    var d := Fill(StartDraft(s.writer), layout, series, s.writer.pending[series], batch).0;
    CountsWithin(c, s);
    AppendedWriter(c, s, series, batch, layout, o);
    hide Carries, HistoryOk, DurableOk, FewerRoots, Settled, ReaderOk, WriterOk, WriterAgrees, ContentIs, Fill, ImagesOk,
         ObjectsEffect, StrictlyIncreasing, Lands, StartDraft, Ready;
    ImagesAfterObjects(c, store, o, d.actions, s.model, s.writer.root);
    ObjectsStoreOk(c, store, o, d.actions);
    AppendedImages(c, o.store.dirty, o.store.durable, s.model, s.writer.root, series, batch);
    var n := AppendedSim(s, series, batch, layout, o.store);
    AppendedReader(s, n, series, batch);
    LandsAtSnapshot(c, n, s.writer.root);
  }

  lemma AppendedReader(s: Sim, n: Sim, series: nat, batch: seq<Point>)
    requires WellFormedRoot(s.writer.root) && CountsFit(s.model.points, s.model.readerCounts) && ReaderOk(s)
    requires series < |s.model.points| && n.writer.root == s.writer.root && n.reader == s.reader
    requires n.model == s.model.(points := s.model.points[series := s.model.points[series] + batch])
    ensures CountsFit(n.model.points, n.model.readerCounts) && ReaderOk(n)
  {
    hide Content;
    ReaderAfterAppend(s.reader.root, s.model.points, s.model.readerCounts, series, batch);
  }

  /** Forgetting the last fault is all that an empty batch does. */
  lemma ForgetLands(c: Codec, s: Sim)
    requires Inv(c, s)
    ensures Lands(c, Some(s.(store := ForgetFault(s.store))), s.writer.root)
  {
    CountsWithin(c, s);
    hide Carries, HistoryOk, DurableOk, FewerRoots, Settled, WriterOk, WriterAgrees, ContentIs, Descends, ImagesOk;
    LandsAtSnapshot(c, s.(store := ForgetFault(s.store)), s.writer.root);
  }

  /** The engine never refuses a generated batch, and a batch leaves both images carrying their roots whether it is stored or lost. */
  lemma AppendLands(c: Codec, s: Sim, series: nat, arrivals: seq<Arrival>, layout: Layout)
    requires Inv(c, s) && series < |s.model.points|
    ensures Lands(c, AppendStep(c, s, series, arrivals, layout), s.writer.root)
  {
    BatchAccepted(c, s, series, arrivals);
    CountsWithin(c, s);
    AppendInOrder(s.model.points[series], arrivals);
    var batch := Batch(LastTimestamp(s.model.points[series]), arrivals);
    hide Carries, HistoryOk, DurableOk, FewerRoots, Settled, ReaderOk, WriterAgrees, ContentIs, Fill, ImagesOk, Batch, Accepts,
         ObjectsEffect, Lands, Exec, Recover;
    if batch == [] {
      ForgetLands(c, s);
    } else {
      var store := ForgetFault(s.store);
      var (d, rest) := Fill(StartDraft(s.writer), layout, series, s.writer.pending[series], batch);
      var o := Exec(c, store, d.actions);
      FillPages(c, s.writer, s.store.dirty, layout, series, batch);
      ExecObjects(c, store, d.actions);
      if o.ok {
        AppendedLands(c, s, series, batch, layout, o);
      } else {
        ImagesAfterObjects(c, store, o, d.actions, s.model, s.writer.root);
        ObjectsKeepFaults(c, store, o, d.actions);
        RecoverEither(c, o.store, s.model, s.writer.root, PowerLost(o.store));
      }
    }
  }

  lemma ObjectsKeepFaults(c: Codec, s: Store, o: Outcome, actions: seq<Action>)
    requires ObjectsEffect(c, s, o, actions)
    ensures o.store.faultsEnabled == s.faultsEnabled
  {
  }

  // ---- One operation ----

  /** Neither the carried root nor its predecessor is left by the operation. */
  ghost predicate CutsTooDeep(c: Codec, s: Sim, op: Op)
    requires Ready(s) && WellFormedRoot(s.writer.root) && |s.store.dirty| >= BLOCK_SIZE
  {
    && op.TruncateFile?
    && var size := TruncatedSize(s.model, |s.store.dirty|);
       size.Some? && !Recoverable(c, s.store.dirty, s.writer.root, size.value)
  }

  /** As the simulator is written: the durable generation is marked after the snapshot of an unsynced root. */
  ghost predicate MarkedTooLate(c: Codec, s: Sim, op: Op, order: MarkOrder)
    requires HasRoot(s.writer)
  {
    order == AfterSnapshot && PostRootProcessCrash(s, op) && !NextStood(c, s, op)
  }

  /** A root stands in the image that is newer than the one of the generation. */
  ghost predicate NewerStands(c: Codec, image: seq<Byte>, m: Model, newest: Object, generation: nat) {
    && WellFormedRoot(newest) && generation < |m.history| && |image| >= BLOCK_SIZE
    && Overtaken(c, image, RootAt(newest, m.history[generation].endSize).generation)
  }

  /** After the operation a retained root stands again in one of the images, newer than the oracle knows. */
  ghost predicate Revived(c: Codec, s: Sim, op: Op, order: MarkOrder)
    requires Ready(s) && KnownSeries(op, |s.model.points|)
  {
    var n := Step(c, s, op, order);
    && n.Some? && !RootCompleted(c, s, op)
    && (|| NewerStands(c, n.value.store.dirty, n.value.model, Newest(s, op), n.value.model.current)
        || NewerStands(c, n.value.store.durable, n.value.model, Newest(s, op), n.value.model.durable))
  }

  /**
   All that can end the agreement: a root write cut short that completes the root all the same; a root left
   by a truncation or a torn write that stands again, because the operation wrote its manifest or its
   predecessor byte for byte anew; and, as written, the process crash after the root.
   */
  ghost predicate Disturbed(c: Codec, s: Sim, op: Op, order: MarkOrder)
    requires Ready(s) && KnownSeries(op, |s.model.points|)
  {
    RootCompleted(c, s, op) || Revived(c, s, op, order) || MarkedTooLate(c, s, op, order)
  }

  /** Every operation leaves both images carrying the roots the oracle names, but for the two listed. */
  lemma StepLands(c: Codec, s: Sim, op: Op, order: MarkOrder)
    requires Inv(c, s) && KnownSeries(op, |s.model.points|) && !RootForged(c, s, op) && !MarkedTooLate(c, s, op, order)
    requires WellFormedRoot(s.writer.root) && |s.store.dirty| >= BLOCK_SIZE && !CutsTooDeep(c, s, op)
    ensures Lands(c, Step(c, s, op, order), Newest(s, op))
  {
    hide TruncateStep, CheckpointStep, ReopenStep, RefreshStep, AppendStep, Inv, Lands, RootForged, PostRootProcessCrash, NextStood,
         PublishedRoot, ReachesRoot;
    if !(op.Checkpoint? || op.Reopen?) {
      NothingNewer(s, op);
    }
    hide Newest;
    match op
    case TruncateFile => TruncateKeeps(c, s);
    case Checkpoint(sync, layout) => CheckpointLands(c, s, op, order);
    case Reopen(layout) => ReopenLands(c, s, op);
    case Refresh => RefreshKeeps(c, s);
    case Query => QueryLands(c, s);
    case Append(series, arrivals, layout) => AppendLands(c, s, series, arrivals, layout);
  }

  lemma NothingNewer(s: Sim, op: Op)
    requires HasRoot(s.writer) && !op.Checkpoint? && !op.Reopen?
    ensures Newest(s, op) == s.writer.root
  {
  }

  lemma QueryLands(c: Codec, s: Sim)
    requires Inv(c, s)
    ensures Lands(c, Some(s), s.writer.root)
  {
    CountsWithin(c, s);
    hide Carries, HistoryOk, DurableOk, FewerRoots, Settled, WriterOk, WriterAgrees, ContentIs, Descends, ImagesOk;
    LandsAtSnapshot(c, s, s.writer.root);
  }

  /** Where both images carry what the oracle names, they agree exactly when nothing newer stands in them. */
  lemma LandedExactly(c: Codec, n: Option<Sim>, newest: Object)
    requires Lands(c, n, newest)
    ensures var s := n.value;
            && (OracleAgrees(c, s, newest) <==> !(|| NewerStands(c, s.store.dirty, s.model, newest, s.model.current)
                                                  || NewerStands(c, s.store.durable, s.model, newest, s.model.durable)))
            && (OracleAgrees(c, s, newest) ==> Inv(c, s))
  {
    var s := n.value;
    var m := s.model;
    var top := RootAt(newest, m.history[m.current].endSize);
    AgreesExactly(c, s, newest);
    CarriedIsLong(c, s.store.dirty, top);
    CarriedIsLong(c, s.store.durable, DurableRoot(m, top));
    Extents(m, top, m.durable, m.current);
    hide Carries, HistoryOk, FewerRoots, Overtaken, OracleAgrees, Inv, RootAt;
    RootAtCompose(newest, m.history[m.current].endSize, m.history[m.durable].endSize);
  }

  /** Recovery from a process crash right after a snapshot keeps that snapshot current. */
  lemma RecoverAtSnapshot(c: Codec, t: Store, m: Model)
    requires Shape(m) && m.durable == m.current && m.history[m.current].endSize <= |t.dirty|
    requires Open(c, t.dirty).Some?
    ensures var r := Recover(c, t, m, false);
            && r.Some? && r.value.store.durable == t.durable
            && r.value.model.durable == m.current && r.value.model.history == m.history
  {
    hide Open;
    assert m.history[..m.current + 1] == m.history;
  }

  /** As written, that crash leaves the durable mark on a root the durable image does not show. */
  lemma CrashAfterRootDisagrees(c: Codec, s: Sim, op: Op)
    requires Inv(c, s) && !RootForged(c, s, op) && MarkedTooLate(c, s, op, AfterSnapshot) && |s.store.dirty| >= BLOCK_SIZE
    ensures var r := CheckpointStep(c, s, true, op.layout, AfterSnapshot);
            r.Some? && !OracleAgrees(c, r.value, Newest(s, op))
  {
    var store := ForgetFault(s.store);
    var next := PublishedRoot(s.writer, op.layout);
    var t := Exec(c, store, PlanCheckpoint(s.writer, true, op.layout).actions).store;
    ScriptedOutcome(c, s, op, store);
    RootWasWritten(c, s, op);
    FinalDraw(c, s, op.layout);
    hide Carries, HistoryOk, DurableOk, FewerRoots, Settled, ReaderOk, WriterOk, WriterAgrees, Exec, PlanCheckpoint, ImagesOk,
         Recover, RootForged, PublishedRoot, RootCompleted, Overtaken, ContentIs, Open, GraphIntact, ReachesRoot, RootDraw,
         SyncedBefore, OnlyRootMissing, OtherSlotsSame, WellFormedRoot, ThroughRoot;
    UnsyncedAsWritten(c, store, t, s.model, s.writer.root, next);
    OpenSelects(c, t.dirty, next);
    var after := AfterFailedCheckpoint(s.model, t, AfterSnapshot);
    assert after == TakeSnapshot(s.model, |t.dirty|, true);
    RecoverAtSnapshot(c, t, after);
    CarriedWellFormed(c, t.dirty, next);
    RootAtSelf(next, |t.dirty|);
  }

  lemma CutTooDeepExact(c: Codec, s: Sim, op: Op, order: MarkOrder)
    requires Ready(s) && KnownSeries(op, |s.model.points|) && Inv(c, s) && WellFormedRoot(s.writer.root) && |s.store.dirty| >= BLOCK_SIZE && CutsTooDeep(c, s, op)
    requires Step(c, s, op, order).Some?
    ensures !OracleAgrees(c, Step(c, s, op, order).value, Newest(s, op))
    ensures Revived(c, s, op, order)
  {
    hide TruncateStep, Inv, Recoverable, Overtaken, OracleAgrees;
    BeyondRecovery(c, s, TruncatedSize(s.model, |s.store.dirty|).value);
  }

  /**
   The result of one operation, for both orders of marking: the oracle agrees with both images afterwards
   exactly when none of the disturbances happened; then the invariant holds again; and only a truncation
   can stop the simulator.
   */
  lemma StepExact(c: Codec, s: Sim, op: Op, order: MarkOrder)
    requires Inv(c, s) && KnownSeries(op, |s.model.points|) && !RootForged(c, s, op)
    ensures var n := Step(c, s, op, order);
            && (n.None? ==> op.TruncateFile? && !Disturbed(c, s, op, order))
            && (n.Some? ==> (OracleAgrees(c, n.value, Newest(s, op)) <==> !Disturbed(c, s, op, order)))
            && (n.Some? && !Disturbed(c, s, op, order) ==> Inv(c, n.value))
  {
    CountsWithin(c, s);
    hide TruncateStep, CheckpointStep, ReopenStep, RefreshStep, AppendStep, Inv, RootForged, PublishedRoot, NewerStands, Revived,
         OracleAgrees, CompletedWrite, PostRootProcessCrash, NextStood, Overtaken, Step, Newest, ReachesRoot, Recoverable;
    if MarkedTooLate(c, s, op, order) {
      TooLateExact(c, s, op, order);
    } else if CutsTooDeep(c, s, op) {
      NothingPublished(c, s, op);
      if Step(c, s, op, order).Some? {
        CutTooDeepExact(c, s, op, order);
      } else {
        NotRevived(c, s, op, order);
      }
    } else {
      LandedStepExact(c, s, op, order);
    }
  }

  lemma NotRevived(c: Codec, s: Sim, op: Op, order: MarkOrder)
    requires Ready(s) && KnownSeries(op, |s.model.points|) && Step(c, s, op, order).None?
    ensures !Revived(c, s, op, order)
  {
    hide Step, RootCompleted;
  }

  lemma LandedStepExact(c: Codec, s: Sim, op: Op, order: MarkOrder)
    requires Ready(s) && Inv(c, s) && KnownSeries(op, |s.model.points|) && !RootForged(c, s, op) && !MarkedTooLate(c, s, op, order)
    requires WellFormedRoot(s.writer.root) && |s.store.dirty| >= BLOCK_SIZE && !CutsTooDeep(c, s, op)
    ensures var n := Step(c, s, op, order);
            && n.Some?
            && (OracleAgrees(c, n.value, Newest(s, op)) <==> !Disturbed(c, s, op, order))
            && (!Disturbed(c, s, op, order) ==> Inv(c, n.value))
  {
    hide TruncateStep, CheckpointStep, ReopenStep, RefreshStep, AppendStep, Inv, RootForged, RootCompleted, Lands, NewerStands,
         OracleAgrees, MarkedTooLate, CutsTooDeep, Step, Newest;
    StepLands(c, s, op, order);
    LandedSome(c, Step(c, s, op, order), Newest(s, op));
    LandedExactly(c, Step(c, s, op, order), Newest(s, op));
    if RootCompleted(c, s, op) {
      CompletedExact(c, s, op, order);
    }
  }

  lemma LandedSome(c: Codec, n: Option<Sim>, newest: Object)
    requires Lands(c, n, newest)
    ensures n.Some?
  {
  }

  lemma NothingPublished(c: Codec, s: Sim, op: Op)
    requires HasRoot(s.writer) && op.TruncateFile?
    ensures !RootCompleted(c, s, op) && !PostRootProcessCrash(s, op)
  {
  }

  lemma TooLateExact(c: Codec, s: Sim, op: Op, order: MarkOrder)
    requires Inv(c, s) && KnownSeries(op, |s.model.points|) && !RootForged(c, s, op) && MarkedTooLate(c, s, op, order)
    requires |s.store.dirty| >= BLOCK_SIZE
    ensures var n := Step(c, s, op, order);
            n.Some? && !OracleAgrees(c, n.value, Newest(s, op))
  {
    hide Inv, RootForged, OracleAgrees, NextStood, Publishes, CheckpointStep;
    CrashAfterRootDisagrees(c, s, op);
  }

  lemma CompletedExact(c: Codec, s: Sim, op: Op, order: MarkOrder)
    requires Inv(c, s) && KnownSeries(op, |s.model.points|) && !RootForged(c, s, op) && RootCompleted(c, s, op)
    requires |s.store.dirty| >= BLOCK_SIZE && Lands(c, Step(c, s, op, order), Newest(s, op))
    ensures var n := Step(c, s, op, order).value;
            NewerStands(c, n.store.dirty, n.model, Newest(s, op), n.model.current)
  {
    CompletedRootStands(c, s, op, order);
    hide Inv, RootForged, RootCompleted, Overtaken, Step, Newest, ImagesOk;
    var n := Step(c, s, op, order).value;
    LowerOvertaken(c, n.store.dirty, s.writer.root.generation, RootAt(s.writer.root, n.model.history[n.model.current].endSize).generation);
  }

  // ---- Creation ----

  function FirstRoot(first: Sketch): Object {
    Root(1, BLOCK_SIZE + first.size, BLOCK_SIZE, Manifest(first.size, first.tag, 1, []), None)
  }

  function CreatedImage(c: Codec, first: Sketch): seq<Byte> {
    var root := FirstRoot(first);
    Put(Put(Put([], c.encode(Control), 0), c.encode(root.manifest), BLOCK_SIZE), c.encode(root), SlotOffset(0))
  }

  function Creation(first: Sketch): seq<Action> {
    var root := FirstRoot(first);
    [Write(Control, 0), Write(root.manifest, BLOCK_SIZE), Write(root, SlotOffset(0)), SyncFile]
  }

  /** A new database: control block, empty manifest, first root, then a durable checkpoint with nothing to publish. */
  function Start(c: Codec, count: nat, first: Sketch, script: seq<Choice>): (s: Sim)
    ensures Ready(s) && |s.model.points| == count
  {
    var root := FirstRoot(first);
    var o := Exec(c, Store([], [], false, script, None, false, false, false, 0), Creation(first));
    var model := Model(seq(count, _ => []), [], 0, 0, seq(count, _ => 0));
    var w := OpenWriter(root, |o.store.dirty|, count);
    Sim(o.store.(faultsEnabled := true), TakeSnapshot(model, |o.store.dirty|, true), w, Reader(root, |o.store.dirty|))
  }

  lemma CreatedStore(c: Codec, count: nat, first: Sketch, script: seq<Choice>)
    ensures var store := Start(c, count, first, script).store;
            && store.dirty == store.durable == CreatedImage(c, first) && store.faultsEnabled
            && !store.priorGenerationBecameDurable && store.script == script
  {
    hide Put;
    var calls := Creation(first);
    var store := Store([], [], false, script, None, false, false, false, 0);
    ExecLast(c, store, [], calls[0]);
    ExecLast(c, store, calls[..1], calls[1]);
    ExecLast(c, store, calls[..2], calls[2]);
    ExecLast(c, store, calls[..3], calls[3]);
    assert [] + [calls[0]] == calls[..1];
    assert calls[..1] + [calls[1]] == calls[..2];
    assert calls[..2] + [calls[2]] == calls[..3];
    assert calls[..3] + [calls[3]] == calls;
  }

  /** Every byte of a new database, in one place. */
  lemma CreatedBytes(c: Codec, first: Sketch)
    ensures var image := CreatedImage(c, first);
            && |image| == BLOCK_SIZE + first.size
            && forall p :: 0 <= p < |image| ==>
                image[p] == if InSlot(p, 0) then c.encode(FirstRoot(first))[p - SlotOffset(0)]
                            else if p < BLOCK_SIZE then c.encode(Control)[p]
                            else c.encode(FirstRoot(first).manifest)[p - BLOCK_SIZE]
  {
  }

  /** A zero byte where a root would start shows no root. */
  lemma NoRootInZeros(c: Codec, image: seq<Byte>, slot: nat)
    requires |image| >= BLOCK_SIZE && slot < SLOT_COUNT && image[SlotOffset(slot)] == 0
    ensures DecodeSlot(c, image, slot).None?
  {
    assert SlotBytes(image, slot)[0] == 0;
  }

  lemma CreatedSlots(c: Codec, first: Sketch)
    ensures |CreatedImage(c, first)| >= BLOCK_SIZE
    ensures DecodeSlot(c, CreatedImage(c, first), 0) == Some(FirstRoot(first))
    ensures forall slot :: 0 < slot < SLOT_COUNT ==>
              DecodeSlot(c, CreatedImage(c, first), slot).None? &&
              forall p :: 0 <= p < SLOT_SIZE ==> SlotBytes(CreatedImage(c, first), slot)[p] == 0
  {
    var image, r := CreatedImage(c, first), FirstRoot(first);
    CreatedBytes(c, first);
    hide DecodeSlot, CreatedImage;
    assert IntactAt(c, image, SlotOffset(0), r);
    DecodeIntact(c, image, 0, r);
    forall slot | 0 < slot < SLOT_COUNT
      ensures DecodeSlot(c, image, slot).None? && forall p :: 0 <= p < SLOT_SIZE ==> SlotBytes(image, slot)[p] == 0
    {
      forall p | 0 <= p < SLOT_SIZE
        ensures SlotBytes(image, slot)[p] == 0
      {
        assert InSlots(SlotOffset(slot) + p);
        assert SlotBytes(image, slot)[p] == image[SlotOffset(slot) + p];
      }
      assert image[SlotOffset(slot)] == SlotBytes(image, slot)[0];
      NoRootInZeros(c, image, slot);
    }
  }

  lemma CreatedHolds(c: Codec, first: Sketch)
    ensures Holds(c, CreatedImage(c, first), FirstRoot(first))
  {
    var image, r := CreatedImage(c, first), FirstRoot(first);
    CreatedBytes(c, first);
    CreatedSlots(c, first);
    hide DecodeSlot, CreatedImage;
    assert WellFormedRoot(r);
    assert ChainIntact(c, image, r);
    assert Carries(c, image, r);
    hide Follows, ManifestLoads;
    assert forall k :: 0 <= k < SLOT_COUNT && Standing(c, image, k) ==> k == 0;
  }

  lemma CreatedHistory(c: Codec, count: nat, first: Sketch, script: seq<Choice>)
    ensures HistoryOk(Start(c, count, first, script).model, FirstRoot(first))
    ensures DurableRoot(Start(c, count, first, script).model, FirstRoot(first)) == FirstRoot(first)
  {
    var m, r := Start(c, count, first, script).model, FirstRoot(first);
    CreatedStore(c, count, first, script);
    CreatedBytes(c, first);
    hide Exec, CreatedImage;
    assert m.history == [Snapshot(Lengths(m.points), r.committed)];
    assert WellFormedRoot(r) && m.history[0].endSize == r.committed;
    assert RootAt(r, r.committed) == r;
  }

  lemma CreatedWriter(c: Codec, count: nat, first: Sketch, script: seq<Choice>)
    ensures var s := Start(c, count, first, script);
            && WriterOk(c, s.writer, CreatedImage(c, first))
            && WriterAgrees(s.writer, s.model)
            && WellFormedRoot(s.writer.root) && CountsFit(s.model.points, s.model.readerCounts) && ReaderOk(s)
  {
    var s, r := Start(c, count, first, script), FirstRoot(first);
    CreatedStore(c, count, first, script);
    CreatedBytes(c, first);
    CreatedHistory(c, count, first, script);
    hide Exec, CreatedImage, HistoryOk;
    forall i | 0 <= i < count
      ensures Given(s.writer, i) == []
    {
      assert r.manifest.pages + s.writer.flushed == [];
    }
  }

  lemma StartInv(c: Codec, count: nat, first: Sketch, script: seq<Choice>)
    ensures Inv(c, Start(c, count, first, script))
  {
    var image, r, s := CreatedImage(c, first), FirstRoot(first), Start(c, count, first, script);
    CreatedStore(c, count, first, script);
    CreatedBytes(c, first);
    CreatedHolds(c, first);
    CreatedHistory(c, count, first, script);
    CreatedWriter(c, count, first, script);
    CarriedIsLong(c, image, r);
    FewerRootsItself(c, image, 1);
    hide Carries, Overtaken, HistoryOk, WriterOk, WriterAgrees, ReaderOk, Exec, CreatedImage, DurableRoot, FewerRoots;
    assert DurableHolds(c, image, s.model, r);
    HeldImages(c, image, image, s.model, r);
  }

  // ---- Runs ----

  ghost predicate KnownOps(ops: seq<Op>, count: nat) {
    forall k :: 0 <= k < |ops| ==> KnownSeries(ops[k], count)
  }

  /** After each operation of the run both images open to the generations the oracle names. */
  ghost predicate AgreesThroughout(c: Codec, s: Sim, ops: seq<Op>, order: MarkOrder)
    requires Ready(s) && KnownOps(ops, |s.model.points|)
    decreases |ops|
  {
    ops != [] ==>
      var next := Step(c, s, ops[0], order);
      next.Some? ==> OracleAgrees(c, next.value, Newest(s, ops[0])) && AgreesThroughout(c, next.value, ops[1..], order)
  }

  /** No operation of the run is disturbed, judged where it starts. */
  ghost predicate NeverDisturbed(c: Codec, s: Sim, ops: seq<Op>, order: MarkOrder)
    requires Ready(s) && KnownOps(ops, |s.model.points|)
    decreases |ops|
  {
    ops != [] ==>
      && !Disturbed(c, s, ops[0], order)
      && var next := Step(c, s, ops[0], order);
         next.Some? ==> NeverDisturbed(c, next.value, ops[1..], order)
  }

  /** No root write cut short completes a root that was never meant for its slot. */
  ghost predicate NeverForged(c: Codec, s: Sim, ops: seq<Op>, order: MarkOrder)
    requires Ready(s) && KnownOps(ops, |s.model.points|)
    decreases |ops|
  {
    ops != [] ==>
      && !RootForged(c, s, ops[0])
      && var next := Step(c, s, ops[0], order);
         next.Some? ==> NeverForged(c, next.value, ops[1..], order)
  }

  /** The state after a run, unless the simulator stopped on the way. */
  function RunOps(c: Codec, s: Sim, ops: seq<Op>, order: MarkOrder): (r: Option<Sim>)
    requires Ready(s) && KnownOps(ops, |s.model.points|)
    ensures r.Some? ==> Ready(r.value) && |r.value.model.points| == |s.model.points|
    decreases |ops|
  {
    if ops == [] then Some(s)
    else
      var next := Step(c, s, ops[0], order);
      if next.None? then None else RunOps(c, next.value, ops[1..], order)
  }

  /** One operation of an undisturbed run, with what is left of the run. */
  lemma UndisturbedStep(c: Codec, s: Sim, ops: seq<Op>, order: MarkOrder)
    requires Ready(s) && Inv(c, s) && KnownOps(ops, |s.model.points|) && ops != []
    requires NeverForged(c, s, ops, order) && NeverDisturbed(c, s, ops, order)
    ensures var next := Step(c, s, ops[0], order);
            && (next.None? ==> ops[0].TruncateFile?)
            && (next.Some? ==> Inv(c, next.value) && KnownOps(ops[1..], |next.value.model.points|))
            && (next.Some? ==> NeverForged(c, next.value, ops[1..], order) && NeverDisturbed(c, next.value, ops[1..], order))
  {
    hide Step, Disturbed, RootForged, Inv, OracleAgrees, Newest;
    StepExact(c, s, ops[0], order);
  }

  /** An undisturbed run keeps the invariant. */
  lemma {:induction false} UndisturbedRun(c: Codec, s: Sim, ops: seq<Op>, order: MarkOrder)
    requires Ready(s) && Inv(c, s) && KnownOps(ops, |s.model.points|)
    requires NeverForged(c, s, ops, order) && NeverDisturbed(c, s, ops, order)
    ensures RunOps(c, s, ops, order).Some? ==> Inv(c, RunOps(c, s, ops, order).value)
    decreases |ops|
  {
    hide Step, NeverForged, NeverDisturbed, Inv, KnownSeries;
    if ops != [] {
      UndisturbedStep(c, s, ops, order);
      var next := Step(c, s, ops[0], order);
      if next.Some? {
        UndisturbedRun(c, next.value, ops[1..], order);
      }
    }
  }

  /** The run stops at operation `k`. */
  predicate StopsAt(c: Codec, s: Sim, ops: seq<Op>, order: MarkOrder, k: nat)
    requires Ready(s) && KnownOps(ops, |s.model.points|)
    decreases |ops|
  {
    ops != [] &&
    var next := Step(c, s, ops[0], order);
    if k == 0 then next.None? else next.Some? && StopsAt(c, next.value, ops[1..], order, k - 1)
  }

  /** Where an undisturbed run stops, there is a truncation. */
  lemma {:induction false} StopsOnlyAtTruncation(c: Codec, s: Sim, ops: seq<Op>, order: MarkOrder, k: nat)
    requires Ready(s) && Inv(c, s) && KnownOps(ops, |s.model.points|) && StopsAt(c, s, ops, order, k)
    requires NeverForged(c, s, ops, order) && NeverDisturbed(c, s, ops, order)
    ensures k < |ops| && ops[k].TruncateFile? && RunOps(c, s, ops, order).None?
    decreases |ops|
  {
    hide Step, NeverForged, NeverDisturbed, Inv, KnownSeries;
    UndisturbedStep(c, s, ops, order);
    if k > 0 {
      StopsOnlyAtTruncation(c, Step(c, s, ops[0], order).value, ops[1..], order, k - 1);
    }
  }

  // ---- The reader ----

  /** The reader's root gives, for every series, the first points of the oracle, as many as the reader's counts say. */
  ghost predicate ReaderPrefix(s: Sim) {
    && HasPages(s.reader.root) && CountsFit(s.model.points, s.model.readerCounts)
    && forall i :: 0 <= i < |s.model.points| ==> Content(s.reader.root.manifest.pages, i) == s.model.points[i][..s.model.readerCounts[i]]
  }

  lemma InvReader(c: Codec, s: Sim)
    requires Inv(c, s)
    ensures ReaderPrefix(s)
  {
    hide Carries, WriterAgrees, WriterOk, FewerRoots, Settled, Recorded;
  }

  /** All the operation's engine calls succeed, or it makes none. */
  ghost predicate Uninterrupted(c: Codec, s: Sim, op: Op)
    requires Ready(s) && KnownSeries(op, |s.model.points|)
  {
    match op
    case TruncateFile => TruncatedSize(s.model, |s.store.dirty|).None?
    case Checkpoint(sync, layout) => Exec(c, ForgetFault(s.store), PlanCheckpoint(s.writer, sync, layout).actions).ok
    case Append(series, arrivals, layout) =>
      var batch := Batch(LastTimestamp(s.model.points[series]), arrivals);
      batch == [] ||
      Exec(c, ForgetFault(s.store), Fill(StartDraft(s.writer), layout, series, s.writer.pending[series], batch).0.actions).ok
    case Query => true
    case Reopen(_) => false
    case Refresh => false
  }

  /** The reader keeps its root, its counts and the points they count until a refresh, a reopening or a recovery. */
  lemma ReaderIsolated(c: Codec, s: Sim, op: Op, order: MarkOrder)
    requires Inv(c, s) && KnownSeries(op, |s.model.points|) && Uninterrupted(c, s, op) && Step(c, s, op, order).Some?
    ensures var next := Step(c, s, op, order).value;
            && next.reader == s.reader && next.model.readerCounts == s.model.readerCounts
            && forall i :: 0 <= i < |s.model.points| ==>
                 s.model.readerCounts[i] <= |s.model.points[i]| <= |next.model.points[i]|
                 && next.model.points[i][..s.model.readerCounts[i]] == s.model.points[i][..s.model.readerCounts[i]]
  {
    hide Exec, PlanCheckpoint, Fill, Recover, Batch, Holds, ImagesOk, WriterOk, WriterAgrees, Settled;
    CountsWithin(c, s);
    if op.Append? {
      BatchAccepted(c, s, op.series, op.arrivals);
    }
  }

  /** An interrupted operation recovers: the reader is then at the oracle's current generation. */
  lemma RecoveryMovesReader(c: Codec, s: Sim, op: Op, order: MarkOrder)
    requires Inv(c, s) && KnownSeries(op, |s.model.points|) && Step(c, s, op, order).Some?
    requires !op.Refresh? && !Uninterrupted(c, s, op)
    ensures var next := Step(c, s, op, order).value;
            && next.model.readerCounts == next.model.history[next.model.current].counts
            && Open(c, next.store.dirty) == Some(next.reader.root)
  {
    hide Exec, PlanCheckpoint, Fill, Batch, Holds, ImagesOk, WriterOk, WriterAgrees, Open, Settled;
    if op.Append? {
      BatchAccepted(c, s, op.series, op.arrivals);
    }
  }
}

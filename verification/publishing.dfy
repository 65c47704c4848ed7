/**
 Checkpoints and reopenings: where each ends, whatever its faults. Their theorem is that both images carry
 the roots the oracle names afterwards, with one exception as the simulator is written.
 */
module Publishing {
  import opened Options
  import opened Objects
  import opened Encodings
  import opened Storage
  import opened Engine
  import opened Images
  import opened Appender
  import opened Checkpoints
  import opened Oracle
  import opened Generations
  import opened Simulation
  import opened Agreement
  import opened Scripts

  // ---- What a checkpoint commits ----

  /** Committed content in the shape the history lemmas ask for. */
  lemma GivenIsContent(w: Writer, m: Model, r: Object)
    requires Shape(m) && HasRoot(w) && |w.pending| == |m.points| && WriterAgrees(w, m)
    requires RootDecodes(r) && forall i :: 0 <= i < |m.points| ==> Content(r.manifest.pages, i) == Given(w, i)
    ensures ContentIs(r, m.points, Lengths(m.points))
  {
    hide Content, Given;
  }

  lemma CleanWriterContent(c: Codec, w: Writer, image: seq<Byte>, m: Model)
    requires WriterOk(c, w, image) && !w.dirty && Shape(m) && HasRoot(w) && |w.pending| == |m.points| && WriterAgrees(w, m)
    ensures ContentIs(w.root, m.points, Lengths(m.points))
  {
    forall i | 0 <= i < |m.points|
      ensures Content(w.root.manifest.pages, i) == Given(w, i)
    {
      assert w.root.manifest.pages + [] == w.root.manifest.pages;
    }
    GivenIsContent(w, m, w.root);
  }

  lemma NextRootContent(c: Codec, w: Writer, image: seq<Byte>, m: Model, layout: Layout)
    requires WriterOk(c, w, image) && |image| >= BLOCK_SIZE
    requires Shape(m) && HasRoot(w) && |w.pending| == |m.points| && WriterAgrees(w, m)
    ensures RootDecodes(PublishedRoot(w, layout))
    ensures ContentIs(PublishedRoot(w, layout), m.points, Lengths(m.points))
  {
    var next := PublishedRoot(w, layout);
    NextRootDecodes(c, w, image, layout);
    forall i | 0 <= i < |m.points|
      ensures Content(next.manifest.pages, i) == Given(w, i)
    {
      PublishedContent(c, w, image, layout, i);
    }
    GivenIsContent(w, m, next);
  }

  lemma NextRootDecodes(c: Codec, w: Writer, image: seq<Byte>, layout: Layout)
    requires WriterOk(c, w, image) && |image| >= BLOCK_SIZE
    ensures RootDecodes(PublishedRoot(w, layout))
  {
    ObjectsDraftOk(c, w, image, layout);
  }

  // ---- A checkpoint with nothing to publish ----

  /** It makes at most one sync. */
  lemma CleanCheckpointStore(c: Codec, s: Store, w: Writer, sync: bool, layout: Layout)
    requires HasRoot(w) && !w.dirty
    ensures var o := Exec(c, s, PlanCheckpoint(w, sync, layout).actions);
            && o.store.dirty == s.dirty && o.store.faultsEnabled == s.faultsEnabled
            && (if o.ok then o.store.durable == (if sync then s.dirty else s.durable) &&
                             (!sync ==> o.store == s)
                else o.store.durable == s.durable && o.store.lastFault.Some? &&
                     o.store.priorGenerationBecameDurable == s.priorGenerationBecameDurable)
  {
    ExecLast(c, s, [], SyncFile);
    assert [] + [SyncFile] == [SyncFile];
  }

  lemma HistoryAfterMark(m: Model, r: Object)
    requires HistoryOk(m, r)
    ensures HistoryOk(m.(durable := m.current), r)
  {
    hide StrictlyIncreasing, Recorded, ContentIs;
    assert forall h :: 0 <= h <= m.current ==> m.(durable := m.current).history[h] == m.history[h];
  }

  /** Marking the current generation durable is right whenever the durable image carries its root. */
  lemma ImagesAfterMark(c: Codec, dirty: seq<Byte>, durable: seq<Byte>, m: Model, r: Object)
    requires HistoryOk(m, r) && Carries(c, dirty, r) && m.history[m.current].endSize <= |dirty|
    requires Carries(c, durable, r) && m.history[m.current].endSize <= |durable|
    requires FewerRoots(c, dirty, durable, r.generation)
    ensures ImagesOk(c, dirty, durable, m.(durable := m.current), r)
  {
    HistoryAfterMark(m, r);
    hide HistoryOk, Carries, FewerRoots;
    DurableIsNewest(m.(durable := m.current), r);
  }

  /** A failed sync with nothing to publish: every order of marking is right. */
  lemma CleanMarks(c: Codec, dirty: seq<Byte>, durable: seq<Byte>, m: Model, r: Object, t: Store, order: MarkOrder)
    requires ImagesOk(c, dirty, durable, m, r) && ContentIs(r, m.points, Lengths(m.points))
    requires t.dirty == dirty && (t.priorGenerationBecameDurable ==> dirty == durable)
    ensures ImagesOk(c, dirty, durable, AfterFailedCheckpoint(m, t, order), r)
  {
    CarriedIsLong(c, dirty, r);
    FewerRootsItself(c, dirty, r.generation);
    hide HistoryOk, Carries, FewerRoots, ContentIs, DurableOk;
    match order
    case AfterSnapshot =>
      var m1 := if CrashedAfterPublish(t) then TakeSnapshot(m, |t.dirty|, false) else m;
      if CrashedAfterPublish(t) {
        ImagesAfterRepeat(c, dirty, durable, m, r, false);
      }
      if t.priorGenerationBecameDurable {
        ImagesAfterMark(c, dirty, durable, m1, r);
      }
    case BeforeSnapshot =>
      if t.priorGenerationBecameDurable {
        ImagesAfterMark(c, dirty, durable, m, r);
      }
      if CrashedAfterPublish(t) {
        ImagesAfterRepeat(c, dirty, durable, MarkDurable(m, t.priorGenerationBecameDurable), r, false);
      }
  }

  /** Putting the parts together where a snapshot of the newest root has just been taken. */
  lemma LandsAtSnapshot(c: Codec, n: Sim, r: Object)
    requires Ready(n) && n.store.faultsEnabled && StoreOk(n.store) && n.writer.root == r
    requires ImagesOk(c, n.store.dirty, n.store.durable, n.model, r)
    requires WriterOk(c, n.writer, n.store.dirty) && WriterAgrees(n.writer, n.model)
    requires CountsFit(n.model.points, n.model.readerCounts) && WellFormedRoot(r) && ReaderOk(n)
    ensures Lands(c, Some(n), r)
  {
    hide HistoryOk, Carries, FewerRoots, ContentIs, DurableOk, WriterOk, WriterAgrees, Settled;
    Extents(n.model, r, n.model.current, n.model.current);
    RootAtSelf(r, n.model.history[n.model.current].endSize);
  }

  lemma CleanCheckpointSucceeds(c: Codec, s: Sim, t: Store, sync: bool)
    requires Inv(c, s) && !s.writer.dirty
    requires t.dirty == s.store.dirty && t.durable == (if sync then s.store.dirty else s.store.durable) && t.faultsEnabled
    requires !sync ==> t.priorGenerationBecameDurable == s.store.priorGenerationBecameDurable
    ensures Lands(c, Some(Sim(t, TakeSnapshot(s.model, |t.dirty|, sync), s.writer, s.reader)), s.writer.root)
  {
    CleanWriterContent(c, s.writer, s.store.dirty, s.model);
    hide HistoryOk, Carries, FewerRoots, ContentIs, DurableOk, Settled, WriterOk, Given, Descends, ImagesOk;
    var n := Sim(t, TakeSnapshot(s.model, |t.dirty|, sync), s.writer, s.reader);
    ImagesAfterRepeat(c, s.store.dirty, s.store.durable, s.model, s.writer.root, sync);
    LandsAtSnapshot(c, n, s.writer.root);
  }

  lemma CleanCheckpointLands(c: Codec, s: Sim, sync: bool, layout: Layout, order: MarkOrder)
    requires Inv(c, s) && !s.writer.dirty
    ensures Lands(c, CheckpointStep(c, s, sync, layout, order), s.writer.root)
  {
    var store := ForgetFault(s.store);
    var m, r := s.model, s.writer.root;
    CleanCheckpointStore(c, store, s.writer, sync, layout);
    var o := Exec(c, store, PlanCheckpoint(s.writer, sync, layout).actions);
    if o.ok {
      hide Inv, Lands, Exec;
      CleanCheckpointSucceeds(c, s, o.store, sync);
    } else {
      CleanWriterContent(c, s.writer, s.store.dirty, s.model);
      hide ImagesOk, ContentIs, Lands, Exec, Recover, AfterFailedCheckpoint, Settled, WriterOk, WriterAgrees, ReaderOk, PlanCheckpoint;
      CleanMarks(c, s.store.dirty, s.store.durable, m, r, o.store, order);
      RecoverEither(c, o.store, AfterFailedCheckpoint(m, o.store, order), r, PowerLost(o.store));
    }
  }

  // ---- A checkpoint that fails ----

  lemma UnpublishedImages(c: Codec, s: Store, t: Store, m: Model, r: Object)
    requires ImagesOk(c, s.dirty, s.durable, m, r) && Carries(c, t.dirty, r)
    requires |s.dirty| <= |t.dirty| && FewerRoots(c, t.dirty, s.dirty, r.generation) && t.durable == s.durable
    ensures ImagesOk(c, t.dirty, t.durable, m, r)
  {
    CarriedFits(c, t.dirty, r);
    hide HistoryOk, Carries, FewerRoots;
    FewerRootsTransitive(c, t.dirty, s.dirty, s.durable, r.generation, DurableRoot(m, r).generation);
  }

  /** After a fault that published nothing, marking by the flag is right in either order. */
  lemma UnpublishedMarks(c: Codec, s: Store, t: Store, m: Model, r: Object, order: MarkOrder)
    requires ImagesOk(c, s.dirty, s.durable, m, r) && Unpublished(c, s, t, r)
    requires s.priorGenerationBecameDurable ==> s.dirty == s.durable
    ensures ImagesOk(c, t.dirty, t.durable, AfterFailedCheckpoint(m, t, order), r)
  {
    hide HistoryOk, Carries, FewerRoots;
    if t.priorGenerationBecameDurable {
      if t.durable == s.durable && s.priorGenerationBecameDurable {
        ImagesAfterMark(c, t.dirty, t.durable, m, r);
      } else {
        ImagesAfterMark(c, t.dirty, t.durable, m, r);
      }
    } else {
      UnpublishedImages(c, s, t, m, r);
    }
  }

  /** Power loss in the sync after the root: the synced generation is the one marked durable. */
  lemma UnsyncedPowerLoss(c: Codec, s: Store, t: Store, m: Model, r: Object, next: Object, order: MarkOrder)
    requires ImagesOk(c, s.dirty, s.durable, m, r) && PublishedUnsynced(c, s, t, r, next) && PowerLost(t)
    ensures var after := AfterFailedCheckpoint(m, t, order);
            after == m.(durable := m.current) && HistoryOk(after, r) && DurableOk(c, t.durable, after, r)
  {
    HistoryAfterMark(m, r);
    hide HistoryOk, Carries, FewerRoots;
    DurableIsNewest(m.(durable := m.current), r);
  }

  /** A process crash there, with the mark applied to the prior generation. */
  lemma UnsyncedProcessCrash(c: Codec, s: Store, t: Store, m: Model, r: Object, next: Object)
    requires ImagesOk(c, s.dirty, s.durable, m, r) && PublishedUnsynced(c, s, t, r, next) && !PowerLost(t)
    requires next.previous == Some(r) && RootDecodes(next) && ContentIs(next, m.points, Lengths(m.points))
    ensures ImagesOk(c, t.dirty, t.durable, AfterFailedCheckpoint(m, t, BeforeSnapshot), next)
  {
    HistoryAfterMark(m, r);
    CarriedFits(c, t.dirty, next);
    CarriedWellFormed(c, t.dirty, next);
    hide HistoryOk, Carries, FewerRoots, ContentIs;
    DurableIsNewest(m.(durable := m.current), r);
    ImagesAfterPublish(c, s.dirty, t.durable, MarkDurable(m, true), r, next, t.dirty, false);
  }

  lemma CarriedWellFormed(c: Codec, image: seq<Byte>, r: Object)
    requires Carries(c, image, r)
    ensures WellFormedRoot(r)
  {
  }

  /** The same crash as the simulator is written, over a slot that already showed the new root. */
  lemma UnsyncedOverSame(c: Codec, s: Store, t: Store, m: Model, r: Object, next: Object)
    requires ImagesOk(c, s.dirty, s.durable, m, r) && PublishedUnsynced(c, s, t, r, next) && !PowerLost(t)
    requires next.previous == Some(r) && RootDecodes(next) && ContentIs(next, m.points, Lengths(m.points))
    requires |s.dirty| >= BLOCK_SIZE && DecodeSlot(c, s.dirty, SlotOf(next.generation)) == Some(next)
    ensures ImagesOk(c, t.dirty, t.durable, AfterFailedCheckpoint(m, t, AfterSnapshot), next)
  {
    CarriedFits(c, t.dirty, next);
    CarriedWellFormed(c, t.dirty, next);
    FewerRootsAfterExtension(c, s.dirty, t.durable, 0);
    CarriesWhatStands(c, t.durable, r, next);
    hide HistoryOk, Carries, FewerRoots, ContentIs, Succeeds;
    ImagesAfterPublish(c, s.dirty, t.durable, m, r, next, t.dirty, true);
  }

  /** The same crash as written, otherwise: the durable mark names a root the durable image does not show. */
  lemma UnsyncedAsWritten(c: Codec, s: Store, t: Store, m: Model, r: Object, next: Object)
    requires PublishedUnsynced(c, s, t, r, next) && |s.dirty| >= BLOCK_SIZE && next.Root? && next.generation >= 1
    requires DecodeSlot(c, s.dirty, SlotOf(next.generation)) != Some(next)
    ensures Open(c, t.durable) != Some(next)
  {
    CarriedStands(c, t.durable, r);
    FewerRootsAfterExtension(c, s.dirty, t.durable, 0);
    hide Carries, DecodeSlot, Succeeds, Open, SlotsOwn;
    if Open(c, t.durable) == Some(next) {
      OpenedDecodes(c, t.durable, next);
    }
  }

  lemma OpenedDecodes(c: Codec, image: seq<Byte>, x: Object)
    requires |image| >= BLOCK_SIZE && SlotsOwn(c, image) && Open(c, image) == Some(x)
    ensures x.Root? && x.generation >= 1 && DecodeSlot(c, image, SlotOf(x.generation)) == Some(x)
  {
    hide DecodeSlot, Open, SlotsOwn;
    var k :| 0 <= k < SLOT_COUNT && Candidate(c, image, k) == Some(x);
    CandidateOwn(c, image, k);
  }

  // ---- A checkpoint that publishes ----

  lemma PublishedImages(c: Codec, s: Sim, t: Store, sync: bool, next: Object)
    requires ImagesOk(c, s.store.dirty, s.store.durable, s.model, s.writer.root)
    requires Published(c, s.store, t, s.writer.root, next, sync)
    requires next.previous == Some(s.writer.root) && RootDecodes(next) && ContentIs(next, s.model.points, Lengths(s.model.points))
    ensures ImagesOk(c, t.dirty, t.durable, TakeSnapshot(s.model, |t.dirty|, sync), next)
  {
    var m, r := s.model, s.writer.root;
    CarriedFits(c, s.store.dirty, r);
    CarriedWellFormed(c, t.dirty, next);
    hide HistoryOk, Carries, FewerRoots, ContentIs;
    if !sync {
      FewerRootsTransitive(c, t.dirty, s.store.dirty, s.store.durable, r.generation, DurableRoot(m, r).generation);
    }
    ImagesAfterPublish(c, s.store.dirty, s.store.durable, m, r, next, t.dirty, sync);
  }

  lemma PublishedReader(s: Sim, next: Object, n: Sim)
    requires WellFormedRoot(s.writer.root) && CountsFit(s.model.points, s.model.readerCounts) && ReaderOk(s)
    requires WellFormedRoot(next) && next.previous == Some(s.writer.root) && n.writer.root == next
    requires n.model.points == s.model.points && n.model.readerCounts == s.model.readerCounts && n.reader == s.reader
    ensures ReaderOk(n)
  {
    PredecessorOf(next);
    DescendsShift(next, s.reader.root);
  }

  /** A writer with nothing pending gives exactly its root's points. */
  lemma FreshWriterGives(w: Writer, points: seq<seq<Point>>)
    requires HasRoot(w) && RootDecodes(w.root) && w.flushed == [] && |w.pending| == |points|
    requires forall i :: 0 <= i < |w.pending| ==> w.pending[i] == []
    requires ContentIs(w.root, points, Lengths(points))
    ensures forall i :: 0 <= i < |points| ==> Given(w, i) == points[i]
  {
    forall i | 0 <= i < |points|
      ensures Given(w, i) == points[i]
    {
      assert w.root.manifest.pages + w.flushed == w.root.manifest.pages;
      assert Content(w.root.manifest.pages, i) == points[i][..Lengths(points)[i]];
    }
  }

  lemma PublishedWriter(c: Codec, w: Writer, t: Store, layout: Layout, sync: bool, m: Model)
    requires HasRoot(w) && w.dirty && Shape(m) && |w.pending| == |m.points|
    requires Carries(c, t.dirty, PublishedRoot(w, layout)) && PublishedRoot(w, layout).committed == |t.dirty|
    requires RootDecodes(PublishedRoot(w, layout)) && ContentIs(PublishedRoot(w, layout), m.points, Lengths(m.points))
    ensures var after := PlanCheckpoint(w, sync, layout).writer;
            && HasRoot(after) && after.root == PublishedRoot(w, layout) && !after.dirty
            && |after.pending| == |m.points| && (forall i :: 0 <= i < |after.pending| ==> after.pending[i] == [])
            && WriterOk(c, after, t.dirty) && WriterAgrees(after, m)
  {
    hide ContentIs, Content, PlanCheckpoint, PublishedRoot, Carries, Given, WellFormedRoot, WriterOk, WriterAgrees, RootDecodes, Shape;
    var after := PlanCheckpoint(w, sync, layout).writer;
    PlannedWriter(w, sync, layout);
    CarriedHasPages(c, t.dirty, after.root);
    FreshWriterOk(c, after, t.dirty);
    FreshWriterGives(after, m.points);
    FreshWriterAgrees(after, m);
  }

  lemma CarriedHasPages(c: Codec, image: seq<Byte>, r: Object)
    requires Carries(c, image, r)
    ensures HasPages(r)
  {
    CarriedWellFormed(c, image, r);
  }

  lemma FreshWriterOk(c: Codec, w: Writer, image: seq<Byte>)
    requires Carries(c, image, w.root) && w.root.Root? && w.root.committed == |image| == w.writeOffset
    requires w.flushed == [] && forall i :: 0 <= i < |w.pending| ==> w.pending[i] == []
    ensures WriterOk(c, w, image)
  {
    hide Carries, WellFormedRoot;
    CarriedWellFormed(c, image, w.root);
  }

  lemma FreshWriterAgrees(w: Writer, m: Model)
    requires Shape(m) && HasRoot(w) && |w.pending| == |m.points| && !w.dirty
    requires forall i :: 0 <= i < |w.pending| ==> Given(w, i) == m.points[i]
    ensures WriterAgrees(w, m)
  {
    hide Given, Shape;
  }

  lemma PlannedWriter(w: Writer, sync: bool, layout: Layout)
    requires HasRoot(w) && w.dirty
    ensures var next := PublishedRoot(w, layout);
            PlanCheckpoint(w, sync, layout).writer == Writer(next, next.committed, seq(|w.pending|, _ => []), [], false)
  {
  }

  /** A checkpoint whose calls all finish. */
  lemma PublishedLands(c: Codec, s: Sim, t: Store, sync: bool, layout: Layout)
    requires Inv(c, s) && s.writer.dirty && t.faultsEnabled
    requires Published(c, s.store, t, s.writer.root, PublishedRoot(s.writer, layout), sync)
    ensures var plan := PlanCheckpoint(s.writer, sync, layout);
            Lands(c, Some(Sim(t, TakeSnapshot(s.model, |t.dirty|, sync), plan.writer, s.reader)), PublishedRoot(s.writer, layout))
  {
    var next := PublishedRoot(s.writer, layout);
    var m := TakeSnapshot(s.model, |t.dirty|, sync);
    var w := PlanCheckpoint(s.writer, sync, layout).writer;
    CarriedIsLong(c, s.store.dirty, s.writer.root);
    CarriedWellFormed(c, t.dirty, next);
    hide HistoryOk, Carries, FewerRoots, ContentIs, DurableOk, WriterOk, WriterAgrees, ReaderOk, Settled, PublishedRoot, ImagesOk,
         PlanCheckpoint, Descends;
    NextRootContent(c, s.writer, s.store.dirty, s.model, layout);
    PublishedFollows(s.writer, layout);
    PublishedWriter(c, s.writer, t, layout, sync, m);
    PublishedImages(c, s, t, sync, next);
    PublishedReader(s, next, Sim(t, m, w, s.reader));
    LandsAtSnapshot(c, Sim(t, m, w, s.reader), next);
  }

  lemma PublishedFollows(w: Writer, layout: Layout)
    requires HasRoot(w)
    ensures PublishedRoot(w, layout).previous == Some(w.root)
  {
  }

  // ---- Every outcome of a checkpoint ----

  /** The sync after the root fails exactly on a drawn crash, and as that crash says. */
  lemma FinalDraw(c: Codec, s: Sim, layout: Layout)
    requires HasRoot(s.writer) && s.writer.dirty && s.store.faultsEnabled
    requires Exec(c, ForgetFault(s.store), ThroughRoot(s.writer, true, layout)).ok
    ensures var draw := NthDraw(s.store.script, |ThroughRoot(s.writer, true, layout)|);
            var o := Exec(c, ForgetFault(s.store), PlanCheckpoint(s.writer, true, layout).actions);
            && (o.ok <==> !draw.Crash?)
            && (!o.ok ==> (PowerLost(o.store) <==> draw.power))
  {
    var through := ThroughRoot(s.writer, true, layout);
    PlanIsPhases(s.writer, true, layout);
    hide ThroughRoot, PlanCheckpoint, Exec;
    NextDrawn(c, ForgetFault(s.store), through);
    ExecLast(c, ForgetFault(s.store), through, SyncFile);
  }

  /** All that is known of a checkpoint of a dirty writer, told from the script. */
  lemma ScriptedOutcome(c: Codec, s: Sim, op: Op, store: Store)
    requires Inv(c, s) && MayPublish(s, op) && |s.store.dirty| >= BLOCK_SIZE && !RootForged(c, s, op)
    requires store == s.store || store == ForgetFault(s.store)
    ensures var plan := PlanCheckpoint(s.writer, Durably(op), op.layout);
            var o := Exec(c, store, plan.actions);
            && plan.writer.root == PublishedRoot(s.writer, op.layout)
            && CheckpointEffect(c, store, o, s.writer.root, plan.writer.root, Durably(op), Publishes(s, op))
            && (RootCompleted(c, s, op) ==> !o.ok && !PowerLost(o.store) && !Publishes(s, op) &&
                                            Overtaken(c, o.store.dirty, s.writer.root.generation))
  {
    hide Carries, WriterAgrees, ReaderOk, HistoryOk, DurableOk, FewerRoots, Settled, WriterOk, Overtaken, Exec, PlanCheckpoint,
         ForgesRoot, CompletesRoot, RootForged, RootCompleted, Publishes, CheckpointEffect, PublishedRoot;
    PlanIsPhases(s.writer, Durably(op), op.layout);
    RootIsScripted(c, s, op, store);
    CheckpointOutcome(c, store, s.writer, Durably(op), op.layout);
    CompletedIsShort(c, s, op);
  }

  lemma CompletedIsShort(c: Codec, s: Sim, op: Op)
    requires HasRoot(s.writer) && |s.store.dirty| >= BLOCK_SIZE
    ensures RootCompleted(c, s, op) ==> !Publishes(s, op)
  {
  }

  /** A checkpoint whose calls do not all finish, but for the one crash as written. */
  lemma FailedCheckpointLands(c: Codec, s: Sim, op: Op, order: MarkOrder)
    requires op.Checkpoint? && Inv(c, s) && s.writer.dirty && |s.store.dirty| >= BLOCK_SIZE && !RootForged(c, s, op)
    requires order == AfterSnapshot && PostRootProcessCrash(s, op) ==> NextStood(c, s, op)
    requires !Exec(c, ForgetFault(s.store), PlanCheckpoint(s.writer, op.sync, op.layout).actions).ok
    ensures Lands(c, CheckpointStep(c, s, op.sync, op.layout, order), Newest(s, op))
  {
    var store := ForgetFault(s.store);
    var next := PublishedRoot(s.writer, op.layout);
    var t := Exec(c, store, PlanCheckpoint(s.writer, op.sync, op.layout).actions).store;
    var m, r := s.model, s.writer.root;
    var after := AfterFailedCheckpoint(m, t, order);
    ScriptedOutcome(c, s, op, store);
    hide Carries, HistoryOk, DurableOk, FewerRoots, Settled, WriterOk, WriterAgrees, ReaderOk, Exec, PlanCheckpoint, Publishes,
         RootForged, NextStood, Recover, Lands, PublishedRoot, AfterFailedCheckpoint, ImagesOk, Unpublished, PublishedUnsynced;
    if !Publishes(s, op) {
      UnpublishedMarks(c, store, t, m, r, order);
      RecoverEither(c, t, after, r, PowerLost(t));
    } else {
      PublishedFollows(s.writer, op.layout);
      if PowerLost(t) {
        PowerLossLands(c, s, store, t, next, order);
      } else {
        RootWasWritten(c, s, op);
        FinalDraw(c, s, op.layout);
        UnsyncedMarks(c, s, op, store, t, order);
        RecoverEither(c, t, after, next, false);
      }
    }
  }

  lemma RootWasWritten(c: Codec, s: Sim, op: Op)
    requires Inv(c, s) && op.Checkpoint? && op.sync && |s.store.dirty| >= BLOCK_SIZE && Publishes(s, op)
    ensures Exec(c, ForgetFault(s.store), ThroughRoot(s.writer, true, op.layout)).ok
  {
    hide Carries, HistoryOk, DurableOk, FewerRoots, Settled, WriterOk, WriterAgrees, ReaderOk, Exec, Publishes, ThroughRoot,
         ForgesRoot, CompletesRoot, RootForged, RootCompleted, ReachesRoot, RootDraw;
    assert MayPublish(s, op) by { PublishesMay(s, op); }
    RootIsScripted(c, s, op, ForgetFault(s.store));
  }

  lemma PublishesMay(s: Sim, op: Op)
    requires HasRoot(s.writer) && Publishes(s, op)
    ensures MayPublish(s, op)
  {
  }

  /** A process crash after the root, where the marks come out right. */
  lemma UnsyncedMarks(c: Codec, s: Sim, op: Op, store: Store, t: Store, order: MarkOrder)
    requires Inv(c, s) && MayPublish(s, op) && |s.store.dirty| >= BLOCK_SIZE && store == ForgetFault(s.store)
    requires order == AfterSnapshot ==> NextStood(c, s, op)
    requires PublishedUnsynced(c, store, t, s.writer.root, PublishedRoot(s.writer, op.layout)) && !PowerLost(t)
    ensures ImagesOk(c, t.dirty, t.durable, AfterFailedCheckpoint(s.model, t, order), PublishedRoot(s.writer, op.layout))
  {
    hide Carries, HistoryOk, DurableOk, FewerRoots, Settled, ReaderOk, WriterOk, WriterAgrees, PublishedRoot, AfterFailedCheckpoint,
         ImagesOk, PublishedUnsynced, ContentIs;
    PublishedFollows(s.writer, op.layout);
    NextRootContent(c, s.writer, s.store.dirty, s.model, op.layout);
    match order
    case BeforeSnapshot =>
      UnsyncedProcessCrash(c, store, t, s.model, s.writer.root, PublishedRoot(s.writer, op.layout));
    case AfterSnapshot =>
      UnsyncedOverSame(c, store, t, s.model, s.writer.root, PublishedRoot(s.writer, op.layout));
  }

  lemma PowerLossLands(c: Codec, s: Sim, store: Store, t: Store, next: Object, order: MarkOrder)
    requires Inv(c, s) && store == ForgetFault(s.store) && t.faultsEnabled
    requires PublishedUnsynced(c, store, t, s.writer.root, next) && PowerLost(t)
    requires next.Root? && next.previous == Some(s.writer.root)
    ensures Lands(c, Recover(c, t, AfterFailedCheckpoint(s.model, t, order), true), next)
  {
    var m, r := s.model, s.writer.root;
    CarriedWellFormed(c, t.dirty, next);
    hide Carries, HistoryOk, DurableOk, FewerRoots, Settled, ReaderOk, WriterOk, WriterAgrees, Recover, Lands;
    UnsyncedPowerLoss(c, store, t, m, r, next, order);
    var after := AfterFailedCheckpoint(m, t, order);
    hide AfterFailedCheckpoint;
    RecoverAfterPowerLoss(c, t, after, r);
    var n := Recover(c, t, after, true);
    LandsAtDurable(c, n, after, r);
    Extents(m, r, m.current, m.current);
    LandsBelow(c, n, r, next);
  }

  lemma CheckpointLands(c: Codec, s: Sim, op: Op, order: MarkOrder)
    requires op.Checkpoint? && Inv(c, s) && |s.store.dirty| >= BLOCK_SIZE && !RootForged(c, s, op)
    requires order == AfterSnapshot && PostRootProcessCrash(s, op) ==> NextStood(c, s, op)
    ensures Lands(c, CheckpointStep(c, s, op.sync, op.layout, order), Newest(s, op))
  {
    if !s.writer.dirty {
      CleanCheckpointLands(c, s, op.sync, op.layout, order);
    } else if Exec(c, ForgetFault(s.store), PlanCheckpoint(s.writer, op.sync, op.layout).actions).ok {
      ScriptedOutcome(c, s, op, ForgetFault(s.store));
      hide Inv, Lands, Exec, PlanCheckpoint, PublishedRoot, Publishes, RootForged, NextStood, CarriesNext;
      PublishedLands(c, s, Exec(c, ForgetFault(s.store), PlanCheckpoint(s.writer, op.sync, op.layout).actions).store,
                     op.sync, op.layout);
    } else {
      FailedCheckpointLands(c, s, op, order);
    }
  }

  // ---- Reopening ----

  lemma SnapshotCommits(m: Model, r: Object, endSize: nat)
    requires HistoryOk(m, r)
    ensures Committed(TakeSnapshot(m, endSize, false))
  {
  }

  lemma CleanReopenLands(c: Codec, s: Sim, layout: Layout)
    requires Inv(c, s) && !s.writer.dirty
    ensures Lands(c, ReopenStep(c, s, layout), s.writer.root)
  {
    CleanCheckpointStore(c, s.store, s.writer, false, layout);
    CleanWriterContent(c, s.writer, s.store.dirty, s.model);
    hide Carries, HistoryOk, DurableOk, FewerRoots, Settled, ReaderOk, WriterOk, WriterAgrees, ContentIs, Exec, PlanCheckpoint, Lands,
         Reopened;
    SnapshotCommits(s.model, s.writer.root, |s.store.dirty|);
    ImagesAfterRepeat(c, s.store.dirty, s.store.durable, s.model, s.writer.root, false);
    ReopenedLands(c, s.store, TakeSnapshot(s.model, |s.store.dirty|, false), s.writer.root);
  }

  lemma DirtyReopenLands(c: Codec, s: Sim, op: Op)
    requires op.Reopen? && Inv(c, s) && s.writer.dirty && |s.store.dirty| >= BLOCK_SIZE && !RootForged(c, s, op)
    ensures Lands(c, ReopenStep(c, s, op.layout), Newest(s, op))
  {
    var next := PublishedRoot(s.writer, op.layout);
    var t := Exec(c, s.store, PlanCheckpoint(s.writer, false, op.layout).actions).store;
    ScriptedOutcome(c, s, op, s.store);
    hide Carries, HistoryOk, DurableOk, FewerRoots, Settled, ReaderOk, WriterOk, WriterAgrees, ContentIs, Exec, PlanCheckpoint, Lands,
         Reopened, Recover, Publishes, RootForged, PublishedRoot;
    if Exec(c, s.store, PlanCheckpoint(s.writer, false, op.layout).actions).ok {
      NextRootContent(c, s.writer, s.store.dirty, s.model, op.layout);
      PublishedFollows(s.writer, op.layout);
      PublishedImages(c, s, t, false, next);
      SnapshotCommits(s.model, s.writer.root, |t.dirty|);
      ReopenedLands(c, t, TakeSnapshot(s.model, |t.dirty|, false), next);
    } else {
      UnpublishedImages(c, s.store, t, s.model, s.writer.root);
      RecoverEither(c, t, s.model, s.writer.root, PowerLost(t));
    }
  }

  lemma ReopenLands(c: Codec, s: Sim, op: Op)
    requires op.Reopen? && Inv(c, s) && |s.store.dirty| >= BLOCK_SIZE && !RootForged(c, s, op)
    ensures Lands(c, ReopenStep(c, s, op.layout), Newest(s, op))
  {
    if s.writer.dirty {
      DirtyReopenLands(c, s, op);
    } else {
      CleanReopenLands(c, s, op.layout);
    }
  }

  // ---- The disturbances ----

  lemma LowerOvertaken(c: Codec, image: seq<Byte>, high: nat, low: nat)
    requires |image| >= BLOCK_SIZE && Overtaken(c, image, high) && low <= high
    ensures Overtaken(c, image, low)
  {
    hide Standing;
  }

  lemma RecoverKeepsImage(c: Codec, store: Store, m: Model)
    requires Shape(m) && Recover(c, store, m, false).Some?
    ensures Recover(c, store, m, false).value.store.dirty == store.dirty
  {
    hide Open, Fit, Restore;
  }

  lemma CompletedCheckpointStands(c: Codec, s: Sim, op: Op, order: MarkOrder)
    requires op.Checkpoint? && Inv(c, s) && |s.store.dirty| >= BLOCK_SIZE && !RootForged(c, s, op) && RootCompleted(c, s, op)
    ensures var n := CheckpointStep(c, s, op.sync, op.layout, order);
            n.Some? && |n.value.store.dirty| >= BLOCK_SIZE && Overtaken(c, n.value.store.dirty, s.writer.root.generation)
  {
    CompletedMay(c, s, op);
    var store := ForgetFault(s.store);
    ScriptedOutcome(c, s, op, store);
    hide Carries, HistoryOk, DurableOk, FewerRoots, Settled, ReaderOk, WriterOk, WriterAgrees, Exec, PlanCheckpoint, ImagesOk,
         Recover, Publishes, RootForged, PublishedRoot, RootCompleted, Overtaken, AfterFailedCheckpoint, CheckpointEffect, RootDraw;
    var t := Exec(c, store, PlanCheckpoint(s.writer, op.sync, op.layout).actions).store;
    FailedCheckpointLands(c, s, op, order);
    RecoverKeepsImage(c, t, AfterFailedCheckpoint(s.model, t, order));
  }

  lemma CompletedReopenStands(c: Codec, s: Sim, op: Op)
    requires op.Reopen? && Inv(c, s) && |s.store.dirty| >= BLOCK_SIZE && !RootForged(c, s, op) && RootCompleted(c, s, op)
    ensures var n := ReopenStep(c, s, op.layout);
            n.Some? && |n.value.store.dirty| >= BLOCK_SIZE && Overtaken(c, n.value.store.dirty, s.writer.root.generation)
  {
    CompletedMay(c, s, op);
    ScriptedOutcome(c, s, op, s.store);
    hide Carries, HistoryOk, DurableOk, FewerRoots, Settled, ReaderOk, WriterOk, WriterAgrees, Exec, PlanCheckpoint, ImagesOk,
         Recover, Publishes, RootForged, PublishedRoot, RootCompleted, Overtaken, CheckpointEffect, RootDraw;
    var t := Exec(c, s.store, PlanCheckpoint(s.writer, false, op.layout).actions).store;
    ReopenLands(c, s, op);
    RecoverKeepsImage(c, t, s.model);
  }

  /** A completed root stands in the image the simulator goes on with, newer than any root the oracle knows. */
  lemma CompletedRootStands(c: Codec, s: Sim, op: Op, order: MarkOrder)
    requires Inv(c, s) && |s.store.dirty| >= BLOCK_SIZE && !RootForged(c, s, op) && RootCompleted(c, s, op)
    requires KnownSeries(op, |s.model.points|)
    ensures var n := Step(c, s, op, order);
            && Newest(s, op) == s.writer.root
            && n.Some? && |n.value.store.dirty| >= BLOCK_SIZE
            && Overtaken(c, n.value.store.dirty, s.writer.root.generation)
  {
    CompletedMay(c, s, op);
    CompletedIsShort(c, s, op);
    hide CheckpointStep, ReopenStep, Inv, Overtaken, RootCompleted, RootForged, Publishes;
    if op.Checkpoint? {
      CompletedCheckpointStands(c, s, op, order);
    } else {
      CompletedReopenStands(c, s, op);
    }
  }

  lemma CompletedMay(c: Codec, s: Sim, op: Op)
    requires HasRoot(s.writer) && |s.store.dirty| >= BLOCK_SIZE && RootCompleted(c, s, op)
    ensures MayPublish(s, op)
  {
  }
}

/**
 The oracle agrees with the bytes. After every operation both images carry the roots the oracle names;
 the images open to those roots exactly when none of the listed disturbances happens.
 */
module Agreement {
  import opened Options
  import opened Objects
  import opened Encodings
  import opened Storage
  import opened Engine
  import opened Images
  import opened Appender
  import opened Checkpoints
  import opened Oracle
  import opened Generations
  import opened Simulation

  /**
   Opening the image gives the root of a generation: the newest of the chain whose extent fits the one
   recorded. Its pages stand whole and hold, for every series, exactly the points committed with it.
   */
  ghost predicate Opens(c: Codec, image: seq<Byte>, m: Model, newest: Object, generation: nat) {
    && WellFormedRoot(newest) && generation < |m.history| && CountsFit(m.points, m.history[generation].counts)
    && var a := RootAt(newest, m.history[generation].endSize);
       && Open(c, image) == Some(a) && GraphIntact(c, image, a)
       && ContentIs(a, m.points, m.history[generation].counts)
  }

  /** The volatile image opens to the current generation and the durable one to the durable generation. */
  ghost predicate OracleAgrees(c: Codec, s: Sim, newest: Object) {
    && Opens(c, s.store.dirty, s.model, newest, s.model.current)
    && Opens(c, s.store.durable, s.model, newest, s.model.durable)
  }

  /** The reader's snapshot is the counted prefix of each series. */
  ghost predicate ReaderOk(s: Sim)
    requires WellFormedRoot(s.writer.root) && CountsFit(s.model.points, s.model.readerCounts)
  {
    Descends(s.writer.root, s.reader.root) && ContentIs(s.reader.root, s.model.points, s.model.readerCounts)
  }

  ghost predicate StoreOk(store: Store) { store.priorGenerationBecameDurable ==> store.dirty == store.durable }

  /** The writer holds exactly the oracle's points, and is dirty only when some are uncommitted. */
  ghost predicate WriterAgrees(w: Writer, m: Model)
    requires Shape(m) && HasRoot(w) && |w.pending| == |m.points|
  {
    && (forall i :: 0 <= i < |m.points| ==> Given(w, i) == m.points[i])
    && (w.dirty ==> exists i :: 0 <= i < |m.points| && m.history[m.current].counts[i] < |m.points[i]|)
  }

  ghost predicate Inv(c: Codec, s: Sim) {
    && Ready(s) && s.store.faultsEnabled
    && StoreOk(s.store)
    && ImagesOk(c, s.store.dirty, s.store.durable, s.model, s.writer.root)
    && Settled(c, s.store.dirty, s.store.durable, s.model, s.writer.root)
    && WriterOk(c, s.writer, s.store.dirty)
    && WriterAgrees(s.writer, s.model)
    && ReaderOk(s)
  }

  // ---- Agreement is the absence of newer standing roots ----

  lemma GraphOfChain(c: Codec, image: seq<Byte>, r: Object)
    requires Carries(c, image, r)
    ensures RootDecodes(r) && GraphIntact(c, image, r)
  {
  }

  lemma OpensExactly(c: Codec, image: seq<Byte>, m: Model, newest: Object, r: Object, generation: nat)
    requires HistoryOk(m, r) && WellFormedRoot(newest) && generation <= m.current
    requires RootAt(newest, m.history[generation].endSize) == RootAt(r, m.history[generation].endSize)
    requires Carries(c, image, RootAt(r, m.history[generation].endSize)) && |image| >= BLOCK_SIZE
    ensures Opens(c, image, m, newest, generation) <==>
            !Overtaken(c, image, RootAt(r, m.history[generation].endSize).generation)
  {
    hide Carries, Overtaken, Open, GraphIntact, Content, StrictlyIncreasing;
    var a := RootAt(r, m.history[generation].endSize);
    OpenSelects(c, image, a);
    GraphOfChain(c, image, a);
  }

  /** When both images carry the roots the oracle names, they open to them exactly when nothing newer stands. */
  lemma AgreesExactly(c: Codec, s: Sim, newest: Object)
    requires WellFormedRoot(newest) && Shape(s.model)
    requires var top := RootAt(newest, s.model.history[s.model.current].endSize);
             ImagesOk(c, s.store.dirty, s.store.durable, s.model, top)
    ensures var top := RootAt(newest, s.model.history[s.model.current].endSize);
            OracleAgrees(c, s, newest) <==> Settled(c, s.store.dirty, s.store.durable, s.model, top)
  {
    var m := s.model;
    var top := RootAt(newest, m.history[m.current].endSize);
    hide Carries, Overtaken, Opens, FewerRoots, HistoryOk, RootAt;
    Extents(m, top, m.durable, m.current);
    CarriedIsLong(c, s.store.dirty, top);
    CarriedIsLong(c, s.store.durable, DurableRoot(m, top));
    RootAtCompose(newest, m.history[m.current].endSize, m.history[m.durable].endSize);
    RootAtCompose(newest, m.history[m.current].endSize, m.history[m.current].endSize);
    OpensExactly(c, s.store.dirty, m, newest, top, m.current);
    OpensExactly(c, s.store.durable, m, newest, top, m.durable);
  }

  lemma InvAgrees(c: Codec, s: Sim)
    requires Inv(c, s)
    ensures OracleAgrees(c, s, s.writer.root)
  {
    hide Carries, Overtaken, OracleAgrees, FewerRoots, ContentIs, WriterOk, WriterAgrees, ReaderOk;
    RootAtSelf(s.writer.root, s.model.history[s.model.current].endSize);
    AgreesExactly(c, s, s.writer.root);
  }

  /**
   Where an operation that does not stop the simulator ends: both images carry what the oracle names, and if
   nothing newer stands in them, the invariant holds.
   */
  ghost predicate Lands(c: Codec, n: Option<Sim>, newest: Object) {
    && n.Some? && WellFormedRoot(newest) && Shape(n.value.model)
    && var s := n.value;
       var top := RootAt(newest, s.model.history[s.model.current].endSize);
       && ImagesOk(c, s.store.dirty, s.store.durable, s.model, top)
       && (Settled(c, s.store.dirty, s.store.durable, s.model, top) ==> Inv(c, s))
  }

  /** One newer root in the chain changes nothing about the generations before it. */
  lemma LandsBelow(c: Codec, n: Option<Sim>, r: Object, next: Object)
    requires Lands(c, n, r) && WellFormedRoot(next) && next.previous == Some(r)
    requires n.value.model.history[n.value.model.current].endSize < next.committed
    ensures Lands(c, n, next)
  {
    hide ImagesOk, Settled, Inv;
  }

  // ---- Reopening ----

  lemma SyncReaderKeeps(c: Codec, dirty: seq<Byte>, durable: seq<Byte>, m: Model, r: Object)
    requires ImagesOk(c, dirty, durable, m, r)
    ensures ImagesOk(c, dirty, durable, SyncReader(m), r)
    ensures Settled(c, dirty, durable, SyncReader(m), r) <==> Settled(c, dirty, durable, m, r)
  {
    hide Carries, Overtaken, FewerRoots, ContentIs, StrictlyIncreasing;
    assert forall h :: 0 <= h <= m.current ==> SyncReader(m).history[h] == m.history[h];
  }

  ghost predicate Committed(m: Model) {
    Shape(m) && forall i :: 0 <= i < |m.points| ==> m.history[m.current].counts[i] == |m.points[i]|
  }

  /** A writer opened at `r` over committed points has been given exactly those. */
  lemma ReopenedWriter(m: Model, r: Object, size: nat)
    requires HistoryOk(m, r) && Committed(m)
    ensures var w := OpenWriter(r, size, |m.points|);
            HasRoot(w) && WriterAgrees(w, SyncReader(m))
  {
    hide StrictlyIncreasing, Recorded;
    RootAtSelf(r, m.history[m.current].endSize);
    var w := OpenWriter(r, size, |m.points|);
    forall i | 0 <= i < |m.points|
      ensures Given(w, i) == m.points[i]
    {
      assert r.manifest.pages + w.flushed == r.manifest.pages;
      assert Content(r.manifest.pages, i) == m.points[i][..m.history[m.current].counts[i]];
    }
  }

  lemma ReopenedReader(m: Model, r: Object)
    requires HistoryOk(m, r)
    ensures CountsFit(m.points, SyncReader(m).readerCounts)
    ensures Descends(r, r) && ContentIs(r, m.points, SyncReader(m).readerCounts)
  {
    hide StrictlyIncreasing, Recorded;
    RootAtSelf(r, m.history[m.current].endSize);
  }

  /** What reopening keeps of the store and the oracle, whichever root it finds. */
  lemma ReopenedShape(c: Codec, store: Store, m: Model)
    requires Shape(m)
    ensures var n := Reopened(c, store, m);
            && (n.Some? <==> Open(c, store.dirty).Some?)
            && (n.Some? ==> n.value == Sim(store, SyncReader(m),
                                           OpenWriter(Open(c, store.dirty).value, |store.dirty|, |m.points|),
                                           Reader(Open(c, store.dirty).value, |store.dirty|)))
  {
    hide Open;
  }

  lemma OpenedWriterOk(c: Codec, image: seq<Byte>, r: Object, count: nat)
    requires Carries(c, image, r)
    ensures WriterOk(c, OpenWriter(r, |image|, count), image)
  {
    hide ChainIntact, SlotExplained, Retains, NoGap, HeaderIntact;
  }

  lemma ReopenedInv(c: Codec, store: Store, m: Model, r: Object)
    requires ImagesOk(c, store.dirty, store.durable, m, r) && Committed(m) && StoreOk(store) && store.faultsEnabled
    requires Settled(c, store.dirty, store.durable, m, r)
    ensures Reopened(c, store, m).Some? && Inv(c, Reopened(c, store, m).value)
  {
    SettledHolds(c, store.dirty, store.durable, m, r);
    SyncReaderKeeps(c, store.dirty, store.durable, m, r);
    hide ImagesOk, Settled, DurableHolds, FewerRoots, Content, ContentIs, StrictlyIncreasing, Recorded, WriterAgrees, WriterOk,
         HistoryOk, Open, Reopened, Overtaken, Carries;
    ReopenedWriter(m, r, |store.dirty|);
    ReopenedReader(m, r);
    OpenSelects(c, store.dirty, r);
    OpenedWriterOk(c, store.dirty, r, |m.points|);
    ReopenedShape(c, store, m);
  }

  lemma ReopenedLands(c: Codec, store: Store, m: Model, r: Object)
    requires ImagesOk(c, store.dirty, store.durable, m, r) && Committed(m) && StoreOk(store) && store.faultsEnabled
    ensures Lands(c, Reopened(c, store, m), r)
    ensures var n := Reopened(c, store, m).value; n.store == store && n.model == SyncReader(m)
  {
    SyncReaderKeeps(c, store.dirty, store.durable, m, r);
    OpenSelects(c, store.dirty, r);
    ReopenedShape(c, store, m);
    hide Open, Carries, Overtaken, FewerRoots, Settled, ContentIs, StrictlyIncreasing, Recorded, Inv, Reopened;
    RootAtSelf(r, m.history[m.current].endSize);
    if Settled(c, store.dirty, store.durable, m, r) {
      ReopenedInv(c, store, m, r);
    }
  }

  lemma RestoreCommits(m: Model, r: Object, g: nat)
    requires HistoryOk(m, r) && g <= m.current
    ensures Committed(Restore(m, g))
  {
  }

  lemma RecoverAfterProcessCrash(c: Codec, store: Store, m: Model, r: Object)
    requires ImagesOk(c, store.dirty, store.durable, m, r) && store.faultsEnabled
    ensures var n := Recover(c, store, m, false);
            && Lands(c, n, r)
            && n.value.store.dirty == store.dirty && n.value.store.durable == store.durable
            && n.value.model == SyncReader(Restore(m, m.current))
  {
    hide Lands, Reopened, Carries, DurableOk, FewerRoots, Committed, ContentIs, StrictlyIncreasing;
    RestoreCommits(m, r, m.current);
    AfterProcessCrash(c, store.dirty, store.durable, m, r);
    ReopenedLands(c, CrashStore(store, false), Restore(m, m.current), r);
  }

  lemma RecoverAfterPowerLoss(c: Codec, store: Store, m: Model, r: Object)
    requires HistoryOk(m, r) && DurableOk(c, store.durable, m, r) && store.faultsEnabled
    ensures var n := Recover(c, store, m, true);
            && Lands(c, n, DurableRoot(m, r))
            && n.value.store.dirty == store.durable && n.value.store.durable == store.durable
            && n.value.model == SyncReader(Restore(m, m.durable))
  {
    hide Lands, Reopened, Carries, FewerRoots, Committed, ContentIs, StrictlyIncreasing;
    RestoreCommits(m, r, m.durable);
    AfterPowerLoss(c, store.durable, m, r);
    ReopenedLands(c, CrashStore(store, true), Restore(m, m.durable), DurableRoot(m, r));
  }

  /** The root of the durable generation is the root of that generation in the whole chain. */
  lemma LandsAtDurable(c: Codec, n: Option<Sim>, m: Model, r: Object)
    requires HistoryOk(m, r) && Lands(c, n, DurableRoot(m, r)) && n.value.model == SyncReader(Restore(m, m.durable))
    ensures Lands(c, n, r)
  {
    hide ImagesOk, Settled, Inv, ContentIs, StrictlyIncreasing, Recorded;
    RootAtCompose(r, m.history[m.durable].endSize, m.history[m.durable].endSize);
  }

  lemma RecoverEither(c: Codec, store: Store, m: Model, r: Object, power: bool)
    requires ImagesOk(c, store.dirty, store.durable, m, r) && store.faultsEnabled
    ensures Lands(c, Recover(c, store, m, power), r)
    ensures !power ==> Recover(c, store, m, power).value.store.dirty == store.dirty
  {
    hide Lands, Recover, Carries, FewerRoots, ContentIs, StrictlyIncreasing;
    if power {
      RecoverAfterPowerLoss(c, store, m, r);
      LandsAtDurable(c, Recover(c, store, m, true), m, r);
    } else {
      RecoverAfterProcessCrash(c, store, m, r);
    }
  }

  // ---- Truncation ----

  lemma RecoverTruncated(c: Codec, store: Store, m: Model, size: nat)
    requires Shape(m) && size <= |store.dirty|
    ensures Recover(c, TruncateStore(store, size), m, false) ==
            Reopened(c, CrashStore(TruncateStore(store, size), false), Restore(m, Fit(m.history, m.current, size)))
  {
    hide Reopened, Restore, Fit;
  }

  /** What recovery reopens after a cut that leaves the carried root or its retained predecessor. */
  lemma TruncationReopens(c: Codec, store: Store, m: Model, r: Object, size: nat)
    requires ImagesOk(c, store.dirty, store.durable, m, r) && Settled(c, store.dirty, store.durable, m, r)
    requires m.current > 0 && store.faultsEnabled && |store.dirty| >= BLOCK_SIZE
    requires m.history[m.current - 1].endSize <= size <= |store.dirty| && Recoverable(c, store.dirty, r, size)
    ensures var after := CrashStore(TruncateStore(store, size), false);
            var g := Fit(m.history, m.current, size);
            && StoreOk(after) && after.faultsEnabled && Committed(Restore(m, g))
            && ImagesOk(c, after.dirty, after.durable, Restore(m, g), RootAt(r, size))
            && Settled(c, after.dirty, after.durable, Restore(m, g), RootAt(r, size))
            && g <= m.current && m.history[g].endSize <= size
  {
    var g := Fit(m.history, m.current, size);
    hide Settled, Carries, HistoryOk, Recoverable, Committed, FewerRoots, DurableOk, Restore;
    Extents(m, r, m.current - 1, m.current);
    hide ImagesOk, RootAt;
    AfterTruncation(c, store.dirty, store.durable, m, r, size, g);
    RestoreCommits(m, r, g);
  }

  lemma RecoverAfterTruncation(c: Codec, store: Store, m: Model, r: Object, size: nat)
    requires ImagesOk(c, store.dirty, store.durable, m, r) && Settled(c, store.dirty, store.durable, m, r)
    requires m.current > 0 && store.faultsEnabled && |store.dirty| >= BLOCK_SIZE
    requires m.history[m.current - 1].endSize <= size <= |store.dirty| && Recoverable(c, store.dirty, r, size)
    ensures var n := Recover(c, TruncateStore(store, size), m, false);
            n.Some? && Inv(c, n.value) && Lands(c, n, r)
  {
    var g := Fit(m.history, m.current, size);
    var after := CrashStore(TruncateStore(store, size), false);
    hide Settled, Carries, HistoryOk, Recoverable, Committed, FewerRoots, DurableOk, Restore, Fit, CrashStore, TruncateStore,
         Reopened, Recover, Inv, Lands, RootAt, StoreOk;
    Extents(m, r, m.current - 1, m.current);
    TruncationReopens(c, store, m, r, size);
    hide ImagesOk;
    RecoverTruncated(c, store, m, size);
    ReopenedInv(c, after, Restore(m, g), RootAt(r, size));
    ReopenedLands(c, after, Restore(m, g), RootAt(r, size));
    TruncationLands(c, Reopened(c, after, Restore(m, g)), m, r, size, g);
  }

  lemma TruncationLands(c: Codec, n: Option<Sim>, m: Model, r: Object, size: nat, g: nat)
    requires Shape(m) && WellFormedRoot(r) && g <= m.current && m.history[g].endSize <= size
    requires Lands(c, n, RootAt(r, size)) && n.value.model == SyncReader(Restore(m, g))
    ensures Lands(c, n, r)
  {
    hide ImagesOk, Settled, Inv;
    RootAtCompose(r, size, m.history[g].endSize);
  }

  /** A cut that leaves neither: the file cannot be opened, or opens to a root the oracle has forgotten. */
  lemma ForgottenRoot(c: Codec, store: Store, m: Model, r: Object, size: nat)
    requires HistoryOk(m, r) && Holds(c, store.dirty, r) && m.current > 0 && |store.dirty| >= BLOCK_SIZE
    requires m.history[m.current - 1].endSize <= size <= |store.dirty| && !Recoverable(c, store.dirty, r, size)
    requires Recover(c, TruncateStore(store, size), m, false).Some?
    ensures var n := Recover(c, TruncateStore(store, size), m, false).value;
            && Shape(n.model) && |n.store.dirty| >= BLOCK_SIZE
            && var a := RootAt(r, n.model.history[n.model.current].endSize);
               a.Root? && Overtaken(c, n.store.dirty, a.generation) && Open(c, n.store.dirty) != Some(a)
  {
    var g := Fit(m.history, m.current, size);
    hide HistoryOk, Holds, Open, Overtaken, Recover, Reopened, Recoverable;
    Extents(m, r, m.current - 1, m.current);
    RecoverTruncated(c, store, m, size);
    ReopenedShape(c, CrashStore(TruncateStore(store, size), false), Restore(m, g));
    SameRootBelowNext(m, r, g, size);
    DirtyBeyondRecovery(c, store.dirty, m, r, size);
    Extents(m, r, g, m.current);
    RootIsRoot(RootAt(r, size));
  }

  lemma RootIsRoot(r: Object)
    requires WellFormedRoot(r)
    ensures r.Root?
  {
  }

  lemma BeyondRecovery(c: Codec, s: Sim, size: nat)
    requires Inv(c, s) && TruncatedSize(s.model, |s.store.dirty|) == Some(size)
    requires |s.store.dirty| >= BLOCK_SIZE && !Recoverable(c, s.store.dirty, s.writer.root, size)
    requires TruncateStep(c, s).Some?
    ensures var n := TruncateStep(c, s).value;
            && !OracleAgrees(c, n, s.writer.root)
            && Shape(n.model) && |n.store.dirty| >= BLOCK_SIZE
            && var a := RootAt(s.writer.root, n.model.history[n.model.current].endSize);
               a.Root? && Overtaken(c, n.store.dirty, a.generation)
  {
    SettledHolds(c, s.store.dirty, s.store.durable, s.model, s.writer.root);
    hide HistoryOk, Open, Holds, DurableHolds, ImagesOk, Settled, WriterAgrees, WriterOk, ReaderOk, FewerRoots,
         Recover, Recoverable, GraphIntact, ContentIs, Overtaken;
    ForgottenRoot(c, s.store, s.model, s.writer.root, size);
  }

  /** After a truncation the oracle still agrees, exactly when a root it knows is left. */
  lemma TruncateKeeps(c: Codec, s: Sim)
    requires Inv(c, s) && |s.store.dirty| >= BLOCK_SIZE
    requires var size := TruncatedSize(s.model, |s.store.dirty|);
             size.None? || Recoverable(c, s.store.dirty, s.writer.root, size.value)
    ensures Lands(c, TruncateStep(c, s), s.writer.root) && Inv(c, TruncateStep(c, s).value)
  {
    hide Carries, Overtaken, FewerRoots, ContentIs, StrictlyIncreasing, Recorded, Recover;
    var size := TruncatedSize(s.model, |s.store.dirty|);
    if size.Some? {
      RecoverAfterTruncation(c, s.store, s.model, s.writer.root, size.value);
    } else {
      RootAtSelf(s.writer.root, s.model.history[s.model.current].endSize);
    }
  }
}

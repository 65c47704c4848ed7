/**
 Runs without a truncation. Only a truncation leaves a root in a slot that is newer than any the oracle knows,
 so in these runs nothing can be revived, and what disturbs an operation is told before it starts.
 */
module FreshRuns {
  import opened Options
  import opened Objects
  import opened Encodings
  import opened Storage
  import opened Engine
  import opened Images
  import opened Appender
  import opened Checkpoints
  import opened Oracle
  import opened Generations
  import opened Simulation
  import opened Agreement
  import opened Scripts
  import opened Publishing
  import opened Runs

  // ---- What the slots show ----

  /** No slot of the image shows a root newer than `generation`. */
  ghost predicate Shows(c: Codec, image: seq<Byte>, generation: nat) {
    |image| >= BLOCK_SIZE && NoneNewer(c, image, generation)
  }

  /** In neither image is there a root newer than the one the oracle names. */
  ghost predicate Fresh(c: Codec, s: Sim) {
    && HistoryOk(s.model, s.writer.root) && s.writer.root.Root?
    && Shows(c, s.store.dirty, s.writer.root.generation)
    && DurableShows(c, s.store.durable, s.model, s.writer.root)
  }

  ghost predicate DurableShows(c: Codec, durable: seq<Byte>, m: Model, r: Object)
    requires HistoryOk(m, r)
  {
    var d := DurableRoot(m, r);
    d.Root? && Shows(c, durable, d.generation)
  }

  lemma ShowsExtended(c: Codec, before: seq<Byte>, after: seq<Byte>, generation: nat)
    requires Shows(c, before, generation) && before <= after
    ensures Shows(c, after, generation)
  {
    hide DecodeSlot;
    FewerRootsAfterExtension(c, before, after, generation);
  }

  lemma ShowsHigher(c: Codec, image: seq<Byte>, low: nat, high: nat)
    requires Shows(c, image, low) && low <= high
    ensures Shows(c, image, high)
  {
    hide DecodeSlot;
  }

  lemma ShowsWhole(c: Codec, image: seq<Byte>, next: Object, generation: nat)
    requires Shows(c, image, generation) && RootDecodes(next) && generation <= next.generation
    ensures Shows(c, Put(image, c.encode(next), SlotOffset(SlotOf(next.generation))), next.generation)
  {
    hide DecodeSlot, Put;
    OtherSlotsKept(c, image, c.encode(next), SlotOf(next.generation));
    PublishedDecodes(c, image, next);
  }

  lemma ShowsTorn(c: Codec, image: seq<Byte>, next: Object, amount: nat, generation: nat)
    requires Shows(c, image, generation) && RootDecodes(next) && amount <= SLOT_SIZE
    requires var y := TornRoot(c, image, next, amount); y.None? || y == DecodeSlot(c, image, SlotOf(next.generation))
    ensures Shows(c, Torn(c, image, next, amount), generation)
  {
    hide DecodeSlot, Put;
    OtherSlotsKept(c, image, c.encode(next)[..amount], SlotOf(next.generation));
  }

  // ---- What is told before the operation ----

  /** The root write is cut short, and the slot's old bytes make it a root that is neither the old one nor the new. */
  predicate RootMixed(c: Codec, s: Sim, op: Op)
    requires HasRoot(s.writer)
  {
    && |s.store.dirty| >= BLOCK_SIZE && ReachesRoot(s, op) && StoredShort(RootDraw(s, op)).Some?
    && var next := PublishedRoot(s.writer, op.layout);
       var y := TornRoot(c, s.store.dirty, next, StoredShort(RootDraw(s, op)).value);
       y.Some? && y != Some(next) && y != DecodeSlot(c, s.store.dirty, SlotOf(next.generation))
  }

  lemma ForgedIsMixed(c: Codec, s: Sim, op: Op)
    requires HasRoot(s.writer) && RootForged(c, s, op)
    ensures RootMixed(c, s, op)
  {
    hide TornRoot, DecodeSlot, ReachesRoot;
  }

  /** A root write completed by the slot's old bytes, or, as written, a process crash right after the root. */
  predicate Foiled(c: Codec, s: Sim, op: Op, order: MarkOrder)
    requires HasRoot(s.writer)
  {
    RootCompleted(c, s, op) || (order == AfterSnapshot && PostRootProcessCrash(s, op))
  }

  // ---- Slots through a checkpoint ----

  lemma BeforeRootExtends(c: Codec, s: Store, w: Writer, sync: bool, layout: Layout)
    requires CheckpointReady(c, s, w)
    ensures s.dirty <= Exec(c, s, BeforeRoot(w, sync, layout)).store.dirty
  {
    var objects := ObjectsDraft(w, layout).actions;
    hide ObjectsDraft, Carries, WriterOk, Exec;
    ObjectsExtend(c, s, w, layout);
    if sync {
      ExecLast(c, s, objects, SyncFile);
    } else {
      assert objects + [] == objects;
    }
  }

  lemma ObjectsExtend(c: Codec, s: Store, w: Writer, layout: Layout)
    requires CheckpointReady(c, s, w)
    ensures s.dirty <= Exec(c, s, ObjectsDraft(w, layout).actions).store.dirty
  {
    CarriedIsLong(c, s.dirty, w.root);
    var objects := ObjectsDraft(w, layout).actions;
    ObjectsDraftOk(c, w, s.dirty, layout);
    hide ObjectsDraft, Carries, WriterOk, Exec, Ascending, AllWritten;
    ExecObjects(c, s, objects);
  }

  lemma TornRootLocal(c: Codec, a: seq<Byte>, b: seq<Byte>, next: Object, amount: nat)
    requires |a| >= BLOCK_SIZE && a <= b && next.Root? && next.generation >= 1 && amount <= SLOT_SIZE
    ensures TornRoot(c, a, next, amount) == TornRoot(c, b, next, amount)
    ensures DecodeSlot(c, a, SlotOf(next.generation)) == DecodeSlot(c, b, SlotOf(next.generation))
  {
    hide Torn;
    var slot := SlotOf(next.generation);
    assert SlotBytes(a, slot) == SlotBytes(b, slot);
    TornBytes(c, a, next, amount);
    TornBytes(c, b, next, amount);
    SlotBytesDecode(c, a, b, slot);
    SlotBytesDecode(c, Torn(c, a, next, amount), Torn(c, b, next, amount), slot);
  }

  lemma SlotBytesDecode(c: Codec, a: seq<Byte>, b: seq<Byte>, slot: nat)
    requires |a| >= BLOCK_SIZE && |b| >= BLOCK_SIZE && slot < SLOT_COUNT && SlotBytes(a, slot) == SlotBytes(b, slot)
    ensures DecodeSlot(c, a, slot) == DecodeSlot(c, b, slot)
  {
  }

  /** The root write, over an image whose slots show nothing new. */
  lemma RootShows(c: Codec, s: Store, r: Object, next: Object, draw: Choice)
    requires r.Root? && Shows(c, s.dirty, r.generation) && RootDecodes(next) && next.generation == r.generation + 1
    requires Draw(s) == draw
    requires StoredShort(draw).Some? ==>
               var y := TornRoot(c, s.dirty, next, StoredShort(draw).value);
               y.None? || y == DecodeSlot(c, s.dirty, SlotOf(next.generation))
    ensures var t := PwriteAll(s, c.encode(next), SlotOffset(SlotOf(next.generation))).store;
            Shows(c, t.dirty, if draw.NoFault? then next.generation else r.generation)
  {
    hide Put, Torn, DecodeSlot, Shows, PwriteAll, TornRoot;
    RootCall(c, s, next);
    match draw
    case NoFault => ShowsWhole(c, s.dirty, next, r.generation);
    case Short(k) => ShowsTorn(c, s.dirty, next, ShortAmount(k, SLOT_SIZE), r.generation);
    case Crash(_) =>
    case FailWrite =>
  }

  /** What the slots show once the calls of a checkpoint are made, all or some. */
  lemma PlanShows(c: Codec, s: Sim, op: Op, store: Store)
    requires Inv(c, s) && MayPublish(s, op) && !RootMixed(c, s, op) && !RootCompleted(c, s, op)
    requires store == s.store || store == ForgetFault(s.store)
    requires s.writer.root.Root? && Shows(c, s.store.dirty, s.writer.root.generation)
    ensures var t := Exec(c, store, PlanCheckpoint(s.writer, Durably(op), op.layout).actions).store;
            Newest(s, op).Root? && Shows(c, t.dirty, Newest(s, op).generation)
  {
    hide Carries, WriterAgrees, ReaderOk, HistoryOk, DurableOk, FewerRoots, Settled, WriterOk, Exec, PlanCheckpoint, ImagesOk,
         BeforeRoot, PublishedRoot, Shows, Faultless, Do, RootMixed, RootCompleted, Newest, RootWrite, CheckpointReady, RootDecodes;
    var sync := Durably(op);
    var before := BeforeRoot(s.writer, sync, op.layout);
    ReadyHere(c, s, store);
    NotReached(s, op);
    CarriedIsLong(c, s.store.dirty, s.writer.root);
    NextRootDecodes(c, s.writer, s.store.dirty, op.layout);
    PlanIsPhases(s.writer, sync, op.layout);
    BeforeRootExtends(c, store, s.writer, sync, op.layout);
    ExecFollowsScript(c, store, before);
    var o := Exec(c, store, before);
    ShowsExtended(c, s.store.dirty, o.store.dirty, s.writer.root.generation);
    ExecLast(c, store, before, RootWrite(s.writer, op.layout));
    var through := Exec(c, store, ThroughRoot(s.writer, sync, op.layout));
    SyncsKeepDirty(c, store, ThroughRoot(s.writer, sync, op.layout), sync);
    if o.ok {
      NextDrawn(c, store, before);
      RootDrawShows(c, s, op, o.store);
    }
  }

  lemma ReadyHere(c: Codec, s: Sim, store: Store)
    requires Inv(c, s) && store.dirty == s.store.dirty
    ensures CheckpointReady(c, store, s.writer)
  {
  }

  lemma NotReached(s: Sim, op: Op)
    requires HasRoot(s.writer) && MayPublish(s, op)
    ensures ReachesRoot(s, op) <==> Faultless(s.store.script, BeforeRoot(s.writer, Durably(op), op.layout))
    ensures !ReachesRoot(s, op) ==> Newest(s, op) == s.writer.root
  {
  }

  lemma SyncsKeepDirty(c: Codec, s: Store, actions: seq<Action>, sync: bool)
    ensures Exec(c, s, actions + Syncs(sync)).store.dirty == Exec(c, s, actions).store.dirty
  {
    hide Exec;
    if sync {
      ExecLast(c, s, actions, SyncFile);
    } else {
      assert actions + [] == actions;
    }
  }

  lemma RootDrawShows(c: Codec, s: Sim, op: Op, t: Store)
    requires HasRoot(s.writer) && |s.store.dirty| >= BLOCK_SIZE && ReachesRoot(s, op) && !RootMixed(c, s, op)
    requires !RootCompleted(c, s, op)
    requires s.store.dirty <= t.dirty && Draw(t) == RootDraw(s, op)
    requires RootDecodes(PublishedRoot(s.writer, op.layout))
    requires Shows(c, t.dirty, s.writer.root.generation)
    ensures Newest(s, op).Root? && Shows(c, Do(c, t, RootWrite(s.writer, op.layout)).store.dirty, Newest(s, op).generation)
  {
    hide Shows, TornRoot, DecodeSlot, PublishedRoot, PwriteAll, TailStands, Faultless, RootDraw;
    var next, draw := PublishedRoot(s.writer, op.layout), RootDraw(s, op);
    if StoredShort(draw).Some? {
      TornRootLocal(c, s.store.dirty, t.dirty, next, StoredShort(draw).value);
      TornSlotDecodes(c, s.store.dirty, next, StoredShort(draw).value);
    }
    RootShows(c, t, s.writer.root, next, draw);
  }

  // ---- Where an operation ends ----

  /** Where an operation ends with nothing newer in the slots, the invariant holds, and still nothing newer is there. */
  lemma LandedFresh(c: Codec, n: Option<Sim>, newest: Object)
    requires Lands(c, n, newest)
    requires var top := RootAt(newest, n.value.model.history[n.value.model.current].endSize);
             && top.Root? && Shows(c, n.value.store.dirty, top.generation)
             && DurableShows(c, n.value.store.durable, n.value.model, top)
    ensures Inv(c, n.value) && Fresh(c, n.value) && OracleAgrees(c, n.value, newest)
  {
    var s := n.value;
    var m := s.model;
    var top := RootAt(newest, m.history[m.current].endSize);
    NoneNewerStands(c, s.store.dirty, top.generation);
    NoneNewerStands(c, s.store.durable, DurableRoot(m, top).generation);
    AgreesExactly(c, s, newest);
    hide Carries, HistoryOk, FewerRoots, Overtaken, OracleAgrees, RootAt, NoneNewer;
    HeldRoot(c, s, top);
  }

  /** The writer's root is the one the image holds. */
  lemma HeldRoot(c: Codec, s: Sim, top: Object)
    requires Inv(c, s) && Carries(c, s.store.dirty, top) && |s.store.dirty| >= BLOCK_SIZE && top.Root?
    requires !Overtaken(c, s.store.dirty, top.generation)
    ensures s.writer.root == top
  {
    hide Carries, Overtaken, Open, WriterOk, WriterAgrees, ReaderOk, HistoryOk, FewerRoots;
    RootHeld(c, s);
    OpenSelects(c, s.store.dirty, top);
  }

  lemma RootHeld(c: Codec, s: Sim)
    requires Inv(c, s)
    ensures Open(c, s.store.dirty) == Some(s.writer.root)
  {
    hide WriterOk, WriterAgrees, ReaderOk, HistoryOk, FewerRoots, Carries, Overtaken, Open;
    SettledHolds(c, s.store.dirty, s.store.durable, s.model, s.writer.root);
    OpenSelects(c, s.store.dirty, s.writer.root);
  }

  /** Recovery keeps it so. */
  lemma RecoverFresh(c: Codec, t: Store, m: Model, r: Object, newest: Object, power: bool)
    requires t.faultsEnabled && HistoryOk(m, r) && r.Root? && DurableShows(c, t.durable, m, r)
    requires if power then DurableOk(c, t.durable, m, r) else ImagesOk(c, t.dirty, t.durable, m, r) && Shows(c, t.dirty, r.generation)
    requires Lands(c, Recover(c, t, m, power), newest)
    requires WellFormedRoot(newest)
    requires if power then RootAt(newest, m.history[m.durable].endSize) == DurableRoot(m, r)
             else m.current < |m.history| && RootAt(newest, m.history[m.current].endSize) == r
    ensures var n := Recover(c, t, m, power); Inv(c, n.value) && Fresh(c, n.value) && OracleAgrees(c, n.value, newest)
  {
    hide Carries, FewerRoots, HistoryOk, DurableOk, Lands, Recover, Shows, Fresh, Inv, RootAt, Restore, DurableShows,
         OracleAgrees;
    Extents(m, r, m.current, m.current);
    var n := Recover(c, t, m, power);
    if power {
      RecoverAfterPowerLoss(c, t, m, r);
      RestoredDurable(c, m, r, t.durable);
      LandedFresh(c, n, newest);
    } else {
      RecoverAfterProcessCrash(c, t, m, r);
      RestoredCurrent(c, m, r, t.durable);
      LandedFresh(c, n, newest);
    }
  }

  lemma RestoredCurrent(c: Codec, m: Model, r: Object, durable: seq<Byte>)
    requires HistoryOk(m, r) && r.Root? && DurableShows(c, durable, m, r)
    ensures var n := SyncReader(Restore(m, m.current));
            && n.current < |n.history| && n.history[n.current] == m.history[m.current]
            && HistoryOk(n, r) && DurableShows(c, durable, n, r)
  {
    hide Shows, RootAt, StrictlyIncreasing, ContentIs, Recorded;
    Extents(m, r, m.current, m.current);
    RootAtSelf(r, m.history[m.current].endSize);
    HistoryAfterRestore(m, r, m.current);
  }

  lemma RestoredDurable(c: Codec, m: Model, r: Object, durable: seq<Byte>)
    requires HistoryOk(m, r) && r.Root? && DurableShows(c, durable, m, r)
    ensures var n, d := SyncReader(Restore(m, m.durable)), DurableRoot(m, r);
            && n.current < |n.history| && n.history[n.current] == m.history[m.durable]
            && d.Root? && Shows(c, durable, d.generation)
            && HistoryOk(n, d) && DurableShows(c, durable, n, d)
  {
    hide Shows, RootAt, StrictlyIncreasing, ContentIs, Recorded;
    Extents(m, r, m.durable, m.current);
    RootAtCompose(r, m.history[m.durable].endSize, m.history[m.durable].endSize);
    HistoryAfterRestore(m, r, m.durable);
  }

  // ---- The durable image ----

  /** The durable mark still names the same root. */
  lemma SameMark(c: Codec, durable: seq<Byte>, m: Model, r: Object, after: Model)
    requires HistoryOk(m, r) && HistoryOk(after, r) && DurableShows(c, durable, m, r)
    requires after.history[after.durable].endSize == m.history[m.durable].endSize
    ensures DurableShows(c, durable, after, r)
  {
    hide Shows, RootAt;
  }

  /** The durable mark names the newest root. */
  lemma MarkedNewest(c: Codec, durable: seq<Byte>, after: Model, r: Object)
    requires HistoryOk(after, r) && r.Root? && Shows(c, durable, r.generation)
    requires r.committed <= after.history[after.durable].endSize
    ensures DurableShows(c, durable, after, r)
  {
    hide Shows, RootAt;
    RootAtSelf(r, after.history[after.durable].endSize);
  }

  /** The mark stays at an older generation while `next` is published. */
  lemma MarkedBelow(c: Codec, durable: seq<Byte>, m: Model, r: Object, after: Model, next: Object)
    requires HistoryOk(m, r) && HistoryOk(after, next) && DurableShows(c, durable, m, r)
    requires WellFormedRoot(next) && next.Root? && next.previous == Some(r) && next.committed > m.history[m.current].endSize
    requires after.history[after.durable].endSize == m.history[m.durable].endSize
    ensures DurableShows(c, durable, after, next)
  {
    hide Shows, HistoryOk, RootAt;
    Extents(m, r, m.current, m.current);
    Extents(m, r, m.durable, m.current);
    RootBelow(next, r, m.history[m.durable].endSize);
  }

  lemma RootBelow(next: Object, r: Object, size: nat)
    requires WellFormedRoot(next) && next.Root? && next.previous == Some(r) && next.committed > size
    ensures WellFormedRoot(r) && RootAt(next, size) == RootAt(r, size)
  {
  }

  // ---- Every operation but a truncation ----

  lemma FreshFacts(c: Codec, s: Sim)
    requires Inv(c, s) && Fresh(c, s)
    ensures var m, r := s.model, s.writer.root;
            && HistoryOk(m, r) && HasPages(r) && WellFormedRoot(r) && |s.store.dirty| >= BLOCK_SIZE
            && Shows(c, s.store.dirty, r.generation) && DurableShows(c, s.store.durable, m, r)
            && ImagesOk(c, s.store.dirty, s.store.durable, m, r)
            && r.committed <= m.history[m.current].endSize <= |s.store.dirty|
            && s.store.faultsEnabled && StoreOk(s.store)
  {
    CountsWithin(c, s);
    Extents(s.model, s.writer.root, s.model.current, s.model.current);
    hide Shows, DurableShows, Settled, WriterOk, WriterAgrees, ReaderOk, HistoryOk, Carries, DurableOk, FewerRoots;
  }

  /** A snapshot of the root there is. */
  lemma RepeatFresh(c: Codec, s: Sim, n: Sim, sync: bool)
    requires Inv(c, s) && Fresh(c, s) && Lands(c, Some(n), s.writer.root)
    requires n.store.dirty == s.store.dirty && n.store.durable == (if sync then s.store.dirty else s.store.durable)
    requires n.model.history == TakeSnapshot(s.model, |s.store.dirty|, sync).history
    requires n.model.current == |s.model.history| && n.model.durable == if sync then n.model.current else s.model.durable
    ensures Inv(c, n) && Fresh(c, n) && OracleAgrees(c, n, s.writer.root)
  {
    FreshFacts(c, s);
    hide Inv, Fresh, OracleAgrees, Shows, HistoryOk, ImagesOk, RootAt;
    var m, r := s.model, s.writer.root;
    Extents(m, r, m.durable, m.current);
    RootAtSelf(r, |s.store.dirty|);
    LandedHistory(c, n, r, r);
    if sync {
      MarkedNewest(c, n.store.durable, n.model, r);
    } else {
      SameMark(c, n.store.durable, m, r, n.model);
    }
    LandedFresh(c, Some(n), r);
  }

  lemma LandedHistory(c: Codec, n: Sim, newest: Object, top: Object)
    requires Lands(c, Some(n), newest) && n.model.current < |n.model.history|
    requires RootAt(newest, n.model.history[n.model.current].endSize) == top
    ensures HistoryOk(n.model, top)
  {
  }

  /** Points or counts may change; history, marks and slots do not. */
  lemma SameFresh(c: Codec, s: Sim, n: Sim)
    requires Inv(c, s) && Fresh(c, s) && Lands(c, Some(n), s.writer.root)
    requires s.store.dirty <= n.store.dirty && n.store.durable == s.store.durable
    requires n.model.history == s.model.history && n.model.current == s.model.current && n.model.durable == s.model.durable
    ensures Inv(c, n) && Fresh(c, n) && OracleAgrees(c, n, s.writer.root)
  {
    FreshFacts(c, s);
    hide Inv, Fresh, OracleAgrees, Shows, HistoryOk, ImagesOk, RootAt;
    var m, r := s.model, s.writer.root;
    Extents(m, r, m.durable, m.current);
    RootAtSelf(r, m.history[m.current].endSize);
    LandedHistory(c, n, r, r);
    SameMark(c, n.store.durable, m, r, n.model);
    ShowsExtended(c, s.store.dirty, n.store.dirty, r.generation);
    LandedFresh(c, Some(n), r);
  }

  /** A published root, with a snapshot of it. */
  lemma PublishedFresh(c: Codec, s: Sim, n: Sim, next: Object, sync: bool)
    requires Inv(c, s) && Fresh(c, s) && Lands(c, Some(n), next)
    requires next.Root? && next.previous == Some(s.writer.root) && WellFormedRoot(next)
    requires s.model.history[s.model.current].endSize < next.committed == |n.store.dirty|
    requires Shows(c, n.store.dirty, next.generation)
    requires n.store.durable == (if sync then n.store.dirty else s.store.durable)
    requires n.model.history == TakeSnapshot(s.model, |n.store.dirty|, sync).history
    requires n.model.current == |s.model.history| && n.model.durable == if sync then n.model.current else s.model.durable
    ensures Inv(c, n) && Fresh(c, n) && OracleAgrees(c, n, next)
  {
    FreshFacts(c, s);
    hide Inv, Fresh, OracleAgrees, Shows, HistoryOk, ImagesOk, RootAt;
    var m, r := s.model, s.writer.root;
    Extents(m, r, m.durable, m.current);
    RootAtSelf(next, next.committed);
    LandedHistory(c, n, next, next);
    if sync {
      MarkedNewest(c, n.store.durable, n.model, next);
    } else {
      MarkedBelow(c, n.store.durable, m, r, n.model, next);
    }
    LandedFresh(c, Some(n), next);
  }

  /** A checkpoint with nothing to publish. */
  lemma CleanCheckpointFresh(c: Codec, s: Sim, sync: bool, layout: Layout, order: MarkOrder)
    requires Inv(c, s) && Fresh(c, s) && !s.writer.dirty
    ensures var n := CheckpointStep(c, s, sync, layout, order); n.Some? && Inv(c, n.value) && Fresh(c, n.value) && OracleAgrees(c, n.value, s.writer.root)
  {
    FreshFacts(c, s);
    CleanCheckpointLands(c, s, sync, layout, order);
    var store := ForgetFault(s.store);
    var m, r := s.model, s.writer.root;
    CleanCheckpointStore(c, store, s.writer, sync, layout);
    var o := Exec(c, store, PlanCheckpoint(s.writer, sync, layout).actions);
    if o.ok {
      PlanKeeps(s.writer, sync, layout);
      hide Inv, Fresh, OracleAgrees, Lands, Exec, PlanCheckpoint, Shows, HistoryOk, ImagesOk;
      RepeatFresh(c, s, CheckpointStep(c, s, sync, layout, order).value, sync);
    } else {
      CleanWriterContent(c, s.writer, s.store.dirty, m);
      hide Fresh, OracleAgrees, Lands, Exec, PlanCheckpoint, Shows, HistoryOk, ImagesOk, WriterOk, WriterAgrees, ReaderOk, Settled, ContentIs, Recover,
           DurableShows, Carries, DurableOk;
      CleanMarks(c, s.store.dirty, s.store.durable, m, r, o.store, order);
      CleanMarksShow(c, s.store.dirty, s.store.durable, m, r, o.store, order);
      FailedFresh(c, o.store, AfterFailedCheckpoint(m, o.store, order), r, r);
    }
  }

  lemma PlanKeeps(w: Writer, sync: bool, layout: Layout)
    requires HasRoot(w) && !w.dirty
    ensures PlanCheckpoint(w, sync, layout).writer == w
  {
  }

  lemma CleanMarksShow(c: Codec, dirty: seq<Byte>, durable: seq<Byte>, m: Model, r: Object, t: Store, order: MarkOrder)
    requires HistoryOk(m, r) && r.Root? && t.dirty == dirty && (t.priorGenerationBecameDurable ==> dirty == durable)
    requires r.committed <= m.history[m.current].endSize <= |dirty|
    requires Shows(c, dirty, r.generation) && DurableShows(c, durable, m, r)
    requires HistoryOk(AfterFailedCheckpoint(m, t, order), r)
    ensures DurableShows(c, durable, AfterFailedCheckpoint(m, t, order), r)
  {
    Extents(m, r, m.durable, m.current);
    hide HistoryOk, Shows, DurableShows;
    var after := AfterFailedCheckpoint(m, t, order);
    if t.priorGenerationBecameDurable {
      MarkedNewest(c, durable, after, r);
    } else {
      SameMark(c, durable, m, r, after);
    }
  }

  /** Recovery from a fault of either kind. */
  lemma FailedFresh(c: Codec, t: Store, m: Model, r: Object, newest: Object)
    requires ImagesOk(c, t.dirty, t.durable, m, r) && t.faultsEnabled && r.Root?
    requires Shows(c, t.dirty, r.generation) && DurableShows(c, t.durable, m, r)
    requires newest == r && Lands(c, Recover(c, t, m, PowerLost(t)), newest)
    ensures var n := Recover(c, t, m, PowerLost(t)); n.Some? && Inv(c, n.value) && Fresh(c, n.value) && OracleAgrees(c, n.value, newest)
  {
    hide Shows, DurableShows, Recover, HistoryOk, Inv, Fresh, OracleAgrees, Lands, ImagesOk, DurableOk;
    DurablePart(c, t.dirty, t.durable, m, r);
    Extents(m, r, m.current, m.current);
    RootAtSelf(r, m.history[m.current].endSize);
    LandedSome(c, Recover(c, t, m, PowerLost(t)), newest);
    RecoverFresh(c, t, m, r, newest, PowerLost(t));
  }

  lemma DurablePart(c: Codec, dirty: seq<Byte>, durable: seq<Byte>, m: Model, r: Object)
    requires ImagesOk(c, dirty, durable, m, r)
    ensures HistoryOk(m, r) && DurableOk(c, durable, m, r)
  {
  }

  lemma UnpublishedShows(c: Codec, s: Store, t: Store, m: Model, r: Object, order: MarkOrder)
    requires HistoryOk(m, r) && r.Root? && Unpublished(c, s, t, r) && HistoryOk(AfterFailedCheckpoint(m, t, order), r)
    requires Shows(c, s.dirty, r.generation) && DurableShows(c, s.durable, m, r)
    requires s.priorGenerationBecameDurable ==> s.dirty == s.durable
    ensures DurableShows(c, t.durable, AfterFailedCheckpoint(m, t, order), r)
  {
    Extents(m, r, m.durable, m.current);
    hide HistoryOk, Shows, DurableShows, Carries, FewerRoots;
    var after := AfterFailedCheckpoint(m, t, order);
    if t.priorGenerationBecameDurable {
      if t.durable != s.durable {
        ShowsExtended(c, s.dirty, t.durable, r.generation);
      }
      UnpublishedDurable(c, s, t, r);
      MarkedNewest(c, t.durable, after, r);
    } else {
      SameMark(c, t.durable, m, r, after);
    }
  }

  /** Whether it was synced or not, the marked durable image shows nothing newer. */
  lemma UnpublishedDurable(c: Codec, s: Store, t: Store, r: Object)
    requires r.Root? && Unpublished(c, s, t, r) && t.priorGenerationBecameDurable
    requires Shows(c, s.dirty, r.generation) && (s.priorGenerationBecameDurable ==> s.dirty == s.durable)
    ensures Shows(c, t.durable, r.generation)
  {
    hide Shows, Carries, FewerRoots;
    if SyncedBefore(c, s, t, r) {
      ShowsExtended(c, s.dirty, t.durable, r.generation);
    }
  }

  /** A checkpoint that published nothing. */
  lemma UnpublishedFresh(c: Codec, s: Sim, op: Op, order: MarkOrder, t: Store)
    requires op.Checkpoint? && Inv(c, s) && Fresh(c, s) && t.faultsEnabled
    requires Unpublished(c, ForgetFault(s.store), t, s.writer.root)
    requires s.writer.root.Root? && Shows(c, t.dirty, s.writer.root.generation)
    requires Lands(c, Recover(c, t, AfterFailedCheckpoint(s.model, t, order), PowerLost(t)), s.writer.root)
    ensures var n := Recover(c, t, AfterFailedCheckpoint(s.model, t, order), PowerLost(t));
            n.Some? && Inv(c, n.value) && Fresh(c, n.value) && OracleAgrees(c, n.value, s.writer.root)
  {
    FreshFacts(c, s);
    hide Inv, Fresh, OracleAgrees, Shows, DurableShows, Lands, Recover, HistoryOk, ImagesOk, Unpublished,
         AfterFailedCheckpoint;
    var m, r, store := s.model, s.writer.root, ForgetFault(s.store);
    UnpublishedMarks(c, store, t, m, r, order);
    ImagesHistory(c, t.dirty, t.durable, AfterFailedCheckpoint(m, t, order), r);
    UnpublishedShows(c, store, t, m, r, order);
    FailedFresh(c, t, AfterFailedCheckpoint(m, t, order), r, r);
  }

  lemma ImagesHistory(c: Codec, dirty: seq<Byte>, durable: seq<Byte>, m: Model, r: Object)
    requires ImagesOk(c, dirty, durable, m, r)
    ensures HistoryOk(m, r)
  {
  }

  /** A checkpoint that published its root and failed in the sync after it. */
  lemma UnsyncedFresh(c: Codec, s: Sim, op: Op, order: MarkOrder, t: Store)
    requires op.Checkpoint? && Inv(c, s) && Fresh(c, s) && t.faultsEnabled && MayPublish(s, op)
    requires PublishedUnsynced(c, ForgetFault(s.store), t, s.writer.root, PublishedRoot(s.writer, op.layout))
    requires Shows(c, t.dirty, PublishedRoot(s.writer, op.layout).generation)
    requires !PowerLost(t) ==> order == BeforeSnapshot
    requires Lands(c, Recover(c, t, AfterFailedCheckpoint(s.model, t, order), PowerLost(t)), PublishedRoot(s.writer, op.layout))
    ensures var n := Recover(c, t, AfterFailedCheckpoint(s.model, t, order), PowerLost(t));
            n.Some? && Inv(c, n.value) && Fresh(c, n.value) && OracleAgrees(c, n.value, PublishedRoot(s.writer, op.layout))
  {
    FreshFacts(c, s);
    var m, r, store, next := s.model, s.writer.root, ForgetFault(s.store), PublishedRoot(s.writer, op.layout);
    var after := AfterFailedCheckpoint(m, t, order);
    PublishedFollows(s.writer, op.layout);
    LandedSome(c, Recover(c, t, after, PowerLost(t)), next);
    Extents(m, r, m.current, m.current);
    UnsyncedDurable(c, store, t, r, next);
    if PowerLost(t) {
      hide Inv, Fresh, OracleAgrees, Shows, DurableShows, Lands, Recover, HistoryOk, PublishedUnsynced,
           AfterFailedCheckpoint, PublishedRoot, DurableOk;
      UnsyncedPowerLoss(c, store, t, m, r, next, order);
      MarkedNewest(c, t.durable, after, r);
      RootBelow(next, r, m.history[m.current].endSize);
      RecoverFresh(c, t, after, r, next, true);
    } else {
      hide Fresh, OracleAgrees, Shows, DurableShows, Lands, Recover, HistoryOk, PublishedUnsynced, AfterFailedCheckpoint,
           PublishedRoot, ImagesOk;
      UnsyncedMarks(c, s, op, store, t, order);
      ImagesHistory(c, t.dirty, t.durable, after, next);
      UnsyncedMark(c, store, t, m, r, next);
      FailedFresh(c, t, after, next, next);
    }
  }

  lemma UnsyncedDurable(c: Codec, s: Store, t: Store, r: Object, next: Object)
    requires r.Root? && PublishedUnsynced(c, s, t, r, next) && Shows(c, s.dirty, r.generation)
    ensures Shows(c, t.durable, r.generation) && WellFormedRoot(next)
  {
    CarriedWellFormed(c, t.dirty, next);
    hide Shows, Carries, FewerRoots, OnlyRootMissing;
    ShowsExtended(c, s.dirty, t.durable, r.generation);
  }

  lemma UnsyncedMark(c: Codec, s: Store, t: Store, m: Model, r: Object, next: Object)
    requires HistoryOk(m, r) && r.Root? && next.Root? && next.previous == Some(r) && WellFormedRoot(next)
    requires PublishedUnsynced(c, s, t, r, next) && !PowerLost(t) && Shows(c, t.durable, r.generation)
    requires m.history[m.current].endSize <= |s.dirty| && HistoryOk(AfterFailedCheckpoint(m, t, BeforeSnapshot), next)
    ensures DurableShows(c, t.durable, AfterFailedCheckpoint(m, t, BeforeSnapshot), next)
  {
    hide Shows, Carries, FewerRoots, OnlyRootMissing, SyncedBefore, OtherSlotsSame, DurableShows;
    var marked := m.(durable := m.current);
    HistoryAfterMark(m, r);
    Extents(m, r, m.current, m.current);
    MarkedNewest(c, t.durable, marked, r);
    hide HistoryOk;
    MarkedBelow(c, t.durable, marked, r, AfterFailedCheckpoint(m, t, BeforeSnapshot), next);
  }

  lemma DirtyCheckpointFresh(c: Codec, s: Sim, op: Op, order: MarkOrder)
    requires op.Checkpoint? && Inv(c, s) && Fresh(c, s) && s.writer.dirty
    requires !RootMixed(c, s, op) && !Foiled(c, s, op, order)
    ensures var n := CheckpointStep(c, s, op.sync, op.layout, order); n.Some? && Inv(c, n.value) && Fresh(c, n.value) && OracleAgrees(c, n.value, Newest(s, op))
  {
    FreshFacts(c, s);
    NotForged(c, s, op);
    hide Inv, Fresh, OracleAgrees, Shows, HistoryOk, ImagesOk, RootMixed, RootForged, RootCompleted, Lands, Exec, PublishedRoot, PlanCheckpoint,
         Publishes, CheckpointStep, CheckpointEffect, PostRootProcessCrash, Foiled, NextStood;
    NotFoiled(c, s, op, order);
    CheckpointLands(c, s, op, order);
    LandedSome(c, CheckpointStep(c, s, op.sync, op.layout, order), Newest(s, op));
    if Exec(c, ForgetFault(s.store), PlanCheckpoint(s.writer, op.sync, op.layout).actions).ok {
      FinishedFresh(c, s, op, order);
    } else {
      UnfinishedFresh(c, s, op, order);
    }
  }

  lemma NotFoiled(c: Codec, s: Sim, op: Op, order: MarkOrder)
    requires HasRoot(s.writer) && !Foiled(c, s, op, order)
    ensures !RootCompleted(c, s, op) && !(order == AfterSnapshot && PostRootProcessCrash(s, op))
  {
  }

  lemma FinishedFresh(c: Codec, s: Sim, op: Op, order: MarkOrder)
    requires op.Checkpoint? && Inv(c, s) && Fresh(c, s) && s.writer.dirty
    requires !RootMixed(c, s, op) && !RootForged(c, s, op) && !RootCompleted(c, s, op)
    requires Lands(c, CheckpointStep(c, s, op.sync, op.layout, order), Newest(s, op))
    requires Exec(c, ForgetFault(s.store), PlanCheckpoint(s.writer, op.sync, op.layout).actions).ok
    ensures var n := CheckpointStep(c, s, op.sync, op.layout, order); Inv(c, n.value) && Fresh(c, n.value) && OracleAgrees(c, n.value, Newest(s, op))
  {
    FreshFacts(c, s);
    var store, next := ForgetFault(s.store), PublishedRoot(s.writer, op.layout);
    var t := Exec(c, store, PlanCheckpoint(s.writer, op.sync, op.layout).actions).store;
    PublishedFollows(s.writer, op.layout);
    hide Inv, Fresh, OracleAgrees, Shows, DurableShows, HistoryOk, ImagesOk, RootMixed, RootForged, RootCompleted, Lands, Exec, PublishedRoot,
         PlanCheckpoint, Publishes, Carries, FewerRoots, OtherSlotsSame;
    ScriptedOutcome(c, s, op, store);
    PlanShows(c, s, op, store);
    CarriedWellFormed(c, t.dirty, next);
    PublishedFresh(c, s, CheckpointStep(c, s, op.sync, op.layout, order).value, next, op.sync);
  }

  lemma UnfinishedFresh(c: Codec, s: Sim, op: Op, order: MarkOrder)
    requires op.Checkpoint? && Inv(c, s) && Fresh(c, s) && s.writer.dirty && |s.store.dirty| >= BLOCK_SIZE
    requires !RootMixed(c, s, op) && !RootForged(c, s, op) && !RootCompleted(c, s, op)
    requires !(order == AfterSnapshot && PostRootProcessCrash(s, op))
    requires Lands(c, CheckpointStep(c, s, op.sync, op.layout, order), Newest(s, op))
    requires !Exec(c, ForgetFault(s.store), PlanCheckpoint(s.writer, op.sync, op.layout).actions).ok
    ensures var n := CheckpointStep(c, s, op.sync, op.layout, order); Inv(c, n.value) && Fresh(c, n.value) && OracleAgrees(c, n.value, Newest(s, op))
  {
    FreshFacts(c, s);
    var store := ForgetFault(s.store);
    var t := Exec(c, store, PlanCheckpoint(s.writer, op.sync, op.layout).actions).store;
    hide Inv, Fresh, OracleAgrees, Shows, DurableShows, HistoryOk, ImagesOk, RootMixed, RootForged, RootCompleted, Lands, Exec, PublishedRoot,
         PlanCheckpoint, Publishes, Recover, AfterFailedCheckpoint, Unpublished, PublishedUnsynced;
    ScriptedOutcome(c, s, op, store);
    PlanShows(c, s, op, store);
    if !Publishes(s, op) {
      UnpublishedFresh(c, s, op, order, t);
    } else {
      if !PowerLost(t) {
        RootWasWritten(c, s, op);
        FinalDraw(c, s, op.layout);
      }
      UnsyncedFresh(c, s, op, order, t);
    }
  }

  lemma NotForged(c: Codec, s: Sim, op: Op)
    requires HasRoot(s.writer) && !RootMixed(c, s, op)
    ensures !RootForged(c, s, op)
  {
    hide RootMixed, RootForged;
    if RootForged(c, s, op) {
      ForgedIsMixed(c, s, op);
    }
  }

  lemma CleanReopenFresh(c: Codec, s: Sim, layout: Layout)
    requires Inv(c, s) && Fresh(c, s) && !s.writer.dirty
    ensures var n := ReopenStep(c, s, layout); n.Some? && Inv(c, n.value) && Fresh(c, n.value) && OracleAgrees(c, n.value, s.writer.root)
  {
    FreshFacts(c, s);
    hide Inv, Fresh, OracleAgrees, Lands, Exec, PlanCheckpoint, Shows, HistoryOk, ImagesOk, DurableShows, Open, Reopened,
         Recover;
    CleanReopenLands(c, s, layout);
    CleanCheckpointStore(c, s.store, s.writer, false, layout);
    LandedSome(c, ReopenStep(c, s, layout), s.writer.root);
    ReopenedShape(c, s.store, TakeSnapshot(s.model, |s.store.dirty|, false));
    RepeatFresh(c, s, ReopenStep(c, s, layout).value, false);
  }

  lemma DirtyReopenFresh(c: Codec, s: Sim, op: Op)
    requires op.Reopen? && Inv(c, s) && Fresh(c, s) && s.writer.dirty && !RootMixed(c, s, op) && !RootCompleted(c, s, op)
    ensures var n := ReopenStep(c, s, op.layout); n.Some? && Inv(c, n.value) && Fresh(c, n.value) && OracleAgrees(c, n.value, Newest(s, op))
  {
    FreshFacts(c, s);
    NotForged(c, s, op);
    var next := PublishedRoot(s.writer, op.layout);
    var t := Exec(c, s.store, PlanCheckpoint(s.writer, false, op.layout).actions).store;
    PublishedFollows(s.writer, op.layout);
    hide Inv, Fresh, OracleAgrees, Shows, DurableShows, HistoryOk, ImagesOk, RootMixed, RootForged, RootCompleted, Lands, Exec, PublishedRoot,
         PlanCheckpoint, Publishes, Recover, Carries, FewerRoots, OtherSlotsSame, Open, Reopened;
    DirtyReopenLands(c, s, op);
    LandedSome(c, ReopenStep(c, s, op.layout), Newest(s, op));
    ScriptedOutcome(c, s, op, s.store);
    PlanShows(c, s, op, s.store);
    if Exec(c, s.store, PlanCheckpoint(s.writer, false, op.layout).actions).ok {
      CarriedWellFormed(c, t.dirty, next);
      ReopenedShape(c, t, TakeSnapshot(s.model, |t.dirty|, false));
      PublishedFresh(c, s, ReopenStep(c, s, op.layout).value, next, false);
    } else {
      UnpublishedImages(c, s.store, t, s.model, s.writer.root);
      FailedFresh(c, t, s.model, s.writer.root, s.writer.root);
    }
  }

  lemma AppendFresh(c: Codec, s: Sim, series: nat, arrivals: seq<Arrival>, layout: Layout)
    requires Inv(c, s) && Fresh(c, s) && series < |s.model.points|
    ensures var n := AppendStep(c, s, series, arrivals, layout); n.Some? && Inv(c, n.value) && Fresh(c, n.value) && OracleAgrees(c, n.value, s.writer.root)
  {
    FreshFacts(c, s);
    BatchAccepted(c, s, series, arrivals);
    AppendLands(c, s, series, arrivals, layout);
    LandedSome(c, AppendStep(c, s, series, arrivals, layout), s.writer.root);
    var batch := Batch(LastTimestamp(s.model.points[series]), arrivals);
    var store := ForgetFault(s.store);
    var actions := Fill(StartDraft(s.writer), layout, series, s.writer.pending[series], batch).0.actions;
    var o := Exec(c, store, actions);
    FillEffect(c, s, layout, series, batch);
    hide Inv, Fresh, OracleAgrees, Shows, DurableShows, HistoryOk, ImagesOk, Lands, Exec, Recover, Fill, Batch, Accepts,
         Carries, FewerRoots;
    if batch == [] || o.ok {
      SameFresh(c, s, AppendStep(c, s, series, arrivals, layout).value);
    } else {
      ImagesAfterObjects(c, store, o, actions, s.model, s.writer.root);
      ShowsExtended(c, s.store.dirty, o.store.dirty, s.writer.root.generation);
      FailedFresh(c, o.store, s.model, s.writer.root, s.writer.root);
    }
  }

  lemma FillEffect(c: Codec, s: Sim, layout: Layout, series: nat, batch: seq<Point>)
    requires Inv(c, s) && series < |s.writer.pending| && |s.store.dirty| >= BLOCK_SIZE
    ensures var actions := Fill(StartDraft(s.writer), layout, series, s.writer.pending[series], batch).0.actions;
            ObjectsEffect(c, ForgetFault(s.store), Exec(c, ForgetFault(s.store), actions), actions)
  {
    hide Carries, HistoryOk, DurableOk, FewerRoots, Settled, ReaderOk, WriterAgrees, ContentIs, Fill, ImagesOk, Exec,
         ObjectsEffect;
    FillPages(c, s.writer, s.store.dirty, layout, series, batch);
    ExecObjects(c, ForgetFault(s.store), Fill(StartDraft(s.writer), layout, series, s.writer.pending[series], batch).0.actions);
  }

  lemma RefreshFresh(c: Codec, s: Sim)
    requires Inv(c, s) && Fresh(c, s)
    ensures var n := RefreshStep(c, s); n.Some? && Inv(c, n.value) && Fresh(c, n.value) && OracleAgrees(c, n.value, s.writer.root)
  {
    FreshFacts(c, s);
    hide Inv, Fresh, OracleAgrees, Shows, DurableShows, HistoryOk, ImagesOk, Lands, RefreshReader;
    RefreshKeeps(c, s);
    SameFresh(c, s, RefreshStep(c, s).value);
  }

  lemma NoneToPublish(s: Sim, op: Op)
    requires HasRoot(s.writer) && !MayPublish(s, op)
    ensures Newest(s, op) == s.writer.root
  {
  }

  /** Every operation but a truncation, unless it is foiled, ends with nothing newer in any slot, and so undisturbed. */
  lemma StepFresh(c: Codec, s: Sim, op: Op, order: MarkOrder)
    requires Ready(s) && Inv(c, s) && Fresh(c, s) && KnownSeries(op, |s.model.points|) && !op.TruncateFile?
    requires !RootMixed(c, s, op) && !Foiled(c, s, op, order)
    ensures var n := Step(c, s, op, order); n.Some? && Inv(c, n.value) && Fresh(c, n.value) && OracleAgrees(c, n.value, Newest(s, op))
  {
    hide CheckpointStep, ReopenStep, RefreshStep, AppendStep, Inv, Fresh, OracleAgrees, RootMixed, Foiled;
    NotFoiled(c, s, op, order);
    hide RootCompleted, PostRootProcessCrash;
    if !s.writer.dirty || !(op.Checkpoint? || op.Reopen?) {
      NoneToPublish(s, op);
    }
    match op
    case Checkpoint(sync, layout) =>
      if s.writer.dirty { DirtyCheckpointFresh(c, s, op, order); } else { CleanCheckpointFresh(c, s, sync, layout, order); }
    case Reopen(layout) =>
      if s.writer.dirty { DirtyReopenFresh(c, s, op); } else { CleanReopenFresh(c, s, layout); }
    case Refresh => RefreshFresh(c, s);
    case Query => InvAgrees(c, s);
    case Append(series, arrivals, layout) => AppendFresh(c, s, series, arrivals, layout);
  }

  /**
   The result of one operation, told before it starts: the oracle agrees with both images afterwards exactly
   when neither the slot's old bytes complete a failed root write nor, as written, a process crash follows the root.
   */
  lemma StepTold(c: Codec, s: Sim, op: Op, order: MarkOrder)
    requires Ready(s) && Inv(c, s) && Fresh(c, s) && KnownSeries(op, |s.model.points|) && !op.TruncateFile?
    requires !RootMixed(c, s, op)
    ensures var n := Step(c, s, op, order);
            && n.Some?
            && (OracleAgrees(c, n.value, Newest(s, op)) <==> !Foiled(c, s, op, order))
            && (Disturbed(c, s, op, order) <==> Foiled(c, s, op, order))
            && (!Foiled(c, s, op, order) ==> Inv(c, n.value) && Fresh(c, n.value))
  {
    hide Step, Inv, Fresh, OracleAgrees, Disturbed, Foiled, RootMixed, RootForged, Newest;
    NotForged(c, s, op);
    StepExact(c, s, op, order);
    if Foiled(c, s, op, order) {
      FoiledDisturbs(c, s, op, order);
    } else {
      StepFresh(c, s, op, order);
    }
  }

  /** So what disturbs an operation that is not foiled is a root left in a slot, newer than any the oracle knows. */
  lemma OnlyStale(c: Codec, s: Sim, op: Op, order: MarkOrder)
    requires Ready(s) && Inv(c, s) && KnownSeries(op, |s.model.points|) && !op.TruncateFile? && !RootMixed(c, s, op)
    requires Disturbed(c, s, op, order) && !Foiled(c, s, op, order)
    ensures HistoryOk(s.model, s.writer.root) && s.writer.root.Root?
    ensures !Shows(c, s.store.dirty, s.writer.root.generation) || !DurableShows(c, s.store.durable, s.model, s.writer.root)
  {
    CountsWithin(c, s);
    hide Step, OracleAgrees, Disturbed, Foiled, RootMixed, Newest, HistoryOk, Shows, DurableShows, Carries;
    if Fresh(c, s) {
      StepTold(c, s, op, order);
    }
  }

  lemma FoiledDisturbs(c: Codec, s: Sim, op: Op, order: MarkOrder)
    requires Ready(s) && Inv(c, s) && Fresh(c, s) && KnownSeries(op, |s.model.points|) && Foiled(c, s, op, order)
    ensures Disturbed(c, s, op, order)
  {
    NextNew(c, s, op);
    hide Inv, Fresh, Revived, RootCompleted, Publishes;
  }

  /** No slot shows the root to be published. */
  lemma NextNew(c: Codec, s: Sim, op: Op)
    requires HasRoot(s.writer) && Fresh(c, s)
    ensures !NextStood(c, s, op)
  {
    hide DecodeSlot, HistoryOk, DurableShows;
  }

  // ---- Runs ----

  predicate Untruncated(ops: seq<Op>) {
    forall k :: 0 <= k < |ops| ==> !ops[k].TruncateFile?
  }

  /** No operation of the run is foiled. */
  ghost predicate NeverFoiled(c: Codec, s: Sim, ops: seq<Op>, order: MarkOrder)
    requires Ready(s) && KnownOps(ops, |s.model.points|)
    decreases |ops|
  {
    ops != [] ==>
      && !Foiled(c, s, ops[0], order)
      && var next := Step(c, s, ops[0], order);
         next.Some? ==> NeverFoiled(c, next.value, ops[1..], order)
  }

  /** No root write cut short leaves a root made of two. */
  ghost predicate NeverMixed(c: Codec, s: Sim, ops: seq<Op>, order: MarkOrder)
    requires Ready(s) && KnownOps(ops, |s.model.points|)
    decreases |ops|
  {
    ops != [] ==>
      && !RootMixed(c, s, ops[0])
      && var next := Step(c, s, ops[0], order);
         next.Some? ==> NeverMixed(c, next.value, ops[1..], order)
  }

  /** A run without truncations agrees at every boundary exactly when none of its operations is foiled. */
  lemma {:induction false} UntruncatedRun(c: Codec, s: Sim, ops: seq<Op>, order: MarkOrder)
    requires Ready(s) && Inv(c, s) && Fresh(c, s) && KnownOps(ops, |s.model.points|) && Untruncated(ops)
    requires NeverMixed(c, s, ops, order)
    ensures AgreesThroughout(c, s, ops, order) <==> NeverFoiled(c, s, ops, order)
    decreases |ops|
  {
    hide Step, Inv, Fresh, OracleAgrees, Disturbed, Foiled, RootMixed, Newest;
    if ops != [] {
      StepTold(c, s, ops[0], order);
      var next := Step(c, s, ops[0], order);
      if !Foiled(c, s, ops[0], order) {
        UntruncatedRun(c, next.value, ops[1..], order);
      }
    }
  }

  // ---- Scripts without short writes ----

  predicate NoShort(script: seq<Choice>) {
    forall k :: 0 <= k < |script| ==> !script[k].Short?
  }

  lemma {:induction false} ExecScript(c: Codec, s: Store, actions: seq<Action>)
    requires NoShort(s.script)
    ensures NoShort(Exec(c, s, actions).store.script)
  {
    hide Do, NoShort;
    if actions != [] {
      var before := Exec(c, s, actions[..|actions| - 1]);
      ExecScript(c, s, actions[..|actions| - 1]);
      DoScript(c, before.store, actions[|actions| - 1]);
    }
  }

  lemma DoScript(c: Codec, s: Store, action: Action)
    requires NoShort(s.script)
    ensures NoShort(Do(c, s, action).store.script)
  {
    hide Put;
  }

  lemma StepScript(c: Codec, s: Sim, op: Op, order: MarkOrder)
    requires Ready(s) && KnownSeries(op, |s.model.points|) && NoShort(s.store.script) && Step(c, s, op, order).Some?
    ensures NoShort(Step(c, s, op, order).value.store.script)
  {
    hide Exec, PlanCheckpoint, Fill, Batch, Open, RefreshReader, Fit, Restore, NoShort, Accepts;
    var store := ForgetFault(s.store);
    match op
    case TruncateFile =>
    case Checkpoint(sync, layout) => ExecScript(c, store, PlanCheckpoint(s.writer, sync, layout).actions);
    case Reopen(layout) => ExecScript(c, s.store, PlanCheckpoint(s.writer, false, layout).actions);
    case Refresh =>
    case Query =>
    case Append(series, arrivals, layout) =>
      ExecScript(c, store, Fill(StartDraft(s.writer), layout, series, s.writer.pending[series],
                                Batch(LastTimestamp(s.model.points[series]), arrivals)).0.actions);
  }

  /** Then no root write is cut short. */
  lemma NeverShort(c: Codec, s: Sim, op: Op, order: MarkOrder)
    requires HasRoot(s.writer) && NoShort(s.store.script)
    ensures !RootMixed(c, s, op) && (Foiled(c, s, op, order) <==> order == AfterSnapshot && PostRootProcessCrash(s, op))
  {
    hide PublishedRoot, Faultless, TornRoot, DecodeSlot, TailStands;
  }

  lemma {:induction false} NeverMixedShort(c: Codec, s: Sim, ops: seq<Op>, order: MarkOrder)
    requires Ready(s) && KnownOps(ops, |s.model.points|) && NoShort(s.store.script)
    ensures NeverMixed(c, s, ops, order)
    decreases |ops|
  {
    hide Step, RootMixed, Foiled;
    if ops != [] {
      NeverShort(c, s, ops[0], order);
      if Step(c, s, ops[0], order).Some? {
        StepScript(c, s, ops[0], order);
        NeverMixedShort(c, Step(c, s, ops[0], order).value, ops[1..], order);
      }
    }
  }

  lemma {:induction false} NeverFoiledBefore(c: Codec, s: Sim, ops: seq<Op>)
    requires Ready(s) && KnownOps(ops, |s.model.points|) && NoShort(s.store.script)
    ensures NeverFoiled(c, s, ops, BeforeSnapshot)
    decreases |ops|
  {
    hide Step, RootMixed, Foiled;
    if ops != [] {
      NeverShort(c, s, ops[0], BeforeSnapshot);
      if Step(c, s, ops[0], BeforeSnapshot).Some? {
        StepScript(c, s, ops[0], BeforeSnapshot);
        NeverFoiledBefore(c, Step(c, s, ops[0], BeforeSnapshot).value, ops[1..]);
      }
    }
  }

  /** No operation of the run, as written, draws a process crash in the sync after the root. */
  ghost predicate NeverCrashesAfterRoot(c: Codec, s: Sim, ops: seq<Op>)
    requires Ready(s) && KnownOps(ops, |s.model.points|)
    decreases |ops|
  {
    ops != [] ==>
      && !PostRootProcessCrash(s, ops[0])
      && var next := Step(c, s, ops[0], AfterSnapshot);
         next.Some? ==> NeverCrashesAfterRoot(c, next.value, ops[1..])
  }

  lemma {:induction false} FoiledAsWritten(c: Codec, s: Sim, ops: seq<Op>)
    requires Ready(s) && KnownOps(ops, |s.model.points|) && NoShort(s.store.script)
    ensures NeverFoiled(c, s, ops, AfterSnapshot) <==> NeverCrashesAfterRoot(c, s, ops)
    decreases |ops|
  {
    hide Step, RootMixed, Foiled, PostRootProcessCrash;
    if ops != [] {
      NeverShort(c, s, ops[0], AfterSnapshot);
      if Step(c, s, ops[0], AfterSnapshot).Some? {
        StepScript(c, s, ops[0], AfterSnapshot);
        FoiledAsWritten(c, Step(c, s, ops[0], AfterSnapshot).value, ops[1..]);
      }
    }
  }

  lemma StartFresh(c: Codec, count: nat, first: Sketch, script: seq<Choice>)
    ensures Fresh(c, Start(c, count, first, script))
  {
    CreatedStore(c, count, first, script);
    CreatedSlots(c, first);
    CreatedHistory(c, count, first, script);
    CreatedHolds(c, first);
    hide CreatedImage, DecodeSlot, HistoryOk, Holds, DurableRoot;
  }

  /** From a newly created file: whatever the coding, in the order as written and in the other. */
  lemma UntruncatedFromCreation(c: Codec, count: nat, first: Sketch, script: seq<Choice>, ops: seq<Op>, order: MarkOrder)
    requires KnownOps(ops, count) && Untruncated(ops)
    ensures var s := Start(c, count, first, script);
            NeverMixed(c, s, ops, order) ==> (AgreesThroughout(c, s, ops, order) <==> NeverFoiled(c, s, ops, order))
  {
    hide Inv, Fresh, NeverMixed, NeverFoiled, AgreesThroughout, Start;
    StartInv(c, count, first, script);
    StartFresh(c, count, first, script);
    if NeverMixed(c, Start(c, count, first, script), ops, order) {
      UntruncatedRun(c, Start(c, count, first, script), ops, order);
    }
  }

  /**
   Without truncations and short writes nothing is left to suppose. With the mark moved ahead of the snapshot
   every run agrees throughout; as written, exactly those in which no process crash follows the root.
   */
  lemma WholeWrites(c: Codec, count: nat, first: Sketch, script: seq<Choice>, ops: seq<Op>)
    requires KnownOps(ops, count) && Untruncated(ops) && NoShort(script)
    ensures var s := Start(c, count, first, script);
            && AgreesThroughout(c, s, ops, BeforeSnapshot)
            && (AgreesThroughout(c, s, ops, AfterSnapshot) <==> NeverCrashesAfterRoot(c, s, ops))
  {
    hide Inv, Fresh, NeverMixed, NeverFoiled, AgreesThroughout, Start, NeverCrashesAfterRoot, NoShort;
    var s := Start(c, count, first, script);
    CreatedStore(c, count, first, script);
    NeverMixedShort(c, s, ops, BeforeSnapshot);
    NeverMixedShort(c, s, ops, AfterSnapshot);
    NeverFoiledBefore(c, s, ops);
    FoiledAsWritten(c, s, ops);
    UntruncatedFromCreation(c, count, first, script, ops, BeforeSnapshot);
    UntruncatedFromCreation(c, count, first, script, ops, AfterSnapshot);
  }
}

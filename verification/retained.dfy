/**
 Where a revived root comes from: a slot showed it before the operation. No operation brings a root into a slot
 but the one it publishes.
 */
module Retained {
  import opened Options
  import opened Objects
  import opened Encodings
  import opened Storage
  import opened Engine
  import opened Images
  import opened Appender
  import opened Checkpoints
  import opened Oracle
  import opened Generations
  import opened Simulation
  import opened Agreement
  import opened Scripts
  import opened Publishing
  import opened Runs
  import opened FreshRuns

  /** A slot shows the root in one of the images. */
  ghost predicate ShownBefore(c: Codec, s: Store, k: nat, x: Object)
    requires k < SLOT_COUNT
  {
    || (|s.dirty| >= BLOCK_SIZE && DecodeSlot(c, s.dirty, k) == Some(x))
    || (|s.durable| >= BLOCK_SIZE && DecodeSlot(c, s.durable, k) == Some(x))
  }

  /** Every root the image shows the other image shows in the same slot, or it is the new one. */
  ghost predicate From(c: Codec, before: seq<Byte>, image: seq<Byte>, next: Option<Object>) {
    && |before| >= BLOCK_SIZE && |image| >= BLOCK_SIZE
    && forall k :: 0 <= k < SLOT_COUNT && DecodeSlot(c, image, k).Some? ==>
        DecodeSlot(c, image, k) == DecodeSlot(c, before, k) || DecodeSlot(c, image, k) == next
  }

  /** Its roots come from one of the old images, or the oracle counts the new root as the one of that generation. */
  ghost predicate Accounted(c: Codec, s: Store, image: seq<Byte>, newest: Object, history: seq<Snapshot>, generation: nat) {
    || From(c, s.dirty, image, None) || From(c, s.durable, image, None)
    || (From(c, s.dirty, image, Some(newest)) && WellFormedRoot(newest) && generation < |history| &&
        RootAt(newest, history[generation].endSize) == newest)
  }

  /** Nothing new is shown. */
  ghost predicate FromOld(c: Codec, s: Store, image: seq<Byte>) {
    From(c, s.dirty, image, None) || From(c, s.durable, image, None)
  }

  lemma FromItself(c: Codec, image: seq<Byte>)
    requires |image| >= BLOCK_SIZE
    ensures From(c, image, image, None)
  {
    hide DecodeSlot;
  }

  lemma FromExtended(c: Codec, s: seq<Byte>, before: seq<Byte>, after: seq<Byte>, next: Option<Object>)
    requires From(c, s, before, next) && before <= after
    ensures From(c, s, after, next)
  {
    hide DecodeSlot;
    FewerRootsAfterExtension(c, before, after, 0);
  }

  lemma FromCut(c: Codec, s: seq<Byte>, image: seq<Byte>, size: nat)
    requires From(c, s, image, None) && size >= BLOCK_SIZE
    ensures From(c, s, Cut(image, size), None)
  {
    hide DecodeSlot;
    CutDecodes(c, image, size);
  }

  lemma FromWhole(c: Codec, s: seq<Byte>, image: seq<Byte>, next: Object)
    requires From(c, s, image, None) && RootDecodes(next)
    ensures From(c, s, Put(image, c.encode(next), SlotOffset(SlotOf(next.generation))), Some(next))
  {
    hide DecodeSlot, Put;
    OtherSlotsKept(c, image, c.encode(next), SlotOf(next.generation));
    PublishedDecodes(c, image, next);
  }

  lemma FromTorn(c: Codec, s: seq<Byte>, image: seq<Byte>, next: Object, amount: nat)
    requires From(c, s, image, None) && RootDecodes(next) && amount <= SLOT_SIZE
    requires var y := TornRoot(c, image, next, amount); y.None? || y == DecodeSlot(c, image, SlotOf(next.generation))
    ensures From(c, s, Torn(c, image, next, amount), None)
  {
    hide DecodeSlot, Put;
    OtherSlotsKept(c, image, c.encode(next)[..amount], SlotOf(next.generation));
  }

  /** The root write, over an image that shows nothing new. */
  lemma FromRootWrite(c: Codec, s: seq<Byte>, t: Store, next: Object, draw: Choice)
    requires From(c, s, t.dirty, None) && RootDecodes(next) && Draw(t) == draw
    requires StoredShort(draw).Some? ==>
               var y := TornRoot(c, t.dirty, next, StoredShort(draw).value);
               y.None? || y == DecodeSlot(c, t.dirty, SlotOf(next.generation))
    ensures var after := PwriteAll(t, c.encode(next), SlotOffset(SlotOf(next.generation))).store;
            From(c, s, after.dirty, if draw.NoFault? then Some(next) else None)
  {
    hide Put, Torn, DecodeSlot, From, PwriteAll, TornRoot;
    RootCall(c, t, next);
    match draw
    case NoFault => FromWhole(c, s, t.dirty, next);
    case Short(k) => FromTorn(c, s, t.dirty, next, ShortAmount(k, SLOT_SIZE));
    case Crash(_) =>
    case FailWrite =>
  }

  /** The root an operation brings into a slot. */
  function Brought(s: Sim, op: Op): Option<Object>
    requires HasRoot(s.writer)
  {
    if Publishes(s, op) then Some(PublishedRoot(s.writer, op.layout)) else None
  }

  lemma RootDrawFrom(c: Codec, s: Sim, op: Op, t: Store)
    requires HasRoot(s.writer) && |s.store.dirty| >= BLOCK_SIZE && ReachesRoot(s, op) && !RootMixed(c, s, op)
    requires !RootCompleted(c, s, op)
    requires s.store.dirty <= t.dirty && Draw(t) == RootDraw(s, op) && RootDecodes(PublishedRoot(s.writer, op.layout))
    requires From(c, s.store.dirty, t.dirty, None)
    ensures From(c, s.store.dirty, Do(c, t, RootWrite(s.writer, op.layout)).store.dirty, Brought(s, op))
  {
    hide From, TornRoot, DecodeSlot, PublishedRoot, PwriteAll, TailStands, Faultless, RootDraw;
    var next, draw := PublishedRoot(s.writer, op.layout), RootDraw(s, op);
    if StoredShort(draw).Some? {
      TornRootLocal(c, s.store.dirty, t.dirty, next, StoredShort(draw).value);
      TornSlotDecodes(c, s.store.dirty, next, StoredShort(draw).value);
    }
    FromRootWrite(c, s.store.dirty, t, next, draw);
  }

  /** The volatile image once the calls of a checkpoint are made, all or some. */
  lemma PlanFrom(c: Codec, s: Sim, op: Op, store: Store)
    requires Inv(c, s) && MayPublish(s, op) && !RootMixed(c, s, op) && !RootCompleted(c, s, op)
    requires store == s.store || store == ForgetFault(s.store)
    ensures From(c, s.store.dirty, Exec(c, store, PlanCheckpoint(s.writer, Durably(op), op.layout).actions).store.dirty, Brought(s, op))
  {
    hide Carries, WriterAgrees, ReaderOk, HistoryOk, DurableOk, FewerRoots, Settled, WriterOk, Exec, PlanCheckpoint,
         ImagesOk, BeforeRoot, PublishedRoot, From, Faultless, Do, RootMixed, RootCompleted, Publishes, RootWrite,
         CheckpointReady, RootDecodes;
    var sync := Durably(op);
    var before := BeforeRoot(s.writer, sync, op.layout);
    ReadyHere(c, s, store);
    NotReached(s, op);
    NotBrought(s, op);
    CarriedIsLong(c, s.store.dirty, s.writer.root);
    NextRootDecodes(c, s.writer, s.store.dirty, op.layout);
    PlanIsPhases(s.writer, sync, op.layout);
    BeforeRootExtends(c, store, s.writer, sync, op.layout);
    ExecFollowsScript(c, store, before);
    var o := Exec(c, store, before);
    FromItself(c, s.store.dirty);
    FromExtended(c, s.store.dirty, s.store.dirty, o.store.dirty, None);
    ExecLast(c, store, before, RootWrite(s.writer, op.layout));
    SyncsKeepDirty(c, store, ThroughRoot(s.writer, sync, op.layout), sync);
    if o.ok {
      NextDrawn(c, store, before);
      RootDrawFrom(c, s, op, o.store);
    }
  }

  lemma NotBrought(s: Sim, op: Op)
    requires HasRoot(s.writer)
    ensures !ReachesRoot(s, op) ==> Brought(s, op).None?
  {
  }

  /** The durable image then: as it was, synced before the root, or synced after it. */
  lemma DurableFrom(c: Codec, s: Sim, op: Op, store: Store)
    requires Inv(c, s) && MayPublish(s, op) && |s.store.dirty| >= BLOCK_SIZE && |s.store.durable| >= BLOCK_SIZE
    requires !RootForged(c, s, op)
    requires store == s.store || store == ForgetFault(s.store)
    ensures var o := Exec(c, store, PlanCheckpoint(s.writer, Durably(op), op.layout).actions);
            || FromOld(c, s.store, o.store.durable)
            || (o.ok && Durably(op) && o.store.durable == o.store.dirty)
  {
    hide Carries, WriterAgrees, ReaderOk, HistoryOk, DurableOk, FewerRoots, Settled, WriterOk, Exec, PlanCheckpoint,
         ImagesOk, PublishedRoot, From, RootForged, Publishes, CarriesNext, OnlyRootMissing, Succeeds;
    ScriptedOutcome(c, s, op, store);
    FromItself(c, s.store.dirty);
    FromItself(c, s.store.durable);
    var t := Exec(c, store, PlanCheckpoint(s.writer, Durably(op), op.layout).actions).store;
    if SyncedBefore(c, store, t, s.writer.root) {
      FromExtended(c, s.store.dirty, s.store.dirty, t.durable, None);
    }
  }

  // ---- Operations ----

  /** Where an operation ends, every root in a slot is an old one, or the new one as the oracle has it. */
  ghost predicate AllFrom(c: Codec, s: Sim, newest: Object, n: Sim) {
    && Accounted(c, s.store, n.store.dirty, newest, n.model.history, n.model.current)
    && Accounted(c, s.store, n.store.durable, newest, n.model.history, n.model.durable)
  }

  lemma NothingBrought(c: Codec, s: Sim, newest: Object, n: Sim)
    requires FromOld(c, s.store, n.store.dirty) && FromOld(c, s.store, n.store.durable)
    ensures AllFrom(c, s, newest, n)
  {
    hide From;
  }

  /** Recovery keeps one image for both, or both as they are. */
  lemma RecoverFrom(c: Codec, s: Sim, newest: Object, t: Store, m: Model, power: bool)
    requires Shape(m) && Recover(c, t, m, power).Some?
    requires From(c, s.store.dirty, t.dirty, None) && FromOld(c, s.store, t.durable)
    ensures AllFrom(c, s, newest, Recover(c, t, m, power).value)
  {
    hide From, Open, Fit, Restore, AllFrom;
    NothingBrought(c, s, newest, Recover(c, t, m, power).value);
  }

  /** A process crash right after a snapshot of the root just published. */
  lemma RecoverPublished(c: Codec, s: Sim, next: Object, t: Store, m: Model)
    requires next.Root? && WellFormedRoot(next)
    requires Shape(m) && m.history[m.current].endSize == |t.dirty| == next.committed
    requires Recover(c, t, m, false).Some?
    requires From(c, s.store.dirty, t.dirty, Some(next)) && FromOld(c, s.store, t.durable)
    ensures AllFrom(c, s, next, Recover(c, t, m, false).value)
  {
    hide From, Open, RootAt;
    RootAtSelf(next, next.committed);
  }

  lemma LongImages(c: Codec, s: Sim)
    requires Inv(c, s)
    ensures HasRoot(s.writer) && |s.store.dirty| >= BLOCK_SIZE && |s.store.durable| >= BLOCK_SIZE
    ensures From(c, s.store.dirty, s.store.dirty, None) && FromOld(c, s.store, s.store.durable)
    ensures Shape(s.model) && s.model.history[0].endSize >= BLOCK_SIZE
  {
    CountsWithin(c, s);
    FromItself(c, s.store.dirty);
    FromItself(c, s.store.durable);
    Extents(s.model, s.writer.root, s.model.current, s.model.current);
  }

  lemma CheckpointFrom(c: Codec, s: Sim, op: Op, order: MarkOrder)
    requires op.Checkpoint? && Inv(c, s) && !RootMixed(c, s, op) && !RootCompleted(c, s, op)
    requires CheckpointStep(c, s, op.sync, op.layout, order).Some?
    ensures AllFrom(c, s, Newest(s, op), CheckpointStep(c, s, op.sync, op.layout, order).value)
  {
    hide RootMixed, RootCompleted, AllFrom, CheckpointStep;
    if s.writer.dirty {
      if Exec(c, ForgetFault(s.store), PlanCheckpoint(s.writer, op.sync, op.layout).actions).ok {
        FinishedFrom(c, s, op, order);
      } else {
        UnfinishedFrom(c, s, op, order);
      }
    } else {
      NoneToPublish(s, op);
      CleanFrom(c, s, op, order);
    }
  }

  lemma CleanFrom(c: Codec, s: Sim, op: Op, order: MarkOrder)
    requires op.Checkpoint? && Inv(c, s) && !s.writer.dirty && CheckpointStep(c, s, op.sync, op.layout, order).Some?
    ensures AllFrom(c, s, s.writer.root, CheckpointStep(c, s, op.sync, op.layout, order).value)
  {
    LongImages(c, s);
    CleanCheckpointStore(c, ForgetFault(s.store), s.writer, op.sync, op.layout);
    hide Inv, From, AllFrom, Exec, PlanCheckpoint, Recover, AfterFailedCheckpoint;
    var o := Exec(c, ForgetFault(s.store), PlanCheckpoint(s.writer, op.sync, op.layout).actions);
    if o.ok {
      NothingBrought(c, s, s.writer.root, CheckpointStep(c, s, op.sync, op.layout, order).value);
    } else {
      RecoverFrom(c, s, s.writer.root, o.store, AfterFailedCheckpoint(s.model, o.store, order), PowerLost(o.store));
    }
  }

  /** What is needed of a checkpoint's outcome. */
  lemma EffectFacts(c: Codec, s: Store, o: Outcome, r: Object, next: Object, sync: bool, through: bool)
    requires CheckpointEffect(c, s, o, r, next, sync, through)
    ensures o.ok ==> through && o.store.durable == if sync then o.store.dirty else s.durable
    ensures through ==> next.Root? && WellFormedRoot(next) && next.committed == |o.store.dirty|
    ensures !o.ok && through && !PowerLost(o.store) ==> CrashedAfterPublish(o.store)
  {
    hide FewerRoots, OtherSlotsSame, SyncedBefore, OnlyRootMissing, Unpublished, WellFormedRoot;
    if through {
      CarriedWellFormed(c, o.store.dirty, next);
    }
  }

  lemma FinishedStep(c: Codec, s: Sim, op: Op, order: MarkOrder)
    requires op.Checkpoint? && Ready(s)
    requires Exec(c, ForgetFault(s.store), PlanCheckpoint(s.writer, op.sync, op.layout).actions).ok
    ensures var t := Exec(c, ForgetFault(s.store), PlanCheckpoint(s.writer, op.sync, op.layout).actions).store;
            var n := CheckpointStep(c, s, op.sync, op.layout, order);
            n.Some? && n.value.store == t && n.value.model == TakeSnapshot(s.model, |t.dirty|, op.sync)
  {
  }

  lemma FinishedFrom(c: Codec, s: Sim, op: Op, order: MarkOrder)
    requires op.Checkpoint? && Inv(c, s) && s.writer.dirty && !RootMixed(c, s, op) && !RootCompleted(c, s, op)
    requires Exec(c, ForgetFault(s.store), PlanCheckpoint(s.writer, op.sync, op.layout).actions).ok
    ensures CheckpointStep(c, s, op.sync, op.layout, order).Some?
    ensures AllFrom(c, s, Newest(s, op), CheckpointStep(c, s, op.sync, op.layout, order).value)
  {
    LongImages(c, s);
    NotForged(c, s, op);
    var store, next := ForgetFault(s.store), PublishedRoot(s.writer, op.layout);
    var o := Exec(c, store, PlanCheckpoint(s.writer, op.sync, op.layout).actions);
    FinishedStep(c, s, op, order);
    hide Inv, From, RootMixed, RootForged, RootCompleted, Exec, PublishedRoot, PlanCheckpoint, Publishes,
         CheckpointEffect, AllFrom, WellFormedRoot, CheckpointStep, HasPages;
    ScriptedOutcome(c, s, op, store);
    EffectFacts(c, store, o, s.writer.root, next, op.sync, Publishes(s, op));
    PlanFrom(c, s, op, store);
    SnapshotFrom(c, s, CheckpointStep(c, s, op.sync, op.layout, order).value, next, op.sync);
  }

  /** A snapshot of a published root accounts for it. */
  lemma SnapshotFrom(c: Codec, s: Sim, n: Sim, next: Object, sync: bool)
    requires From(c, s.store.dirty, n.store.dirty, Some(next)) && FromOld(c, s.store, s.store.durable)
    requires next.Root? && WellFormedRoot(next) && next.committed == |n.store.dirty|
    requires n.store.durable == if sync then n.store.dirty else s.store.durable
    requires n.model.history == TakeSnapshot(s.model, |n.store.dirty|, sync).history
    requires n.model.current == |s.model.history| && (sync ==> n.model.durable == n.model.current)
    ensures AllFrom(c, s, next, n)
  {
    hide From, RootAt;
    RootAtSelf(next, next.committed);
  }

  lemma UnfinishedFrom(c: Codec, s: Sim, op: Op, order: MarkOrder)
    requires op.Checkpoint? && Inv(c, s) && s.writer.dirty && !RootMixed(c, s, op) && !RootCompleted(c, s, op)
    requires !Exec(c, ForgetFault(s.store), PlanCheckpoint(s.writer, op.sync, op.layout).actions).ok
    requires CheckpointStep(c, s, op.sync, op.layout, order).Some?
    ensures AllFrom(c, s, Newest(s, op), CheckpointStep(c, s, op.sync, op.layout, order).value)
  {
    LongImages(c, s);
    NotForged(c, s, op);
    var store, next := ForgetFault(s.store), PublishedRoot(s.writer, op.layout);
    var o := Exec(c, store, PlanCheckpoint(s.writer, op.sync, op.layout).actions);
    hide Inv, From, RootMixed, RootForged, RootCompleted, Exec, PublishedRoot, PlanCheckpoint, Publishes,
         CheckpointEffect, AllFrom, WellFormedRoot, Recover, AfterFailedCheckpoint;
    ScriptedOutcome(c, s, op, store);
    EffectFacts(c, store, o, s.writer.root, next, op.sync, Publishes(s, op));
    PlanFrom(c, s, op, store);
    DurableFrom(c, s, op, store);
    FailedFrom(c, s, Newest(s, op), o.store, order, Publishes(s, op));
  }

  /** Recovery from a failed checkpoint, whether it published its root or not. */
  lemma FailedFrom(c: Codec, s: Sim, newest: Object, t: Store, order: MarkOrder, published: bool)
    requires Shape(s.model) && Recover(c, t, AfterFailedCheckpoint(s.model, t, order), PowerLost(t)).Some?
    requires From(c, s.store.dirty, t.dirty, if published then Some(newest) else None) && FromOld(c, s.store, t.durable)
    requires published ==> newest.Root? && WellFormedRoot(newest) && newest.committed == |t.dirty|
    requires published && !PowerLost(t) ==> CrashedAfterPublish(t)
    ensures AllFrom(c, s, newest, Recover(c, t, AfterFailedCheckpoint(s.model, t, order), PowerLost(t)).value)
  {
    hide From, AllFrom, WellFormedRoot, Recover;
    var after := AfterFailedCheckpoint(s.model, t, order);
    if PowerLost(t) {
      RecoverLost(c, s, newest, t, after);
    } else if published {
      RecoverPublished(c, s, newest, t, after);
    } else {
      RecoverFrom(c, s, newest, t, after, false);
    }
  }

  lemma RecoverLost(c: Codec, s: Sim, newest: Object, t: Store, m: Model)
    requires Shape(m) && Recover(c, t, m, true).Some? && FromOld(c, s.store, t.durable)
    ensures AllFrom(c, s, newest, Recover(c, t, m, true).value)
  {
    hide From, Open, Fit, Restore, AllFrom;
    NothingBrought(c, s, newest, Recover(c, t, m, true).value);
  }

  lemma ReopenFrom(c: Codec, s: Sim, op: Op)
    requires op.Reopen? && Inv(c, s) && !RootMixed(c, s, op) && !RootCompleted(c, s, op)
    requires ReopenStep(c, s, op.layout).Some?
    ensures AllFrom(c, s, Newest(s, op), ReopenStep(c, s, op.layout).value)
  {
    LongImages(c, s);
    NotForged(c, s, op);
    var o := Exec(c, s.store, PlanCheckpoint(s.writer, false, op.layout).actions);
    if !s.writer.dirty {
      NoneToPublish(s, op);
      CleanCheckpointStore(c, s.store, s.writer, false, op.layout);
      hide Inv, From, AllFrom, Exec, PlanCheckpoint, Recover, Reopened;
      ReopenedShape(c, s.store, TakeSnapshot(s.model, |s.store.dirty|, false));
      NothingBrought(c, s, s.writer.root, ReopenStep(c, s, op.layout).value);
    } else {
      hide Inv, From, RootMixed, RootForged, RootCompleted, Exec, PublishedRoot, PlanCheckpoint, Publishes,
           CheckpointEffect, AllFrom, WellFormedRoot, Recover, Reopened;
      ScriptedOutcome(c, s, op, s.store);
      EffectFacts(c, s.store, o, s.writer.root, PublishedRoot(s.writer, op.layout), false, Publishes(s, op));
      ReopenDurable(c, s, op);
      PlanFrom(c, s, op, s.store);
      if o.ok {
        ReopenedShape(c, o.store, TakeSnapshot(s.model, |o.store.dirty|, false));
        SnapshotFrom(c, s, ReopenStep(c, s, op.layout).value, PublishedRoot(s.writer, op.layout), false);
      } else {
        RecoverFrom(c, s, Newest(s, op), o.store, s.model, PowerLost(o.store));
      }
    }
  }

  lemma ReopenDurable(c: Codec, s: Sim, op: Op)
    requires op.Reopen? && Inv(c, s) && s.writer.dirty && |s.store.dirty| >= BLOCK_SIZE && !RootForged(c, s, op)
    ensures var o := Exec(c, s.store, PlanCheckpoint(s.writer, false, op.layout).actions);
            o.store.durable == s.store.durable && (!o.ok ==> !Publishes(s, op))
  {
    hide Inv, RootForged, Exec, PublishedRoot, PlanCheckpoint, Publishes, CarriesNext, Unpublished, PublishedUnsynced;
    ScriptedOutcome(c, s, op, s.store);
  }

  lemma AppendFrom(c: Codec, s: Sim, op: Op)
    requires op.Append? && Inv(c, s) && op.series < |s.model.points|
    requires AppendStep(c, s, op.series, op.arrivals, op.layout).Some?
    ensures AllFrom(c, s, s.writer.root, AppendStep(c, s, op.series, op.arrivals, op.layout).value)
  {
    LongImages(c, s);
    BatchAccepted(c, s, op.series, op.arrivals);
    var batch := Batch(LastTimestamp(s.model.points[op.series]), op.arrivals);
    var store := ForgetFault(s.store);
    var actions := Fill(StartDraft(s.writer), op.layout, op.series, s.writer.pending[op.series], batch).0.actions;
    FillEffect(c, s, op.layout, op.series, batch);
    var t := Exec(c, store, actions).store;
    hide Inv, From, AllFrom, Exec, Recover, Fill, Batch, Accepts;
    FromExtended(c, s.store.dirty, s.store.dirty, t.dirty, None);
    if batch == [] || Exec(c, store, actions).ok {
      NothingBrought(c, s, s.writer.root, AppendStep(c, s, op.series, op.arrivals, op.layout).value);
    } else {
      RecoverFrom(c, s, s.writer.root, t, s.model, PowerLost(t));
    }
  }

  lemma TruncateFrom(c: Codec, s: Sim)
    requires Inv(c, s) && TruncateStep(c, s).Some?
    ensures AllFrom(c, s, s.writer.root, TruncateStep(c, s).value)
  {
    LongImages(c, s);
    hide Inv, From, AllFrom, Recover;
    var size := TruncatedSize(s.model, |s.store.dirty|);
    if size.None? {
      NothingBrought(c, s, s.writer.root, s);
    } else {
      LongEnough(c, s, size.value);
      FromCut(c, s.store.dirty, s.store.dirty, size.value);
      FromCut(c, s.store.durable, s.store.durable, size.value);
      RecoverFrom(c, s, s.writer.root, TruncateStore(s.store, size.value), s.model, false);
    }
  }

  lemma LongEnough(c: Codec, s: Sim, size: nat)
    requires Inv(c, s) && TruncatedSize(s.model, |s.store.dirty|) == Some(size)
    ensures size >= BLOCK_SIZE
  {
    Extents(s.model, s.writer.root, s.model.current - 1, s.model.current);
  }

  lemma RefreshFrom(c: Codec, s: Sim)
    requires Inv(c, s) && RefreshStep(c, s).Some?
    ensures AllFrom(c, s, s.writer.root, RefreshStep(c, s).value)
  {
    LongImages(c, s);
    hide Inv, From, AllFrom, RefreshReader;
    NothingBrought(c, s, s.writer.root, RefreshStep(c, s).value);
  }

  lemma StepFrom(c: Codec, s: Sim, op: Op, order: MarkOrder)
    requires Ready(s) && Inv(c, s) && KnownSeries(op, |s.model.points|) && Step(c, s, op, order).Some?
    requires !RootMixed(c, s, op) && !RootCompleted(c, s, op)
    ensures AllFrom(c, s, Newest(s, op), Step(c, s, op, order).value)
  {
    hide TruncateStep, CheckpointStep, ReopenStep, RefreshStep, AppendStep, Inv, AllFrom, RootMixed, RootCompleted;
    if !MayPublish(s, op) {
      NoneToPublish(s, op);
    }
    match op
    case TruncateFile => TruncateFrom(c, s);
    case Checkpoint(sync, layout) => CheckpointFrom(c, s, op, order);
    case Reopen(layout) => ReopenFrom(c, s, op);
    case Refresh => RefreshFrom(c, s);
    case Query => QueryFrom(c, s);
    case Append(series, arrivals, layout) => AppendFrom(c, s, op);
  }

  lemma QueryFrom(c: Codec, s: Sim)
    requires Inv(c, s)
    ensures AllFrom(c, s, s.writer.root, s)
  {
    LongImages(c, s);
    hide Inv, From, AllFrom;
    NothingBrought(c, s, s.writer.root, s);
  }

  // ---- What reviving is ----

  /** A root that a slot showed before stands in the image, newer than the one of the generation. */
  ghost predicate OldStands(c: Codec, s: Store, image: seq<Byte>, m: Model, newest: Object, generation: nat) {
    && WellFormedRoot(newest) && generation < |m.history| && |image| >= BLOCK_SIZE
    && exists k :: 0 <= k < SLOT_COUNT && OldRoot(c, s, image, k) &&
         Candidate(c, image, k).value.generation > RootAt(newest, m.history[generation].endSize).generation
  }

  /** The slot's root stands whole in the image, and the slot showed it before. */
  ghost predicate OldRoot(c: Codec, s: Store, image: seq<Byte>, k: nat)
    requires |image| >= BLOCK_SIZE && k < SLOT_COUNT
  {
    Standing(c, image, k) && ShownBefore(c, s, k, Candidate(c, image, k).value)
  }

  /** What the operation left revives a root that a slot showed before it started. */
  ghost predicate Restored(c: Codec, s: Sim, op: Op, order: MarkOrder)
    requires Ready(s) && KnownSeries(op, |s.model.points|)
  {
    var n := Step(c, s, op, order);
    && n.Some? && !RootCompleted(c, s, op)
    && (|| OldStands(c, s.store, n.value.store.dirty, n.value.model, Newest(s, op), n.value.model.current)
        || OldStands(c, s.store, n.value.store.durable, n.value.model, Newest(s, op), n.value.model.durable))
  }

  lemma NewerIsOld(c: Codec, s: Store, image: seq<Byte>, m: Model, newest: Object, generation: nat)
    requires Accounted(c, s, image, newest, m.history, generation)
    ensures NewerStands(c, image, m, newest, generation) <==> OldStands(c, s, image, m, newest, generation)
  {
    hide RootAt, Follows, ManifestLoads, DecodeSlot;
    if NewerStands(c, image, m, newest, generation) {
      var k :| 0 <= k < SLOT_COUNT && Standing(c, image, k) &&
               Candidate(c, image, k).value.generation > RootAt(newest, m.history[generation].endSize).generation;
      CandidateShown(c, image, k);
      assert OldRoot(c, s, image, k);
    }
  }

  lemma CandidateShown(c: Codec, image: seq<Byte>, k: nat)
    requires |image| >= BLOCK_SIZE && k < SLOT_COUNT && Candidate(c, image, k).Some?
    ensures DecodeSlot(c, image, k) == Candidate(c, image, k)
  {
  }

  /** A root is revived exactly when a slot showed it before the operation: nothing else can come to stand. */
  lemma RevivedMeans(c: Codec, s: Sim, op: Op, order: MarkOrder)
    requires Ready(s) && Inv(c, s) && KnownSeries(op, |s.model.points|) && !RootMixed(c, s, op)
    ensures Revived(c, s, op, order) <==> Restored(c, s, op, order)
  {
    hide Step, Inv, RootMixed, RootCompleted, NewerStands, OldStands, Accounted, Newest;
    if Step(c, s, op, order).Some? && !RootCompleted(c, s, op) {
      StepFrom(c, s, op, order);
      var n := Step(c, s, op, order).value;
      NewerIsOld(c, s.store, n.store.dirty, n.model, Newest(s, op), n.model.current);
      NewerIsOld(c, s.store, n.store.durable, n.model, Newest(s, op), n.model.durable);
    }
  }
}

/**
 What revives a root, told before the operation: the bytes its calls will lay over the image, as far as the
 script lets them finish, spell the manifest of a newer root that a slot still shows, and the root before it.
 */
module Told {
  import opened Options
  import opened Objects
  import opened Encodings
  import opened Storage
  import opened Engine
  import opened Images
  import opened Appender
  import opened Checkpoints
  import opened Oracle
  import opened Generations
  import opened Simulation
  import opened Agreement
  import opened Scripts
  import opened Publishing
  import opened Runs
  import opened FreshRuns
  import opened Retained
  import opened Bounds
  import opened FailingRuns

  // ---- The bytes a script lets the calls lay ----

  /** What one call leaves of the image when it draws this choice: a write cut short leaves a torn prefix. */
  function LaidCall(c: Codec, image: seq<Byte>, action: Action, draw: Choice): seq<Byte> {
    match action
    case SyncFile => image
    case Write(item, offset) =>
      var bytes := c.encode(item);
      match draw
      case NoFault => Put(image, bytes, offset)
      case Short(k) => Put(image, if |bytes| > 1 then bytes[..ShortAmount(k, |bytes|)] else bytes, offset)
      case Crash(_) => image
      case FailWrite => image
  }

  /** The image under the calls, up to and including the first that fails. */
  function Laid(c: Codec, image: seq<Byte>, actions: seq<Action>, script: seq<Choice>): seq<Byte> {
    if actions == [] then image
    else
      var n := |actions| - 1;
      var before := Laid(c, image, actions[..n], script);
      if Faultless(script, actions[..n]) then LaidCall(c, before, actions[n], NthDraw(script, n)) else before
  }

  /** The first call that fails does so by a loss of power. */
  predicate LosesPower(script: seq<Choice>, actions: seq<Action>) {
    actions != [] &&
    var n := |actions| - 1;
    || LosesPower(script, actions[..n])
    || (Faultless(script, actions[..n]) && NthDraw(script, n) == Choice.Crash(true))
  }

  lemma DoLays(c: Codec, s: Store, action: Action)
    requires s.faultsEnabled
    ensures var o := Do(c, s, action);
            && o.store.dirty == LaidCall(c, s.dirty, action, Draw(s))
            && (!o.ok ==> (PowerLost(o.store) <==> Draw(s) == Choice.Crash(true)))
  {
    hide Put;
  }

  /** Storage does with the calls what the script tells. */
  lemma {:induction false} ExecLays(c: Codec, s: Store, actions: seq<Action>)
    requires s.faultsEnabled
    ensures var o := Exec(c, s, actions);
            && o.store.dirty == Laid(c, s.dirty, actions, s.script)
            && (LosesPower(s.script, actions) <==> !o.ok && PowerLost(o.store))
  {
    hide Do, LaidCall, Faultless, Draw, PowerLost;
    if actions != [] {
      var rest, last := actions[..|actions| - 1], actions[|actions| - 1];
      assert actions == rest + [last];
      ExecLays(c, s, rest);
      ExecFollowsScript(c, s, rest);
      ExecLast(c, s, rest, last);
      var o := Exec(c, s, rest);
      if o.ok {
        NextDrawn(c, s, rest);
        DoFollowsDraw(c, o.store, last);
        DoLays(c, o.store, last);
        CrashHarms(last);
      }
    }
  }

  lemma CrashHarms(action: Action)
    ensures !Harmless(action, Choice.Crash(true))
  {
  }

  /** The calls the engine makes for the operation. */
  function Calls(s: Sim, op: Op): seq<Action>
    requires Ready(s) && KnownSeries(op, |s.model.points|)
  {
    match op
    case Checkpoint(sync, layout) => PlanCheckpoint(s.writer, sync, layout).actions
    case Reopen(layout) => PlanCheckpoint(s.writer, false, layout).actions
    case Append(series, arrivals, layout) =>
      Fill(StartDraft(s.writer), layout, series, s.writer.pending[series],
           Batch(LastTimestamp(s.model.points[series]), arrivals)).0.actions
    case TruncateFile => []
    case Refresh => []
    case Query => []
  }

  /** The volatile image they leave. */
  function LeftImage(c: Codec, s: Sim, op: Op): seq<Byte>
    requires Ready(s) && KnownSeries(op, |s.model.points|)
  {
    Laid(c, s.store.dirty, Calls(s, op), s.store.script)
  }

  /** The image that the new root is written over: its objects, and a sync if one is asked for. */
  function RootlessImage(c: Codec, s: Sim, op: Op): seq<Byte>
    requires HasRoot(s.writer) && MayPublish(s, op)
  {
    Laid(c, s.store.dirty, BeforeRoot(s.writer, Durably(op), op.layout), s.store.script)
  }

  // ---- The roots they spell ----

  /**
   A root that a slot showed before, newer than `generation`, is shown still; and its whole manifest and the
   root before it stand in the image.
   */
  ghost predicate SpellsOld(c: Codec, before: seq<Byte>, image: seq<Byte>, generation: nat) {
    && |before| >= BLOCK_SIZE && |image| >= BLOCK_SIZE
    && exists k :: 0 <= k < SLOT_COUNT && Standing(c, image, k) &&
         DecodeSlot(c, before, k) == Candidate(c, image, k) && Candidate(c, image, k).value.generation > generation
  }

  /** The calls sync the objects of the new root and then do not all finish, so what was synced stays durable. */
  predicate SyncedOnlyBefore(s: Sim, op: Op, order: MarkOrder)
    requires Ready(s) && KnownSeries(op, |s.model.points|)
  {
    && Durably(op) && ReachesRoot(s, op) && !Faultless(s.store.script, Calls(s, op))
    && !(order == AfterSnapshot && PostRootProcessCrash(s, op))
  }

  /**
   The operation writes a newer root's manifest and predecessor anew: in the image it leaves, unless power is
   lost, or in the one it synced ahead of its own root.
   */
  ghost predicate Respelled(c: Codec, s: Sim, op: Op, order: MarkOrder)
    requires Ready(s) && KnownSeries(op, |s.model.points|)
  {
    || (&& !LosesPower(s.store.script, Calls(s, op))
        && SpellsOld(c, s.store.dirty, LeftImage(c, s, op), Newest(s, op).generation))
    || (&& SyncedOnlyBefore(s, op, order)
        && SpellsOld(c, s.store.dirty, RootlessImage(c, s, op), s.writer.root.generation))
  }

  /** A newer root stands exactly when it is such an old one: the operation brings no other into a slot. */
  lemma StandsIsSpelled(c: Codec, before: seq<Byte>, image: seq<Byte>, next: Option<Object>, generation: nat)
    requires From(c, before, image, next) && (next.Some? ==> next.value.Root? && next.value.generation <= generation)
    ensures Overtaken(c, image, generation) <==> SpellsOld(c, before, image, generation)
  {
    hide DecodeSlot, Follows, ManifestLoads;
    if Overtaken(c, image, generation) {
      var k :| 0 <= k < SLOT_COUNT && Standing(c, image, k) && Candidate(c, image, k).value.generation > generation;
      CandidateShown(c, image, k);
    }
  }

  // ---- Which roots the oracle names ----

  /** Counting from the newest root, the oracle's current and durable generations stand for these two. */
  ghost predicate Names(m: Model, newest: Object, top: Object, mark: Object) {
    && Shape(m) && WellFormedRoot(newest)
    && RootAt(newest, m.history[m.current].endSize) == top
    && RootAt(newest, m.history[m.durable].endSize) == mark
  }

  lemma NamesHere(m: Model, r: Object)
    requires HistoryOk(m, r)
    ensures Names(m, r, r, DurableRoot(m, r))
  {
    Extents(m, r, m.current, m.current);
    RootAtSelf(r, m.history[m.current].endSize);
  }

  /** Seen from a root published on top of `r`, the oracle still names the same two. */
  lemma NamesBelow(m: Model, r: Object, next: Object)
    requires HistoryOk(m, r) && WellFormedRoot(next) && next.Root? && next.previous == Some(r)
    requires next.committed > m.history[m.current].endSize
    ensures Names(m, next, r, DurableRoot(m, r))
  {
    NamesHere(m, r);
    Extents(m, r, m.current, m.current);
    Extents(m, r, m.durable, m.current);
    RootBelow(next, r, m.history[m.current].endSize);
    RootBelow(next, r, m.history[m.durable].endSize);
  }

  lemma NamesMarked(m: Model, newest: Object, top: Object, mark: Object, became: bool)
    requires Names(m, newest, top, mark)
    ensures Names(MarkDurable(m, became), newest, top, if became then top else mark)
  {
  }

  lemma NamesSnapshot(m: Model, newest: Object, top: Object, mark: Object, size: nat, sync: bool)
    requires Names(m, newest, top, mark) && newest.Root? && newest.committed <= size
    ensures Names(TakeSnapshot(m, size, sync), newest, newest, if sync then newest else mark)
  {
    RootAtSelf(newest, size);
  }

  lemma NamesSame(m: Model, n: Model, newest: Object, top: Object, mark: Object)
    requires Names(m, newest, top, mark) && Shape(n)
    requires n.history == m.history && n.current == m.current && n.durable == m.durable
    ensures Names(n, newest, top, mark)
  {
  }

  /** Recovery keeps the roots named, and the image the crash left. */
  lemma NamesRecovered(c: Codec, t: Store, m: Model, power: bool, newest: Object, top: Object, mark: Object)
    requires Names(m, newest, top, mark) && Recover(c, t, m, power).Some?
    requires m.history[m.durable].endSize <= |t.durable| && (!power ==> m.history[m.current].endSize <= |t.dirty|)
    ensures var n := Recover(c, t, m, power).value;
            && Names(n.model, newest, if power then mark else top, mark)
            && n.store.dirty == (if power then t.durable else t.dirty) && n.store.durable == t.durable
  {
    hide Open, RootAt;
    RecoveryStops(c, t, m, power);
  }

  /** What stands newer, where the roots named are known. */
  lemma NewerByName(c: Codec, n: Sim, newest: Object, top: Object, mark: Object)
    requires Names(n.model, newest, top, mark) && |n.store.dirty| >= BLOCK_SIZE && |n.store.durable| >= BLOCK_SIZE
    ensures top.Root? && mark.Root?
    ensures NewerStands(c, n.store.dirty, n.model, newest, n.model.current) <==> Overtaken(c, n.store.dirty, top.generation)
    ensures NewerStands(c, n.store.durable, n.model, newest, n.model.durable) <==> Overtaken(c, n.store.durable, mark.generation)
  {
    hide Overtaken, RootAt;
    RootIsRoot(top);
    RootIsRoot(mark);
  }

  // ---- Where an operation starts ----

  /** Nothing newer than the roots named stands where an operation starts, and the extents fit. */
  lemma StartsQuiet(c: Codec, s: Sim)
    requires Inv(c, s)
    ensures HistoryOk(s.model, s.writer.root) && s.writer.root.Root? && WellFormedRoot(s.writer.root)
    ensures |s.store.dirty| >= BLOCK_SIZE && |s.store.durable| >= BLOCK_SIZE && s.store.faultsEnabled
    ensures !Overtaken(c, s.store.dirty, s.writer.root.generation)
    ensures var mark := DurableRoot(s.model, s.writer.root);
            mark.Root? && mark.generation <= s.writer.root.generation && !Overtaken(c, s.store.durable, mark.generation)
    ensures Bounded(s)
  {
    CountsWithin(c, s);
    Extents(s.model, s.writer.root, s.model.current, s.model.current);
    hide Carries, Overtaken, WriterAgrees, ReaderOk, HistoryOk, FewerRoots, WellFormedRoot, RootAt;
    RootIsRoot(DurableRoot(s.model, s.writer.root));
    HistoryIsOk(s.model, s.writer.root);
  }

  lemma HistoryIsOk(m: Model, r: Object)
    requires HistoryOk(m, r)
    ensures ModelOk(m) && m.history[0].endSize >= BLOCK_SIZE
  {
  }

  /** The durable image as it was shows nothing newer than either mark it may get. */
  lemma DurableQuiet(c: Codec, s: Sim, mark: Object)
    requires Inv(c, s) && mark.Root?
    requires mark == s.writer.root || (HistoryOk(s.model, s.writer.root) && mark == DurableRoot(s.model, s.writer.root))
    ensures |s.store.durable| >= BLOCK_SIZE && !Overtaken(c, s.store.durable, mark.generation)
  {
    StartsQuiet(c, s);
    hide Inv, Overtaken;
    var low := DurableRoot(s.model, s.writer.root);
    if Overtaken(c, s.store.durable, mark.generation) {
      LowerOvertaken(c, s.store.durable, mark.generation, low.generation);
    }
  }

  // ---- What a checkpoint's calls leave ----

  /** Up to the root write, a checkpoint with syncs either syncs its objects or leaves the durable image alone. */
  lemma BeforeRootDurable(c: Codec, store: Store, w: Writer, layout: Layout)
    requires HasRoot(w) && CheckpointReady(c, store, w)
    ensures var b := Exec(c, store, BeforeRoot(w, true, layout));
            if b.ok then b.store.durable == b.store.dirty && b.store.priorGenerationBecameDurable
            else b.store.durable == store.durable
  {
    hide Carries, Succeeds, FewerRoots, ObjectsDraft, PublishedRoot, Exec, WriterOk;
    var objects := ObjectsDraft(w, layout).actions;
    ObjectsThenSync(c, store, w, true, layout);
    ObjectsPhase(c, store, w, layout);
    ExecLast(c, store, objects, SyncFile);
  }

  /** After that, a call that fails leaves the durable image as it was synced. */
  lemma SyncedDurable(c: Codec, store: Store, w: Writer, layout: Layout)
    requires HasRoot(w) && CheckpointReady(c, store, w) && w.dirty && store.faultsEnabled
    ensures var b, o := Exec(c, store, BeforeRoot(w, true, layout)), Exec(c, store, PlanCheckpoint(w, true, layout).actions);
            && (o.ok ==> o.store.durable == o.store.dirty)
            && (!o.ok ==> o.store.durable == if b.ok then b.store.dirty else store.durable)
            && (b.ok && !o.ok ==> o.store.priorGenerationBecameDurable)
  {
    hide CheckpointReady, PublishedRoot, Exec, BeforeRoot, PlanCheckpoint, PwriteAll;
    var before, next := BeforeRoot(w, true, layout), PublishedRoot(w, layout);
    BeforeRootDurable(c, store, w, layout);
    SyncedAlike(c, store, w, layout);
    PlanIsPhases(w, true, layout);
    ExecLast(c, store, before, RootWrite(w, layout));
    ExecLast(c, store, ThroughRoot(w, true, layout), SyncFile);
    RootCall(c, Exec(c, store, before).store, next);
  }

  /** The durable image and the flag after the calls of an operation that may publish, told from the script. */
  lemma DurableLaid(c: Codec, s: Sim, op: Op, store: Store)
    requires Inv(c, s) && MayPublish(s, op) && |s.store.dirty| >= BLOCK_SIZE && !RootForged(c, s, op)
    requires store == s.store || store == ForgetFault(s.store)
    ensures var o := Exec(c, store, PlanCheckpoint(s.writer, Durably(op), op.layout).actions);
            var synced := Durably(op) && ReachesRoot(s, op);
            && o.store.durable == (if Durably(op) && o.ok then o.store.dirty
                                   else if synced then RootlessImage(c, s, op)
                                   else s.store.durable)
            && (synced && !o.ok ==> o.store.priorGenerationBecameDurable)
  {
    NotReached(s, op);
    ReadyHere(c, s, store);
    ScriptedOutcome(c, s, op, store);
    hide Carries, WriterAgrees, ReaderOk, HistoryOk, DurableOk, FewerRoots, Settled, WriterOk, Exec, PlanCheckpoint,
         ImagesOk, BeforeRoot, PublishedRoot, Faultless, RootForged, RootCompleted, Publishes, CheckpointReady,
         Unpublished, PublishedUnsynced, Published, ReachesRoot, Overtaken;
    if Durably(op) {
      SyncedDurable(c, store, s.writer, op.layout);
      ExecFollowsScript(c, store, BeforeRoot(s.writer, true, op.layout));
      ExecLays(c, store, BeforeRoot(s.writer, true, op.layout));
    }
  }

  /** The operation's calls do what the script tells. */
  lemma CallsLay(c: Codec, s: Sim, op: Op, store: Store)
    requires Ready(s) && KnownSeries(op, |s.model.points|) && s.store.faultsEnabled
    requires (store == s.store || store == ForgetFault(s.store))
    ensures var o := Exec(c, store, Calls(s, op));
            && o.store.dirty == LeftImage(c, s, op)
            && (o.ok <==> Faultless(s.store.script, Calls(s, op)))
            && (LosesPower(s.store.script, Calls(s, op)) <==> !o.ok && PowerLost(o.store))
  {
    hide Exec, Calls, Faultless, Laid, LosesPower, PowerLost;
    ExecFollowsScript(c, store, Calls(s, op));
    ExecLays(c, store, Calls(s, op));
  }

  lemma PlannedCalls(s: Sim, op: Op)
    requires Ready(s) && KnownSeries(op, |s.model.points|) && (op.Checkpoint? || op.Reopen?)
    ensures Calls(s, op) == PlanCheckpoint(s.writer, Durably(op), op.layout).actions
  {
    hide PlanCheckpoint;
  }

  /** What stands newer in the image left is what is spelled there. */
  ghost predicate LeftIsSpelled(c: Codec, s: Sim, op: Op)
    requires Ready(s) && KnownSeries(op, |s.model.points|)
  {
    var image := LeftImage(c, s, op);
    && |image| >= BLOCK_SIZE
    && (Overtaken(c, image, Newest(s, op).generation) <==> SpellsOld(c, s.store.dirty, image, Newest(s, op).generation))
  }

  lemma PlanSpells(c: Codec, s: Sim, op: Op, store: Store)
    requires Ready(s) && KnownSeries(op, |s.model.points|) && MayPublish(s, op)
    requires Inv(c, s) && !RootMixed(c, s, op) && !RootCompleted(c, s, op)
    requires store == s.store || store == ForgetFault(s.store)
    ensures LeftIsSpelled(c, s, op)
  {
    assert s.store.faultsEnabled;
    hide Inv, Exec, PlanCheckpoint, Calls, PublishedRoot, From, Faultless, RootMixed, RootCompleted, Publishes, Overtaken,
         SpellsOld, LeftImage, LosesPower, PowerLost;
    PlannedCalls(s, op);
    CallsLay(c, s, op, store);
    PlanFrom(c, s, op, store);
    FromIsLong(c, s.store.dirty, LeftImage(c, s, op), Brought(s, op));
    StandsIsSpelled(c, s.store.dirty, LeftImage(c, s, op), Brought(s, op), Newest(s, op).generation);
  }

  lemma FromIsLong(c: Codec, before: seq<Byte>, image: seq<Byte>, next: Option<Object>)
    requires From(c, before, image, next)
    ensures |before| >= BLOCK_SIZE && |image| >= BLOCK_SIZE
  {
    hide DecodeSlot;
  }

  lemma BeforeRootLays(c: Codec, s: Sim, op: Op, store: Store)
    requires HasRoot(s.writer) && Inv(c, s) && MayPublish(s, op)
    requires store == s.store || store == ForgetFault(s.store)
    ensures var image := RootlessImage(c, s, op);
            && |image| >= BLOCK_SIZE && s.store.dirty <= image
            && (Overtaken(c, image, s.writer.root.generation) <==> SpellsOld(c, s.store.dirty, image, s.writer.root.generation))
  {
    StartsQuiet(c, s);
    ReadyHere(c, s, store);
    hide Inv, Exec, BeforeRoot, From, Overtaken, SpellsOld, Laid, CheckpointReady, LosesPower, PowerLost;
    BeforeRootExtends(c, store, s.writer, Durably(op), op.layout);
    ExecLays(c, store, BeforeRoot(s.writer, Durably(op), op.layout));
    LaidExtends(c, s.store.dirty, RootlessImage(c, s, op), s.writer.root.generation);
  }

  lemma LaidExtends(c: Codec, before: seq<Byte>, image: seq<Byte>, generation: nat)
    requires |before| >= BLOCK_SIZE && before <= image
    ensures Overtaken(c, image, generation) <==> SpellsOld(c, before, image, generation)
  {
    hide From, Overtaken, SpellsOld;
    FromItself(c, before);
    FromExtended(c, before, before, image, None);
    StandsIsSpelled(c, before, image, None, generation);
  }

  // ---- Where an operation ends ----

  /** The durable image an operation ends with, and the root the oracle names for it. */
  ghost predicate DurableEnds(c: Codec, s: Sim, op: Op, order: MarkOrder, durable: seq<Byte>, mark: Object)
    requires Ready(s) && KnownSeries(op, |s.model.points|)
  {
    if SyncedOnlyBefore(s, op, order) then durable == RootlessImage(c, s, op) && mark == s.writer.root
    else
      || (durable == s.store.durable &&
          (mark == s.writer.root || (HistoryOk(s.model, s.writer.root) && mark == DurableRoot(s.model, s.writer.root))))
      || (durable == LeftImage(c, s, op) && mark == Newest(s, op) && !LosesPower(s.store.script, Calls(s, op)))
  }

  ghost predicate Ends(c: Codec, s: Sim, op: Op, order: MarkOrder, n: Sim, mark: Object)
    requires Ready(s) && KnownSeries(op, |s.model.points|)
  {
    var lost := LosesPower(s.store.script, Calls(s, op));
    && Names(n.model, Newest(s, op), if lost then mark else Newest(s, op), mark)
    && n.store.dirty == (if lost then n.store.durable else LeftImage(c, s, op))
    && DurableEnds(c, s, op, order, n.store.durable, mark)
  }

  /** A newer root stands in one of the images. */
  ghost predicate NewerIn(c: Codec, n: Sim, newest: Object) {
    || NewerStands(c, n.store.dirty, n.model, newest, n.model.current)
    || NewerStands(c, n.store.durable, n.model, newest, n.model.durable)
  }

  lemma SyncedMay(s: Sim, op: Op, order: MarkOrder)
    requires Ready(s) && KnownSeries(op, |s.model.points|) && SyncedOnlyBefore(s, op, order)
    ensures MayPublish(s, op)
  {
    hide Faultless;
  }

  /** What stands newer in the durable image is what is spelled in the one synced ahead of the root, or in the one left. */
  lemma DurableTold(c: Codec, s: Sim, op: Op, order: MarkOrder, durable: seq<Byte>, mark: Object)
    requires Ready(s) && Inv(c, s) && KnownSeries(op, |s.model.points|) && LeftIsSpelled(c, s, op)
    requires DurableEnds(c, s, op, order, durable, mark)
    ensures |durable| >= BLOCK_SIZE && mark.Root?
    ensures SyncedOnlyBefore(s, op, order) ==>
              (Overtaken(c, durable, mark.generation) <==>
               SpellsOld(c, s.store.dirty, RootlessImage(c, s, op), s.writer.root.generation))
    ensures !SyncedOnlyBefore(s, op, order) && Overtaken(c, durable, mark.generation) ==>
              && !LosesPower(s.store.script, Calls(s, op))
              && SpellsOld(c, s.store.dirty, LeftImage(c, s, op), Newest(s, op).generation)
  {
    StartsQuiet(c, s);
    hide Inv, Overtaken, SpellsOld, LeftImage, RootlessImage, LosesPower, SyncedOnlyBefore, Newest, Calls, HistoryOk;
    if SyncedOnlyBefore(s, op, order) {
      SyncedMay(s, op, order);
      BeforeRootLays(c, s, op, s.store);
    } else if durable == s.store.durable && (mark == s.writer.root || mark == DurableRoot(s.model, s.writer.root)) {
      DurableQuiet(c, s, mark);
    }
  }

  lemma EndsTold(c: Codec, s: Sim, op: Op, order: MarkOrder, n: Sim, mark: Object)
    requires Ready(s) && Inv(c, s) && KnownSeries(op, |s.model.points|) && LeftIsSpelled(c, s, op)
    requires Ends(c, s, op, order, n, mark)
    ensures NewerIn(c, n, Newest(s, op)) <==> Respelled(c, s, op, order)
  {
    hide Inv, Overtaken, SpellsOld, LosesPower, SyncedOnlyBefore, Newest, Calls, DurableEnds, NewerStands, Names,
         LeftImage, RootlessImage;
    DurableTold(c, s, op, order, n.store.durable, mark);
    var lost := LosesPower(s.store.script, Calls(s, op));
    NewerByName(c, n, Newest(s, op), if lost then mark else Newest(s, op), mark);
  }

  // ---- Operations that publish nothing ----

  /** Calls that only lengthen the image. */
  lemma LongerSpelled(c: Codec, s: Sim, op: Op)
    requires Ready(s) && KnownSeries(op, |s.model.points|) && |s.store.dirty| >= BLOCK_SIZE
    requires s.store.dirty <= LeftImage(c, s, op)
    ensures LeftIsSpelled(c, s, op)
  {
    NewestIsRoot(s, op);
    hide Overtaken, SpellsOld, LeftImage, Newest;
    LaidExtends(c, s.store.dirty, LeftImage(c, s, op), Newest(s, op).generation);
  }

  lemma NewestIsRoot(s: Sim, op: Op)
    requires HasRoot(s.writer)
    ensures Newest(s, op).Root?
  {
    hide PublishedRoot, Publishes;
  }

  lemma NoCallsLeft(c: Codec, s: Sim, op: Op)
    requires Ready(s) && KnownSeries(op, |s.model.points|) && Calls(s, op) == []
    ensures LeftImage(c, s, op) == s.store.dirty && !LosesPower(s.store.script, Calls(s, op))
  {
    hide Calls, Faultless;
  }

  /** A checkpoint or reopening of a clean writer changes no byte of the volatile image. */
  lemma CleanLeft(c: Codec, s: Sim, op: Op, store: Store)
    requires Ready(s) && KnownSeries(op, |s.model.points|) && (op.Checkpoint? || op.Reopen?) && !s.writer.dirty
    requires s.store.faultsEnabled
    requires store == s.store || store == ForgetFault(s.store)
    ensures LeftImage(c, s, op) == s.store.dirty
  {
    hide Exec, PlanCheckpoint, Calls, LeftImage, Faultless, LosesPower, PowerLost;
    PlannedCalls(s, op);
    CallsLay(c, s, op, store);
    CleanCheckpointStore(c, store, s.writer, Durably(op), op.layout);
  }

  lemma AppendCalls(s: Sim, op: Op)
    requires Ready(s) && op.Append? && op.series < |s.model.points|
    ensures Calls(s, op) == Fill(StartDraft(s.writer), op.layout, op.series, s.writer.pending[op.series],
                                 Batch(LastTimestamp(s.model.points[op.series]), op.arrivals)).0.actions
  {
    hide Fill, Batch;
  }

  lemma AppendLeft(c: Codec, s: Sim, op: Op)
    requires Ready(s) && Inv(c, s) && op.Append? && op.series < |s.model.points|
    ensures var o := Exec(c, ForgetFault(s.store), Calls(s, op));
            s.store.dirty <= LeftImage(c, s, op) && o.store.durable == s.store.durable
  {
    StartsQuiet(c, s);
    assert s.writer.pending == s.writer.pending && op.series < |s.writer.pending|;
    hide Inv, Exec, Fill, Calls, LeftImage, Faultless, LosesPower, PowerLost, Batch, Bounded, Overtaken;
    AppendCalls(s, op);
    CallsLay(c, s, op, ForgetFault(s.store));
    FillEffect(c, s, op.layout, op.series, Batch(LastTimestamp(s.model.points[op.series]), op.arrivals));
  }

  /** An operation that publishes nothing only lengthens the image. */
  lemma QuietLeft(c: Codec, s: Sim, op: Op)
    requires Ready(s) && KnownSeries(op, |s.model.points|) && !op.TruncateFile? && !MayPublish(s, op)
    requires s.store.faultsEnabled
    requires op.Append? ==> Inv(c, s)
    ensures s.store.dirty <= LeftImage(c, s, op)
  {
    hide Inv, Fill, PlanCheckpoint, LeftImage, LosesPower;
    match op
    case Checkpoint(_, _) => CleanLeft(c, s, op, s.store);
    case Reopen(_) => CleanLeft(c, s, op, s.store);
    case Append(_, _, _) => AppendLeft(c, s, op);
    case Refresh => NoCallsLeft(c, s, op);
    case Query => NoCallsLeft(c, s, op);
  }

  lemma StartsLong(c: Codec, s: Sim)
    requires Inv(c, s)
    ensures |s.store.dirty| >= BLOCK_SIZE && s.store.faultsEnabled
  {
    CarriedIsLong(c, s.store.dirty, s.writer.root);
  }

  /** In every operation but a truncation, what stands newer in the image left is what is spelled there. */
  lemma LeftSpelled(c: Codec, s: Sim, op: Op)
    requires Ready(s) && Inv(c, s) && KnownSeries(op, |s.model.points|) && !op.TruncateFile?
    requires !RootMixed(c, s, op) && !RootCompleted(c, s, op)
    ensures LeftIsSpelled(c, s, op)
  {
    StartsLong(c, s);
    hide Inv, LeftImage, LeftIsSpelled, RootMixed, RootCompleted;
    if MayPublish(s, op) {
      PlanSpells(c, s, op, s.store);
    } else {
      QuietLeft(c, s, op);
      LongerSpelled(c, s, op);
    }
  }

  lemma NotSynced(s: Sim, op: Op, order: MarkOrder)
    requires Ready(s) && KnownSeries(op, |s.model.points|)
    requires (!MayPublish(s, op) || !Durably(op) || Faultless(s.store.script, Calls(s, op)))
    ensures !SyncedOnlyBefore(s, op, order)
  {
    hide Faultless, Calls;
  }

  /** The oracle names what it named before, and the durable image is as it was. */
  lemma KeptEnds(c: Codec, s: Sim, op: Op, order: MarkOrder, n: Sim)
    requires Ready(s) && Inv(c, s) && KnownSeries(op, |s.model.points|) && !MayPublish(s, op)
    requires Ready(n) && n.model.history == s.model.history && n.model.current == s.model.current
    requires n.model.durable == s.model.durable
    requires n.store.dirty == LeftImage(c, s, op) && n.store.durable == s.store.durable
    requires !LosesPower(s.store.script, Calls(s, op))
    ensures HistoryOk(s.model, s.writer.root) && Ends(c, s, op, order, n, DurableRoot(s.model, s.writer.root))
  {
    StartsQuiet(c, s);
    hide Inv, LeftImage, LosesPower, SyncedOnlyBefore, Calls, HistoryOk, DurableRoot, Names, Bounded, Overtaken;
    NoneToPublish(s, op);
    NotSynced(s, op, order);
    NamesHere(s.model, s.writer.root);
    NamesSame(s.model, n.model, s.writer.root, s.writer.root, DurableRoot(s.model, s.writer.root));
  }

  lemma QueryEnds(c: Codec, s: Sim, op: Op, order: MarkOrder) returns (mark: Object)
    requires op.Query? && Ready(s) && Inv(c, s)
    ensures Ends(c, s, op, order, s, mark)
  {
    NoCallsLeft(c, s, op);
    hide Inv, LeftImage, LosesPower, Ends;
    KeptEnds(c, s, op, order, s);
    mark := DurableRoot(s.model, s.writer.root);
  }

  lemma RefreshEnds(c: Codec, s: Sim, op: Op, order: MarkOrder) returns (mark: Object)
    requires op.Refresh? && Ready(s) && Inv(c, s) && RefreshStep(c, s).Some?
    ensures Ends(c, s, op, order, RefreshStep(c, s).value, mark)
  {
    NoCallsLeft(c, s, op);
    hide Inv, LeftImage, LosesPower, Ends, RefreshReader;
    KeptEnds(c, s, op, order, RefreshStep(c, s).value);
    mark := DurableRoot(s.model, s.writer.root);
  }

  /** The extents the oracle names fit the images an operation starts with. */
  lemma StartsFit(c: Codec, s: Sim)
    requires Inv(c, s)
    ensures HistoryOk(s.model, s.writer.root) && Shape(s.model)
    ensures s.model.history[s.model.current].endSize <= |s.store.dirty|
    ensures s.model.history[s.model.durable].endSize <= |s.store.durable|
  {
    hide Carries, Settled, WriterOk, WriterAgrees, ReaderOk, HistoryOk, FewerRoots;
  }

  /** Recovery, where nothing was published and nothing marked. */
  lemma LostEnds(c: Codec, s: Sim, op: Op, order: MarkOrder, t: Store, mark: Object)
    requires Ready(s) && KnownSeries(op, |s.model.points|) && Newest(s, op) == s.writer.root
    requires !SyncedOnlyBefore(s, op, order)
    requires HistoryOk(s.model, s.writer.root) && mark == DurableRoot(s.model, s.writer.root)
    requires s.model.history[s.model.current].endSize <= |t.dirty|
    requires s.model.history[s.model.durable].endSize <= |t.durable|
    requires Recover(c, t, s.model, PowerLost(t)).Some? && t.durable == s.store.durable
    requires t.dirty == LeftImage(c, s, op) && (LosesPower(s.store.script, Calls(s, op)) <==> PowerLost(t))
    ensures Ends(c, s, op, order, Recover(c, t, s.model, PowerLost(t)).value, mark)
  {
    hide LeftImage, LosesPower, SyncedOnlyBefore, Calls, HistoryOk, DurableRoot, Names, Recover, PowerLost, Newest;
    NamesHere(s.model, s.writer.root);
    NamesRecovered(c, t, s.model, PowerLost(t), s.writer.root, s.writer.root, mark);
  }

  /** The three ways an append goes. */
  lemma AppendIs(c: Codec, s: Sim, op: Op)
    requires op.Append? && Ready(s) && Inv(c, s) && op.series < |s.model.points|
    ensures var n := AppendStep(c, s, op.series, op.arrivals, op.layout);
            var o := Exec(c, ForgetFault(s.store), Calls(s, op));
            var batch := Batch(LastTimestamp(s.model.points[op.series]), op.arrivals);
            if batch == [] then n == Some(s.(store := ForgetFault(s.store)))
            else if o.ok then n.Some? && n.value.store == o.store && n.value.model.history == s.model.history &&
                              n.value.model.current == s.model.current && n.value.model.durable == s.model.durable
            else n == Recover(c, o.store, s.model, PowerLost(o.store))
  {
    BatchAccepted(c, s, op.series, op.arrivals);
    AppendCalls(s, op);
    hide Inv, Exec, Recover, Fill, Batch, Accepts, PowerLost, Calls;
  }

  lemma AppendEnds(c: Codec, s: Sim, op: Op, order: MarkOrder) returns (mark: Object)
    requires op.Append? && Ready(s) && Inv(c, s) && op.series < |s.model.points|
    requires AppendStep(c, s, op.series, op.arrivals, op.layout).Some?
    ensures Ends(c, s, op, order, AppendStep(c, s, op.series, op.arrivals, op.layout).value, mark)
  {
    StartsLong(c, s);
    StartsFit(c, s);
    AppendLeft(c, s, op);
    AppendIs(c, s, op);
    CallsLay(c, s, op, ForgetFault(s.store));
    NoneToPublish(s, op);
    NotSynced(s, op, order);
    hide Inv, LeftImage, LosesPower, Ends, Exec, Recover, Batch, PowerLost, Faultless, Calls, Newest, AppendStep,
         HistoryOk, SyncedOnlyBefore, DurableRoot;
    var o := Exec(c, ForgetFault(s.store), Calls(s, op));
    mark := DurableRoot(s.model, s.writer.root);
    if Batch(LastTimestamp(s.model.points[op.series]), op.arrivals) == [] {
      EmptyAppend(c, s, op);
      KeptEnds(c, s, op, order, AppendStep(c, s, op.series, op.arrivals, op.layout).value);
    } else if o.ok {
      KeptEnds(c, s, op, order, AppendStep(c, s, op.series, op.arrivals, op.layout).value);
    } else {
      LostEnds(c, s, op, order, o.store, mark);
    }
  }

  lemma EmptyAppend(c: Codec, s: Sim, op: Op)
    requires Ready(s) && op.Append? && op.series < |s.model.points|
    requires Batch(LastTimestamp(s.model.points[op.series]), op.arrivals) == []
    ensures Calls(s, op) == [] && LeftImage(c, s, op) == s.store.dirty && !LosesPower(s.store.script, Calls(s, op))
  {
    hide Batch, LeftImage, LosesPower;
    NoCallsLeft(c, s, op);
  }

  // ---- Checkpoints and reopenings ----

  lemma CallsFinish(c: Codec, s: Sim, op: Op, store: Store)
    requires Ready(s) && KnownSeries(op, |s.model.points|) && s.store.faultsEnabled
    requires (store == s.store || store == ForgetFault(s.store))
    requires Exec(c, store, Calls(s, op)).ok
    ensures Exec(c, store, Calls(s, op)).store.dirty == LeftImage(c, s, op)
    ensures Faultless(s.store.script, Calls(s, op)) && !LosesPower(s.store.script, Calls(s, op))
  {
    hide Exec, Calls, Faultless, LeftImage, LosesPower, PowerLost;
    CallsLay(c, s, op, store);
  }

  /** A snapshot taken where all calls finish. */
  lemma SnapshotEnds(c: Codec, s: Sim, op: Op, order: MarkOrder, n: Sim, top: Object, low: Object) returns (mark: Object)
    requires Ready(s) && KnownSeries(op, |s.model.points|) && Faultless(s.store.script, Calls(s, op))
    requires !LosesPower(s.store.script, Calls(s, op))
    requires HistoryOk(s.model, s.writer.root) && low == DurableRoot(s.model, s.writer.root)
    requires Names(s.model, Newest(s, op), top, low) && Newest(s, op).Root? && Newest(s, op).committed <= |n.store.dirty|
    requires n.store.dirty == LeftImage(c, s, op)
    requires n.store.durable == (if Durably(op) then n.store.dirty else s.store.durable)
    requires Shape(n.model) && n.model.history == TakeSnapshot(s.model, |n.store.dirty|, Durably(op)).history
    requires n.model.current == |s.model.history| && n.model.durable == if Durably(op) then n.model.current else s.model.durable
    ensures Ends(c, s, op, order, n, mark)
  {
    hide LeftImage, LosesPower, SyncedOnlyBefore, Calls, HistoryOk, DurableRoot, Names, Newest, Faultless;
    NotSynced(s, op, order);
    NamesSnapshot(s.model, Newest(s, op), top, low, |n.store.dirty|, Durably(op));
    mark := if Durably(op) then Newest(s, op) else low;
    NamesSame(TakeSnapshot(s.model, |n.store.dirty|, Durably(op)), n.model, Newest(s, op), Newest(s, op), mark);
  }

  /** A failure that published nothing, whatever is marked and recorded. */
  lemma FailedNames(m: Model, t: Store, order: MarkOrder, r: Object, low: Object)
    requires Names(m, r, r, low) && r.Root? && r.committed <= |t.dirty|
    ensures Names(AfterFailedCheckpoint(m, t, order), r, r, if t.priorGenerationBecameDurable then r else low)
  {
    hide Names;
    var became := t.priorGenerationBecameDurable;
    NamesMarked(m, r, r, low, became);
    NamesSnapshot(m, r, r, low, |t.dirty|, false);
    NamesMarked(TakeSnapshot(m, |t.dirty|, false), r, r, low, became);
    NamesSnapshot(MarkDurable(m, became), r, r, if became then r else low, |t.dirty|, false);
  }

  /** A failure in the sync after the root. */
  lemma UnsyncedNames(m: Model, t: Store, order: MarkOrder, r: Object, next: Object, low: Object)
    requires Names(m, next, r, low) && next.Root? && next.committed <= |t.dirty| && t.priorGenerationBecameDurable
    ensures var top := if CrashedAfterPublish(t) then next else r;
            Names(AfterFailedCheckpoint(m, t, order), next, top,
                  if CrashedAfterPublish(t) && order == AfterSnapshot then next else r)
  {
    hide Names;
    NamesMarked(m, next, r, low, true);
    NamesSnapshot(m, next, r, low, |t.dirty|, false);
    NamesMarked(TakeSnapshot(m, |t.dirty|, false), next, next, low, true);
    NamesSnapshot(MarkDurable(m, true), next, r, r, |t.dirty|, false);
  }

  /** Where recovery from a failed checkpoint ends. */
  lemma FailedEnds(c: Codec, s: Sim, op: Op, order: MarkOrder, newest: Object, top: Object, mark: Object)
    requires op.Checkpoint? && Ready(s) && Inv(c, s) && CheckpointStep(c, s, op.sync, op.layout, order).Some?
    requires !Exec(c, ForgetFault(s.store), PlanCheckpoint(s.writer, op.sync, op.layout).actions).ok
    requires var t := Exec(c, ForgetFault(s.store), PlanCheckpoint(s.writer, op.sync, op.layout).actions).store;
             Names(AfterFailedCheckpoint(s.model, t, order), newest, top, mark)
    ensures var t := Exec(c, ForgetFault(s.store), PlanCheckpoint(s.writer, op.sync, op.layout).actions).store;
            var n := CheckpointStep(c, s, op.sync, op.layout, order).value;
            && Names(n.model, newest, if PowerLost(t) then mark else top, mark)
            && n.store.dirty == (if PowerLost(t) then t.durable else t.dirty) && n.store.durable == t.durable
  {
    StartsQuiet(c, s);
    FailedFits(c, s, op.sync, op.layout, order);
    hide Inv, Names, Exec, PlanCheckpoint, Recover, AfterFailedCheckpoint, PowerLost, Bounded, Overtaken, HistoryOk;
    var t := Exec(c, ForgetFault(s.store), PlanCheckpoint(s.writer, op.sync, op.layout).actions).store;
    NamesRecovered(c, t, AfterFailedCheckpoint(s.model, t, order), PowerLost(t), newest, top, mark);
  }

  /** The extents a failed checkpoint records fit what its calls left. */
  lemma FailedFits(c: Codec, s: Sim, sync: bool, layout: Layout, order: MarkOrder)
    requires Bounded(s) && !Exec(c, ForgetFault(s.store), PlanCheckpoint(s.writer, sync, layout).actions).ok
    ensures var t := Exec(c, ForgetFault(s.store), PlanCheckpoint(s.writer, sync, layout).actions).store;
            var m := AfterFailedCheckpoint(s.model, t, order);
            Shape(m) && m.history[m.durable].endSize <= |t.durable| && m.history[m.current].endSize <= |t.dirty|
  {
    PlanApart(s.writer, sync, layout);
    hide Exec, PlanCheckpoint, AfterFailedCheckpoint, AllApart, InBounds;
    ExecGrows(c, ForgetFault(s.store), PlanCheckpoint(s.writer, sync, layout).actions);
    var o := Exec(c, ForgetFault(s.store), PlanCheckpoint(s.writer, sync, layout).actions);
    hide Grows, Bounded;
    FailedBounded(s, o, order);
    ModelShape(AfterFailedCheckpoint(s.model, o.store, order));
  }

  /** The parts of an ending. */
  lemma EndsBy(c: Codec, s: Sim, op: Op, order: MarkOrder, n: Sim, t: Store, top: Object, mark: Object)
    requires Ready(s) && KnownSeries(op, |s.model.points|) && (LosesPower(s.store.script, Calls(s, op)) <==> PowerLost(t))
    requires Names(n.model, Newest(s, op), if PowerLost(t) then mark else top, mark)
    requires (!PowerLost(t) ==> top == Newest(s, op))
    requires n.store.dirty == (if PowerLost(t) then t.durable else t.dirty) && n.store.durable == t.durable
    requires t.dirty == LeftImage(c, s, op)
    requires DurableEnds(c, s, op, order, t.durable, mark)
    ensures Ends(c, s, op, order, n, mark)
  {
    hide LeftImage, LosesPower, SyncedOnlyBefore, Calls, Names, Newest, PowerLost, DurableEnds;
  }

  lemma KeptDurable(c: Codec, s: Sim, op: Op, order: MarkOrder, low: Object, marked: bool)
    requires Ready(s) && KnownSeries(op, |s.model.points|) && !SyncedOnlyBefore(s, op, order)
    requires HistoryOk(s.model, s.writer.root) && low == DurableRoot(s.model, s.writer.root)
    ensures DurableEnds(c, s, op, order, s.store.durable, if marked then s.writer.root else low)
  {
    hide LeftImage, LosesPower, SyncedOnlyBefore, Calls, Newest, HistoryOk, DurableRoot;
  }

  lemma CleanCheckpointEnds(c: Codec, s: Sim, op: Op, order: MarkOrder) returns (mark: Object)
    requires op.Checkpoint? && Ready(s) && Inv(c, s) && !s.writer.dirty
    requires CheckpointStep(c, s, op.sync, op.layout, order).Some?
    ensures Ends(c, s, op, order, CheckpointStep(c, s, op.sync, op.layout, order).value, mark)
  {
    var store, r := ForgetFault(s.store), s.writer.root;
    StartsLong(c, s);
    StartsFit(c, s);
    NamesHere(s.model, r);
    Extents(s.model, r, s.model.current, s.model.current);
    var low := DurableRoot(s.model, r);
    NoneToPublish(s, op);
    NotSynced(s, op, order);
    PlannedCalls(s, op);
    CallsLay(c, s, op, store);
    CleanCheckpointStore(c, store, s.writer, op.sync, op.layout);
    var t := Exec(c, store, Calls(s, op)).store;
    hide Inv, LeftImage, LosesPower, Ends, Exec, PlanCheckpoint, PowerLost, Faultless, Calls, Newest, CheckpointStep,
         HistoryOk, SyncedOnlyBefore, DurableRoot, Names, AfterFailedCheckpoint, DurableEnds, RootAt, WellFormedRoot,
         Ready;
    if Exec(c, store, Calls(s, op)).ok {
      FinishedStep(c, s, op, order);
      StepShape(c, s, op, order);
      mark := SnapshotEnds(c, s, op, order, CheckpointStep(c, s, op.sync, op.layout, order).value, r, low);
    } else {
      mark := if t.priorGenerationBecameDurable then r else low;
      FailedNames(s.model, t, order, r, low);
      FailedEnds(c, s, op, order, r, r, mark);
      KeptDurable(c, s, op, order, low, t.priorGenerationBecameDurable);
      EndsBy(c, s, op, order, CheckpointStep(c, s, op.sync, op.layout, order).value, t, r, mark);
    }
  }

  lemma StepShape(c: Codec, s: Sim, op: Op, order: MarkOrder)
    requires op.Checkpoint? && Ready(s) && CheckpointStep(c, s, op.sync, op.layout, order).Some?
    ensures Shape(CheckpointStep(c, s, op.sync, op.layout, order).value.model)
  {
    hide CheckpointStep;
  }

  /** What a publishing operation's root is to the oracle. */
  lemma PublishedNames(c: Codec, s: Sim, op: Op, t: Store)
    requires Ready(s) && Inv(c, s) && Publishes(s, op)
    requires CarriesNext(c, ForgetFault(s.store), t, s.writer.root, PublishedRoot(s.writer, op.layout))
    ensures HistoryOk(s.model, s.writer.root)
    ensures var next := PublishedRoot(s.writer, op.layout);
            && Newest(s, op) == next && next.committed == |t.dirty|
            && Names(s.model, next, s.writer.root, DurableRoot(s.model, s.writer.root))
  {
    var next := PublishedRoot(s.writer, op.layout);
    StartsFit(c, s);
    PublishedFollows(s.writer, op.layout);
    hide Inv, Publishes, PublishedRoot, Names, DurableRoot, HistoryOk, Carries, FewerRoots, OtherSlotsSame,
         WellFormedRoot;
    CarriedWellFormed(c, t.dirty, next);
    NamesBelow(s.model, s.writer.root, next);
  }

  lemma FinishedCheckpointEnds(c: Codec, s: Sim, op: Op, order: MarkOrder) returns (mark: Object)
    requires op.Checkpoint? && Ready(s) && Inv(c, s) && s.writer.dirty && !RootMixed(c, s, op) && !RootCompleted(c, s, op)
    requires Exec(c, ForgetFault(s.store), PlanCheckpoint(s.writer, op.sync, op.layout).actions).ok
    requires CheckpointStep(c, s, op.sync, op.layout, order).Some?
    ensures Ends(c, s, op, order, CheckpointStep(c, s, op.sync, op.layout, order).value, mark)
  {
    var store, r := ForgetFault(s.store), s.writer.root;
    StartsLong(c, s);
    StartsFit(c, s);
    NotForged(c, s, op);
    PlannedCalls(s, op);
    CallsFinish(c, s, op, store);
    ScriptedOutcome(c, s, op, store);
    FinishedStep(c, s, op, order);
    StepShape(c, s, op, order);
    var t := Exec(c, store, Calls(s, op)).store;
    hide Inv, LeftImage, LosesPower, Ends, Exec, PlanCheckpoint, Faultless, Calls, Newest, CheckpointStep, HistoryOk,
         CarriesNext, SyncedOnlyBefore, DurableRoot, Names, RootMixed, RootForged, RootCompleted, Publishes,
         PublishedRoot, Overtaken, Unpublished, PublishedUnsynced;
    PublishedNames(c, s, op, t);
    mark := SnapshotEnds(c, s, op, order, CheckpointStep(c, s, op.sync, op.layout, order).value, r, DurableRoot(s.model, r));
  }

  lemma UnpublishedEnds(c: Codec, s: Sim, op: Op, order: MarkOrder) returns (mark: Object)
    requires op.Checkpoint? && Ready(s) && Inv(c, s) && s.writer.dirty && !RootMixed(c, s, op) && !Publishes(s, op)
    requires !Exec(c, ForgetFault(s.store), PlanCheckpoint(s.writer, op.sync, op.layout).actions).ok
    requires CheckpointStep(c, s, op.sync, op.layout, order).Some?
    ensures Ends(c, s, op, order, CheckpointStep(c, s, op.sync, op.layout, order).value, mark)
  {
    var store, r := ForgetFault(s.store), s.writer.root;
    StartsLong(c, s);
    StartsFit(c, s);
    NamesHere(s.model, r);
    Extents(s.model, r, s.model.current, s.model.current);
    var low := DurableRoot(s.model, r);
    NotForged(c, s, op);
    PlannedCalls(s, op);
    CallsLay(c, s, op, store);
    ScriptedOutcome(c, s, op, store);
    DurableLaid(c, s, op, store);
    var t := Exec(c, store, Calls(s, op)).store;
    NoLoss(c, store, t, r);
    hide Inv, LeftImage, RootlessImage, LosesPower, Ends, Exec, PlanCheckpoint, PowerLost, Faultless, Calls,
         CheckpointStep, HistoryOk, DurableRoot, Names, AfterFailedCheckpoint, DurableEnds, RootAt, WellFormedRoot, Ready,
         RootForged, RootMixed, RootCompleted, Unpublished, Publishes, Overtaken, PublishedRoot;
    mark := if t.priorGenerationBecameDurable then r else low;
    FailedNames(s.model, t, order, r, low);
    FailedEnds(c, s, op, order, r, r, mark);
    UnpublishedDurableEnds(c, s, op, order, t, low);
    EndsBy(c, s, op, order, CheckpointStep(c, s, op.sync, op.layout, order).value, t, r, mark);
  }

  lemma NoLoss(c: Codec, s: Store, t: Store, r: Object)
    requires Unpublished(c, s, t, r)
    ensures |s.dirty| <= |t.dirty|
  {
    hide Carries, FewerRoots, SyncedBefore;
  }

  lemma UnpublishedDurableEnds(c: Codec, s: Sim, op: Op, order: MarkOrder, t: Store, low: Object)
    requires Ready(s) && KnownSeries(op, |s.model.points|) && MayPublish(s, op) && !Publishes(s, op)
    requires !Faultless(s.store.script, Calls(s, op))
    requires HistoryOk(s.model, s.writer.root) && low == DurableRoot(s.model, s.writer.root)
    requires var synced := Durably(op) && ReachesRoot(s, op);
             && t.durable == (if synced then RootlessImage(c, s, op) else s.store.durable)
             && (synced ==> t.priorGenerationBecameDurable)
    ensures DurableEnds(c, s, op, order, t.durable, if t.priorGenerationBecameDurable then s.writer.root else low)
  {
    hide LeftImage, RootlessImage, LosesPower, Calls, HistoryOk, DurableRoot, Faultless, Publishes, ReachesRoot, Newest;
  }

  /** A published root over a slot that showed it already changes no byte. */
  lemma SameBytes(c: Codec, s: Store, t: Store, r: Object, next: Object)
    requires PublishedUnsynced(c, s, t, r, next) && |s.dirty| >= BLOCK_SIZE && next.Root? && next.generation >= 1
    requires DecodeSlot(c, s.dirty, SlotOf(next.generation)) == Some(next)
    ensures t.durable == t.dirty
  {
    hide Carries, FewerRoots, DecodeSlot, OtherSlotsSame, Succeeds;
    FewerRootsAfterExtension(c, s.dirty, t.durable, 0);
    CarriesWhatStands(c, t.durable, r, next);
  }

  /** What the sync after the root leaves when it fails. */
  lemma UnsyncedFacts(c: Codec, s: Store, t: Store, r: Object, next: Object)
    requires PublishedUnsynced(c, s, t, r, next)
    ensures t.priorGenerationBecameDurable && (CrashedAfterPublish(t) <==> !PowerLost(t)) && CarriesNext(c, s, t, r, next)
  {
    hide CarriesNext, SyncedBefore, OnlyRootMissing;
  }

  /** Which crash the sync after the root met, told from the script. */
  lemma UnsyncedDraw(c: Codec, s: Sim, op: Op)
    requires op.Checkpoint? && op.sync && Ready(s) && Inv(c, s) && |s.store.dirty| >= BLOCK_SIZE && Publishes(s, op)
    requires !Exec(c, ForgetFault(s.store), PlanCheckpoint(s.writer, true, op.layout).actions).ok
    ensures PowerLost(Exec(c, ForgetFault(s.store), PlanCheckpoint(s.writer, true, op.layout).actions).store) <==>
            !PostRootProcessCrash(s, op)
  {
    assert s.store.faultsEnabled && s.writer.dirty;
    hide Inv, Publishes, Exec, PlanCheckpoint, ThroughRoot;
    RootWasWritten(c, s, op);
    FinalDraw(c, s, op.layout);
  }

  lemma UnsyncedEnds(c: Codec, s: Sim, op: Op, order: MarkOrder) returns (mark: Object)
    requires op.Checkpoint? && Ready(s) && Inv(c, s) && s.writer.dirty && !RootMixed(c, s, op) && Publishes(s, op)
    requires !MarkedTooLate(c, s, op, order)
    requires !Exec(c, ForgetFault(s.store), PlanCheckpoint(s.writer, op.sync, op.layout).actions).ok
    requires CheckpointStep(c, s, op.sync, op.layout, order).Some?
    ensures Ends(c, s, op, order, CheckpointStep(c, s, op.sync, op.layout, order).value, mark)
  {
    var store, r, next := ForgetFault(s.store), s.writer.root, PublishedRoot(s.writer, op.layout);
    StartsLong(c, s);
    NotForged(c, s, op);
    PlannedCalls(s, op);
    CallsLay(c, s, op, store);
    ScriptedOutcome(c, s, op, store);
    DurableLaid(c, s, op, store);
    UnsyncedDraw(c, s, op);
    var t := Exec(c, store, Calls(s, op)).store;
    UnsyncedFacts(c, store, t, r, next);
    PublishedNames(c, s, op, t);
    hide Inv, LeftImage, RootlessImage, LosesPower, Ends, Exec, PlanCheckpoint, Faultless, Calls, CheckpointStep,
         HistoryOk, PowerLost, DurableRoot, Names, AfterFailedCheckpoint, DurableEnds, RootAt, WellFormedRoot, Ready,
         RootForged, RootMixed, RootCompleted, PublishedUnsynced, Publishes, Overtaken, PublishedRoot,
         CrashedAfterPublish, MarkedTooLate, Newest, PostRootProcessCrash, CarriesNext;
    UnsyncedNames(s.model, t, order, r, next, DurableRoot(s.model, r));
    var top := if CrashedAfterPublish(t) then next else r;
    mark := if CrashedAfterPublish(t) && order == AfterSnapshot then next else r;
    FailedEnds(c, s, op, order, next, top, mark);
    UnsyncedDurableEnds(c, s, op, order, store, t, r, next);
    EndsBy(c, s, op, order, CheckpointStep(c, s, op.sync, op.layout, order).value, t, top, mark);
  }

  lemma UnsyncedDurableEnds(c: Codec, s: Sim, op: Op, order: MarkOrder, store: Store, t: Store, r: Object, next: Object)
    requires Ready(s) && KnownSeries(op, |s.model.points|) && MayPublish(s, op) && Publishes(s, op) && Durably(op)
    requires |s.store.dirty| >= BLOCK_SIZE
    requires !Faultless(s.store.script, Calls(s, op)) && !MarkedTooLate(c, s, op, order) && store == ForgetFault(s.store)
    requires r == s.writer.root && next == PublishedRoot(s.writer, op.layout)
    requires PublishedUnsynced(c, store, t, r, next) && (PowerLost(t) <==> !PostRootProcessCrash(s, op))
    requires t.durable == RootlessImage(c, s, op) && t.dirty == LeftImage(c, s, op)
    requires LosesPower(s.store.script, Calls(s, op)) <==> PowerLost(t)
    ensures DurableEnds(c, s, op, order, t.durable, if CrashedAfterPublish(t) && order == AfterSnapshot then next else r)
  {
    UnsyncedFacts(c, store, t, r, next);
    if order == AfterSnapshot && PostRootProcessCrash(s, op) {
      SameBytes(c, store, t, r, next);
    }
    hide LeftImage, RootlessImage, LosesPower, Calls, HistoryOk, DurableRoot, Faultless, PublishedUnsynced, PublishedRoot,
         PowerLost, CrashedAfterPublish;
  }

  lemma FinishedReopenEnds(c: Codec, s: Sim, op: Op, order: MarkOrder, top: Object) returns (mark: Object)
    requires op.Reopen? && Ready(s) && Inv(c, s) && ReopenStep(c, s, op.layout).Some?
    requires Exec(c, s.store, PlanCheckpoint(s.writer, false, op.layout).actions).ok
    requires HistoryOk(s.model, s.writer.root) && Names(s.model, Newest(s, op), top, DurableRoot(s.model, s.writer.root))
    requires var t := Exec(c, s.store, PlanCheckpoint(s.writer, false, op.layout).actions).store;
             Newest(s, op).Root? && Newest(s, op).committed <= |t.dirty| && t.durable == s.store.durable
    ensures Ends(c, s, op, order, ReopenStep(c, s, op.layout).value, mark)
  {
    assert s.store.faultsEnabled;
    PlannedCalls(s, op);
    CallsFinish(c, s, op, s.store);
    var t := Exec(c, s.store, PlanCheckpoint(s.writer, false, op.layout).actions).store;
    hide Inv, LeftImage, LosesPower, Ends, Exec, PlanCheckpoint, Faultless, Calls, Newest, HistoryOk, DurableRoot, Names,
         Reopened, Recover;
    ReopenedShape(c, t, TakeSnapshot(s.model, |t.dirty|, false));
    mark := SnapshotEnds(c, s, op, order, ReopenStep(c, s, op.layout).value, top, DurableRoot(s.model, s.writer.root));
  }

  lemma CleanReopenEnds(c: Codec, s: Sim, op: Op, order: MarkOrder) returns (mark: Object)
    requires op.Reopen? && Ready(s) && Inv(c, s) && !s.writer.dirty && ReopenStep(c, s, op.layout).Some?
    ensures Ends(c, s, op, order, ReopenStep(c, s, op.layout).value, mark)
  {
    StartsFit(c, s);
    NamesHere(s.model, s.writer.root);
    Extents(s.model, s.writer.root, s.model.current, s.model.current);
    NoneToPublish(s, op);
    CleanCheckpointStore(c, s.store, s.writer, false, op.layout);
    hide Inv, Ends, Exec, PlanCheckpoint, Newest, HistoryOk, DurableRoot, Names, ReopenStep;
    ReopensClean(c, s, op);
    mark := FinishedReopenEnds(c, s, op, order, s.writer.root);
  }

  lemma ReopensClean(c: Codec, s: Sim, op: Op)
    requires op.Reopen? && HasRoot(s.writer) && !s.writer.dirty
    ensures Exec(c, s.store, PlanCheckpoint(s.writer, false, op.layout).actions).ok
  {
  }

  lemma DirtyReopenEnds(c: Codec, s: Sim, op: Op, order: MarkOrder) returns (mark: Object)
    requires op.Reopen? && Ready(s) && Inv(c, s) && s.writer.dirty && !RootMixed(c, s, op)
    requires ReopenStep(c, s, op.layout).Some?
    ensures Ends(c, s, op, order, ReopenStep(c, s, op.layout).value, mark)
  {
    StartsLong(c, s);
    StartsFit(c, s);
    NotForged(c, s, op);
    PlannedCalls(s, op);
    CallsLay(c, s, op, s.store);
    ScriptedOutcome(c, s, op, s.store);
    ReopenDurable(c, s, op);
    var o := Exec(c, s.store, PlanCheckpoint(s.writer, false, op.layout).actions);
    hide Inv, LeftImage, LosesPower, Ends, Exec, PlanCheckpoint, Faultless, Calls, HistoryOk, DurableRoot, Names,
         RootForged, RootMixed, RootCompleted, Publishes, PublishedRoot, Overtaken, Unpublished, PublishedUnsynced,
         PowerLost, CarriesNext, Recover, Reopened, WellFormedRoot;
    if o.ok {
      ReopenedNames(c, s, op, o.store);
      mark := FinishedReopenEnds(c, s, op, order, s.writer.root);
    } else {
      mark := DurableRoot(s.model, s.writer.root);
      NoLoss(c, s.store, o.store, s.writer.root);
      NotSynced(s, op, order);
      LostEnds(c, s, op, order, o.store, mark);
    }
  }

  lemma ReopenedNames(c: Codec, s: Sim, op: Op, t: Store)
    requires Ready(s) && Inv(c, s) && Publishes(s, op)
    requires CarriesNext(c, s.store, t, s.writer.root, PublishedRoot(s.writer, op.layout))
    ensures HistoryOk(s.model, s.writer.root)
    ensures var next := PublishedRoot(s.writer, op.layout);
            && Newest(s, op) == next && next.committed == |t.dirty|
            && Names(s.model, next, s.writer.root, DurableRoot(s.model, s.writer.root))
  {
    hide Inv, Publishes, PublishedRoot, Names, DurableRoot, HistoryOk, Carries, FewerRoots, OtherSlotsSame, Newest;
    PublishedNames(c, s, op, t);
  }

  // ---- Every operation but a truncation ----

  lemma CheckpointEnds(c: Codec, s: Sim, op: Op, order: MarkOrder) returns (mark: Object)
    requires op.Checkpoint? && Ready(s) && Inv(c, s) && CheckpointStep(c, s, op.sync, op.layout, order).Some?
    requires !RootMixed(c, s, op) && !RootCompleted(c, s, op) && !MarkedTooLate(c, s, op, order)
    ensures Ends(c, s, op, order, CheckpointStep(c, s, op.sync, op.layout, order).value, mark)
  {
    hide Inv, Ends, RootMixed, RootCompleted, MarkedTooLate, CheckpointStep, PlanCheckpoint, Exec, Publishes;
    if !s.writer.dirty {
      mark := CleanCheckpointEnds(c, s, op, order);
    } else if Exec(c, ForgetFault(s.store), PlanCheckpoint(s.writer, op.sync, op.layout).actions).ok {
      mark := FinishedCheckpointEnds(c, s, op, order);
    } else if Publishes(s, op) {
      mark := UnsyncedEnds(c, s, op, order);
    } else {
      mark := UnpublishedEnds(c, s, op, order);
    }
  }

  lemma StepEnds(c: Codec, s: Sim, op: Op, order: MarkOrder) returns (mark: Object)
    requires Ready(s) && Inv(c, s) && KnownSeries(op, |s.model.points|) && !op.TruncateFile?
    requires Step(c, s, op, order).Some?
    requires !RootMixed(c, s, op) && !RootCompleted(c, s, op) && !MarkedTooLate(c, s, op, order)
    ensures Ends(c, s, op, order, Step(c, s, op, order).value, mark)
  {
    hide Inv, Ends, RootMixed, RootCompleted, MarkedTooLate, CheckpointStep, ReopenStep, RefreshStep, AppendStep;
    match op
    case Checkpoint(sync, layout) => mark := CheckpointEnds(c, s, op, order);
    case Reopen(layout) =>
      if s.writer.dirty { mark := DirtyReopenEnds(c, s, op, order); } else { mark := CleanReopenEnds(c, s, op, order); }
    case Refresh => mark := RefreshEnds(c, s, op, order);
    case Query => mark := QueryEnds(c, s, op, order);
    case Append(series, arrivals, layout) => mark := AppendEnds(c, s, op, order);
  }

  /** Only a truncation can stop the simulator. */
  lemma StepsOn(c: Codec, s: Sim, op: Op, order: MarkOrder)
    requires Ready(s) && Inv(c, s) && KnownSeries(op, |s.model.points|) && !op.TruncateFile? && !RootMixed(c, s, op)
    ensures Step(c, s, op, order).Some?
  {
    NotForged(c, s, op);
    hide Inv, RootMixed, RootForged, Step, Disturbed, OracleAgrees, Newest;
    StepExact(c, s, op, order);
  }

  /**
   A root is revived exactly when the calls spell it: told from the slots, the bytes and the script alone, with
   nothing of the operation's result.
   */
  lemma RevivedTold(c: Codec, s: Sim, op: Op, order: MarkOrder)
    requires Ready(s) && Inv(c, s) && KnownSeries(op, |s.model.points|) && !op.TruncateFile?
    requires !RootMixed(c, s, op) && !RootCompleted(c, s, op) && !MarkedTooLate(c, s, op, order)
    ensures Revived(c, s, op, order) <==> Respelled(c, s, op, order)
  {
    hide Inv, Ends, RootMixed, RootCompleted, MarkedTooLate, Step, Respelled, Newest, NewerStands, LeftIsSpelled;
    StepsOn(c, s, op, order);
    LeftSpelled(c, s, op);
    var mark := StepEnds(c, s, op, order);
    EndsTold(c, s, op, order, Step(c, s, op, order).value, mark);
  }

  /** The published root's twin in its slot, under a root write that stores nothing, is such a root. */
  lemma TwinRespelled(c: Codec, s: Sim, op: Op, order: MarkOrder)
    requires Ready(s) && Inv(c, s) && KnownSeries(op, |s.model.points|)
    requires ReachesRoot(s, op) && NextStood(c, s, op) && FailsWhole(RootDraw(s, op))
    ensures Respelled(c, s, op, order)
  {
    NotTornHere(c, s, op, order);
    TwinDisturbs(c, s, op, order);
    hide Inv, Step, OracleAgrees, Respelled, Revived, ReachesRoot, NextStood, RootDraw, RootMixed, RootCompleted,
         MarkedTooLate;
    RevivedTold(c, s, op, order);
  }

  lemma NotTornHere(c: Codec, s: Sim, op: Op, order: MarkOrder)
    requires HasRoot(s.writer) && ReachesRoot(s, op) && FailsWhole(RootDraw(s, op))
    ensures !RootMixed(c, s, op) && !RootCompleted(c, s, op) && !MarkedTooLate(c, s, op, order) && !op.TruncateFile?
  {
    hide Faultless, PublishedRoot, TornRoot, DecodeSlot, NextStood;
  }

  // ---- Truncations ----

  /** The root of the generation recovery falls back to is the newest that fits what is left. */
  lemma FallsBackTo(m: Model, r: Object, size: nat)
    requires HistoryOk(m, r) && m.current > 0 && m.history[m.current - 1].endSize <= size
    ensures var g := Fit(m.history, m.current, size);
            var n := SyncReader(Restore(m, g));
            n.current < |n.history| && RootAt(r, n.history[n.current].endSize) == RootAt(r, size)
  {
    Extents(m, r, m.current - 1, m.current);
    hide HistoryOk, RootAt;
    SameRootBelowNext(m, r, Fit(m.history, m.current, size), size);
  }

  /** A cut that leaves a root the oracle knows: both images open to what recovery restores. */
  lemma CutAgrees(c: Codec, s: Sim, size: nat)
    requires Inv(c, s) && |s.store.dirty| >= BLOCK_SIZE && TruncatedSize(s.model, |s.store.dirty|) == Some(size)
    requires WellFormedRoot(s.writer.root) && Recoverable(c, s.store.dirty, s.writer.root, size)
    ensures TruncateStep(c, s).Some? && OracleAgrees(c, TruncateStep(c, s).value, s.writer.root)
  {
    var m, r := s.model, s.writer.root;
    var g := Fit(m.history, m.current, size);
    var after := CrashStore(TruncateStore(s.store, size), false);
    hide Carries, Overtaken, FewerRoots, HistoryOk, WriterOk, WriterAgrees, ReaderOk, Recoverable, Recover, Reopened,
         Restore, Fit, CrashStore, TruncateStore, OracleAgrees, RootAt, Committed, ImagesOk, Settled, WellFormedRoot,
         Lands, StoreOk;
    ImagesHistory(c, s.store.dirty, s.store.durable, m, r);
    TruncationReopens(c, s.store, m, r, size);
    RecoverTruncated(c, s.store, m, size);
    ReopenedLands(c, after, Restore(m, g), RootAt(r, size));
    SyncReaderKeeps(c, after.dirty, after.durable, Restore(m, g), RootAt(r, size));
    FallsBackTo(m, r, size);
    AgreesExactly(c, TruncateStep(c, s).value, r);
  }

  lemma TruncationAgrees(c: Codec, s: Sim)
    requires Inv(c, s) && |s.store.dirty| >= BLOCK_SIZE && WellFormedRoot(s.writer.root)
    requires var size := TruncatedSize(s.model, |s.store.dirty|);
             size.None? || Recoverable(c, s.store.dirty, s.writer.root, size.value)
    ensures TruncateStep(c, s).Some? && OracleAgrees(c, TruncateStep(c, s).value, s.writer.root)
  {
    assert Ready(s);
    hide Inv, Recoverable, OracleAgrees, Recover;
    var size := TruncatedSize(s.model, |s.store.dirty|);
    if size.Some? {
      CutAgrees(c, s, size.value);
    } else {
      InvAgrees(c, s);
    }
  }

  /** A truncation is recovered from, in agreement, exactly when nothing was cut or a root the oracle knows is left. */
  lemma TruncationExact(c: Codec, s: Sim)
    requires Ready(s) && Inv(c, s)
    ensures |s.store.dirty| >= BLOCK_SIZE && WellFormedRoot(s.writer.root)
    ensures var n, size := TruncateStep(c, s), TruncatedSize(s.model, |s.store.dirty|);
            n.Some? && OracleAgrees(c, n.value, s.writer.root) <==>
            size.None? || Recoverable(c, s.store.dirty, s.writer.root, size.value)
  {
    CountsWithin(c, s);
    hide TruncateStep, Inv, Recoverable, OracleAgrees, Overtaken;
    var size := TruncatedSize(s.model, |s.store.dirty|);
    if size.None? || Recoverable(c, s.store.dirty, s.writer.root, size.value) {
      TruncationAgrees(c, s);
    } else if TruncateStep(c, s).Some? {
      BeyondRecovery(c, s, size.value);
    }
  }

  // ---- What ends the agreement, told beforehand ----

  /**
   A truncation to which neither known root survives; the root write whose tail the slot already held; as written,
   the process crash after the root; or a newer root spelled anew.
   */
  ghost predicate Foretold(c: Codec, s: Sim, op: Op, order: MarkOrder)
    requires Ready(s) && KnownSeries(op, |s.model.points|)
  {
    if op.TruncateFile? then WellFormedRoot(s.writer.root) && |s.store.dirty| >= BLOCK_SIZE && CutsTooDeep(c, s, op)
    else RootCompleted(c, s, op) || MarkedTooLate(c, s, op, order) || Respelled(c, s, op, order)
  }

  /** The operation goes on in agreement exactly when nothing foretold otherwise; then the invariant holds. */
  lemma StepForetold(c: Codec, s: Sim, op: Op, order: MarkOrder)
    requires Ready(s) && Inv(c, s) && KnownSeries(op, |s.model.points|) && !RootMixed(c, s, op)
    ensures var n := Step(c, s, op, order);
            && (n.Some? && OracleAgrees(c, n.value, Newest(s, op)) <==> !Foretold(c, s, op, order))
            && (!Foretold(c, s, op, order) ==> Inv(c, n.value))
            && (!op.TruncateFile? ==> n.Some? && (Disturbed(c, s, op, order) <==> Foretold(c, s, op, order)))
  {
    hide Inv, RootMixed, Foretold, Disturbed, Step, Newest, OracleAgrees;
    if op.TruncateFile? {
      TruncationForetold(c, s, op, order);
    } else {
      NotForged(c, s, op);
      StepExact(c, s, op, order);
      DisturbedTold(c, s, op, order);
    }
  }

  lemma DisturbedTold(c: Codec, s: Sim, op: Op, order: MarkOrder)
    requires Ready(s) && Inv(c, s) && KnownSeries(op, |s.model.points|) && !op.TruncateFile? && !RootMixed(c, s, op)
    ensures Disturbed(c, s, op, order) <==> Foretold(c, s, op, order)
  {
    hide Inv, RootMixed, RootCompleted, MarkedTooLate, Respelled, Revived;
    if !RootCompleted(c, s, op) && !MarkedTooLate(c, s, op, order) {
      RevivedTold(c, s, op, order);
    }
  }

  lemma TruncationForetold(c: Codec, s: Sim, op: Op, order: MarkOrder)
    requires op.TruncateFile? && Ready(s) && Inv(c, s)
    ensures var n := Step(c, s, op, order);
            && (n.Some? && OracleAgrees(c, n.value, Newest(s, op)) <==> !Foretold(c, s, op, order))
            && (!Foretold(c, s, op, order) ==> Inv(c, n.value))
  {
    TruncationExact(c, s);
    NothingNewer(s, op);
    hide Inv, Recoverable, OracleAgrees, TruncateStep, Newest;
    if !Foretold(c, s, op, order) {
      TruncateKeeps(c, s);
    }
  }

  // ---- Runs ----

  /** The run goes through without stopping, and the oracle agrees with both images after each operation. */
  ghost predicate Passes(c: Codec, s: Sim, ops: seq<Op>, order: MarkOrder)
    requires Ready(s) && KnownOps(ops, |s.model.points|)
    decreases |ops|
  {
    ops != [] ==>
      var next := Step(c, s, ops[0], order);
      next.Some? && OracleAgrees(c, next.value, Newest(s, ops[0])) && Passes(c, next.value, ops[1..], order)
  }

  /** Of no operation of the run is a disagreement foretold, judged where it starts. */
  ghost predicate NeverForetold(c: Codec, s: Sim, ops: seq<Op>, order: MarkOrder)
    requires Ready(s) && KnownOps(ops, |s.model.points|)
    decreases |ops|
  {
    ops != [] ==>
      && !Foretold(c, s, ops[0], order)
      && var next := Step(c, s, ops[0], order);
         next.Some? ==> NeverForetold(c, next.value, ops[1..], order)
  }

  /** A run, truncations and all, passes exactly when no operation's end is foretold otherwise. */
  lemma {:induction false} RunForetold(c: Codec, s: Sim, ops: seq<Op>, order: MarkOrder)
    requires Ready(s) && Inv(c, s) && KnownOps(ops, |s.model.points|) && NeverMixed(c, s, ops, order)
    ensures Passes(c, s, ops, order) <==> NeverForetold(c, s, ops, order)
    decreases |ops|
  {
    hide Step, OracleAgrees, Disturbed, RootMixed, Inv, Newest, Foretold;
    if ops != [] {
      StepForetold(c, s, ops[0], order);
      if !Foretold(c, s, ops[0], order) {
        RunForetold(c, Step(c, s, ops[0], order).value, ops[1..], order);
      }
    }
  }

  /** Such a run keeps the invariant to its end. */
  lemma {:induction false} ForetoldRunKeeps(c: Codec, s: Sim, ops: seq<Op>, order: MarkOrder)
    requires Ready(s) && Inv(c, s) && KnownOps(ops, |s.model.points|) && NeverMixed(c, s, ops, order)
    requires NeverForetold(c, s, ops, order)
    ensures RunOps(c, s, ops, order).Some? && Inv(c, RunOps(c, s, ops, order).value)
    decreases |ops|
  {
    hide Step, OracleAgrees, Disturbed, RootMixed, Inv, Newest, Foretold;
    if ops != [] {
      StepForetold(c, s, ops[0], order);
      ForetoldRunKeeps(c, Step(c, s, ops[0], order).value, ops[1..], order);
    }
  }

  /** At its end the reader's snapshot is the counted prefix of every series. */
  lemma ReachedReader(c: Codec, count: nat, first: Sketch, script: seq<Choice>, ops: seq<Op>, order: MarkOrder)
    requires KnownOps(ops, count)
    ensures var s := Start(c, count, first, script);
            NeverMixed(c, s, ops, order) && NeverForetold(c, s, ops, order) ==>
              RunOps(c, s, ops, order).Some? && ReaderPrefix(RunOps(c, s, ops, order).value)
  {
    hide Inv, NeverMixed, NeverForetold, RunOps, Start, ReaderPrefix;
    StartInv(c, count, first, script);
    var s := Start(c, count, first, script);
    if NeverMixed(c, s, ops, order) && NeverForetold(c, s, ops, order) {
      ForetoldRunKeeps(c, s, ops, order);
      InvReader(c, RunOps(c, s, ops, order).value);
    }
  }

  /** From a newly created file, for every coding, number of series, script, operations and order of marking. */
  lemma ForetoldFromCreation(c: Codec, count: nat, first: Sketch, script: seq<Choice>, ops: seq<Op>, order: MarkOrder)
    requires KnownOps(ops, count)
    ensures var s := Start(c, count, first, script);
            && OracleAgrees(c, s, s.writer.root)
            && (NeverMixed(c, s, ops, order) ==> (Passes(c, s, ops, order) <==> NeverForetold(c, s, ops, order)))
  {
    hide Inv, NeverMixed, NeverForetold, Passes, Start, OracleAgrees;
    StartInv(c, count, first, script);
    InvAgrees(c, Start(c, count, first, script));
    if NeverMixed(c, Start(c, count, first, script), ops, order) {
      RunForetold(c, Start(c, count, first, script), ops, order);
    }
  }

  /** Without short writes nothing is left to suppose of the bytes. */
  lemma ForetoldWholeWrites(c: Codec, count: nat, first: Sketch, script: seq<Choice>, ops: seq<Op>, order: MarkOrder)
    requires KnownOps(ops, count) && NoShort(script)
    ensures var s := Start(c, count, first, script);
            Passes(c, s, ops, order) <==> NeverForetold(c, s, ops, order)
  {
    hide NeverMixed, NeverForetold, Passes, Start, NoShort;
    CreatedStore(c, count, first, script);
    NeverMixedShort(c, Start(c, count, first, script), ops, order);
    ForetoldFromCreation(c, count, first, script, ops, order);
  }
}

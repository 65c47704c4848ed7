/**
 What a checkpoint leaves in both images, whichever of its storage calls fails.
 */
module Checkpoints {
  import opened Options
  import opened Objects
  import opened Encodings
  import opened Storage
  import opened Engine
  import opened Images
  import opened Appender

  /** The writer's memory agrees with the image it writes to. */
  ghost predicate WriterOk(c: Codec, w: Writer, image: seq<Byte>) {
    && WellFormedRoot(w.root) && w.root.committed <= |image| == w.writeOffset
    && PagesIntact(c, image, w.flushed)
    && (forall i :: 0 <= i < |w.pending| ==> |w.pending[i]| <= RECORDS_MAX)
    && (!w.dirty ==> w.flushed == [] && forall i :: 0 <= i < |w.pending| ==> w.pending[i] == [])
  }

  /** Everything the writer has been given for a series, on disk or still pending. */
  function Given(w: Writer, series: nat): seq<Point>
    requires w.root.Root? && w.root.manifest.Manifest? && series < |w.pending|
  {
    Content(w.root.manifest.pages + w.flushed, series) + w.pending[series]
  }

  /** Roots of `a` at or below a generation are all retained by `b`. */
  ghost predicate FewerRoots(c: Codec, a: seq<Byte>, b: seq<Byte>, generation: nat) {
    && |a| >= BLOCK_SIZE && |b| >= BLOCK_SIZE
    && forall k :: 0 <= k < SLOT_COUNT && DecodeSlot(c, a, k).Some? && DecodeSlot(c, a, k).value.generation <= generation ==>
        DecodeSlot(c, b, k) == DecodeSlot(c, a, k)
  }

  lemma FewerRootsAfterExtension(c: Codec, before: seq<Byte>, after: seq<Byte>, generation: nat)
    requires |before| >= BLOCK_SIZE && before <= after
    ensures FewerRoots(c, after, before, generation)
    ensures forall slot :: 0 <= slot < SLOT_COUNT ==> DecodeSlot(c, after, slot) == DecodeSlot(c, before, slot)
  {
    assert before[..BLOCK_SIZE] == after[..BLOCK_SIZE];
    SameControlDecodes(c, before, after);
  }

  lemma FewerRootsTransitive(c: Codec, a: seq<Byte>, b: seq<Byte>, d: seq<Byte>, high: nat, low: nat)
    requires FewerRoots(c, a, b, high) && FewerRoots(c, b, d, low) && low <= high
    ensures FewerRoots(c, a, d, low)
  {
    hide DecodeSlot;
  }

  function ObjectsDraft(w: Writer, layout: Layout): Draft
    requires w.root.Root? && w.root.manifest.Manifest?
  {
    var d := CheckpointObjects(w, layout);
    Emit(d, ManifestFor(w, layout, d))
  }

  function PublishedRoot(w: Writer, layout: Layout): (next: Object)
    requires w.root.Root? && w.root.manifest.Manifest?
    ensures next.Root? && next.generation == w.root.generation + 1
  {
    NextRoot(w, layout, CheckpointObjects(w, layout))
  }

  lemma ObjectsDraftOk(c: Codec, w: Writer, image: seq<Byte>, layout: Layout)
    requires WriterOk(c, w, image) && |image| >= BLOCK_SIZE
    ensures var pages := w.root.manifest.pages + w.flushed;
            && DraftOk(CheckpointObjects(w, layout), pages, |image|)
            && DraftOk(ObjectsDraft(w, layout), pages, |image|)
            && ObjectsDraft(w, layout).pages == CheckpointObjects(w, layout).pages
  {
    var pages := w.root.manifest.pages + w.flushed;
    var start := StartDraft(w);
    assert start.pages + PagesOf(start.actions) == start.pages;
    FlushOk(start, layout, w.pending, |w.pending|, pages, |image|);
    var flushed := FlushAll(start, layout, w.pending, |w.pending|);
    NodesOk(flushed, layout, layout.nodes, pages, |image|);
    var d := CheckpointObjects(w, layout);
    EmitOk(d, ManifestFor(w, layout, d), pages, |image|);
  }

  /** The published root names every point the writer was given. */
  lemma PublishedContent(c: Codec, w: Writer, image: seq<Byte>, layout: Layout, series: nat)
    requires WriterOk(c, w, image) && |image| >= BLOCK_SIZE && series < |w.pending|
    ensures Content(PublishedRoot(w, layout).manifest.pages, series) == Given(w, series)
  {
    var start := StartDraft(w);
    var flushed := FlushAll(start, layout, w.pending, |w.pending|);
    assert start.pages + PagesOf(start.actions) == start.pages;
    FlushOk(start, layout, w.pending, |w.pending|, start.pages, |image|);
    NodesOk(flushed, layout, layout.nodes, start.pages, |image|);
    FlushContent(start, layout, w.pending, |w.pending|, series);
  }

  lemma {:induction false} PlannedPagesEnd(actions: seq<Action>, start: nat)
    requires Ascending(actions, start)
    ensures forall k :: 0 <= k < |PagesOf(actions)| ==>
              PagesOf(actions)[k].offset + SizeOf(PagesOf(actions)[k].item) <= End(actions, start)
  {
    if actions != [] {
      PlannedPagesEnd(actions[..|actions| - 1], start);
    }
  }

  lemma PagesIntactAfterExtension(c: Codec, a: seq<Byte>, b: seq<Byte>, pages: seq<Placed>)
    requires a <= b && PagesIntact(c, a, pages)
    ensures PagesIntact(c, b, pages)
  {
    forall k | 0 <= k < |pages|
      ensures IntactAt(c, b, pages[k].offset, pages[k].item)
    {
      IntactAfterExtension(c, a, b, pages[k].offset, pages[k].item);
    }
  }

  lemma RootPagesIntact(c: Codec, image: seq<Byte>, r: Object)
    requires WellFormedRoot(r) && GraphIntact(c, image, r)
    ensures PagesIntact(c, image, r.manifest.pages)
  {
  }

  /** Every page the new manifest names stands in the image, before the manifest. */
  lemma ManifestPagesPlaced(c: Codec, w: Writer, image: seq<Byte>, after: seq<Byte>, layout: Layout)
    requires Carries(c, image, w.root) && WriterOk(c, w, image) && image <= after
    requires AllWritten(c, after, ObjectsDraft(w, layout).actions)
    ensures var d := CheckpointObjects(w, layout);
            && PagesIntact(c, after, d.pages)
            && forall k :: 0 <= k < |d.pages| ==> d.pages[k].offset + SizeOf(d.pages[k].item) <= d.offset
  {
    hide Ascending, CheckpointObjects;
    var d := CheckpointObjects(w, layout);
    var objects := ObjectsDraft(w, layout);
    ObjectsDraftOk(c, w, image, layout);
    assert forall i :: 0 <= i < |d.actions| ==> d.actions[i] == objects.actions[i];
    WrittenPagesIntact(c, after, d.actions, |image|);
    PlannedPagesEnd(d.actions, |image|);
    HeldPagesIntact(c, w, image);
    JoinedPlaced(c, image, after, w.root.manifest.pages + w.flushed, PagesOf(d.actions), d.offset);
  }

  lemma HeldPagesIntact(c: Codec, w: Writer, image: seq<Byte>)
    requires Carries(c, image, w.root) && WriterOk(c, w, image)
    ensures PagesIntact(c, image, w.root.manifest.pages + w.flushed)
  {
    hide WellFormedRoot;
    RootPagesIntact(c, image, w.root);
  }

  /** Pages that stood before and pages just written. */
  lemma JoinedPlaced(c: Codec, image: seq<Byte>, after: seq<Byte>, pages: seq<Placed>, written: seq<Placed>, end: nat)
    requires image <= after && PagesIntact(c, image, pages) && PagesIntact(c, after, written) && |image| <= end
    requires forall k :: 0 <= k < |written| ==> written[k].offset + SizeOf(written[k].item) <= end
    ensures PagesIntact(c, after, pages + written)
    ensures forall k :: 0 <= k < |pages + written| ==> (pages + written)[k].offset + SizeOf((pages + written)[k].item) <= end
  {
    PagesIntactAfterExtension(c, image, after, pages);
    forall k | 0 <= k < |pages|
      ensures pages[k].offset + SizeOf(pages[k].item) <= end
    {
      assert IntactAt(c, image, pages[k].offset, pages[k].item);
    }
  }

  /** Once the objects are written, the next root may be published. */
  lemma NextRootSucceeds(c: Codec, w: Writer, image: seq<Byte>, after: seq<Byte>, layout: Layout)
    requires Carries(c, image, w.root) && WriterOk(c, w, image) && image <= after
    requires AllWritten(c, after, ObjectsDraft(w, layout).actions)
    requires |after| == ObjectsDraft(w, layout).offset
    ensures var next := PublishedRoot(w, layout);
            Succeeds(c, after, w.root, next) && next.committed == |after|
  {
    var d := CheckpointObjects(w, layout);
    var objects := ObjectsDraft(w, layout);
    var next := PublishedRoot(w, layout);
    ObjectsDraftOk(c, w, image, layout);
    ManifestPagesPlaced(c, w, image, after, layout);
    assert objects.actions[|d.actions|] == Write(next.manifest, next.manifestOffset);
    assert w.root.manifest.pages <= d.pages;
    SameExtentIntact(c, image, after, w.root);
  }

  /** A torn write reads and changes one slot only, so bytes appended later do not matter to it. */
  lemma TearIsLocal(c: Codec, a: seq<Byte>, b: seq<Byte>, next: Object, amount: nat)
    requires |a| >= BLOCK_SIZE && a <= b && next.Root? && next.generation >= 1 && amount <= SLOT_SIZE
    ensures TailStands(c, a, next, amount) <==> TailStands(c, b, next, amount)
    ensures Forges(c, a, next, amount) <==> Forges(c, b, next, amount)
  {
    var slot := SlotOf(next.generation);
    assert SlotBytes(a, slot) == SlotBytes(b, slot);
    TornBytes(c, a, next, amount);
    TornBytes(c, b, next, amount);
  }

  /** How much of a root write of this draw is stored, if it falls short. */
  function StoredShort(draw: Choice): (amount: Option<nat>)
    ensures amount.Some? ==> 1 <= amount.value < SLOT_SIZE
  {
    if draw.Short? then Some(ShortAmount(draw.amount, SLOT_SIZE)) else None
  }

  predicate ForgedWrite(c: Codec, image: seq<Byte>, next: Object, draw: Choice)
    requires |image| >= BLOCK_SIZE && next.Root? && next.generation >= 1
  {
    StoredShort(draw).Some? && Forges(c, image, next, StoredShort(draw).value)
  }

  /** The root write falls short, and what it leaves out already stood in the slot. */
  predicate CompletedWrite(c: Codec, image: seq<Byte>, next: Object, draw: Choice)
    requires |image| >= BLOCK_SIZE && next.Root? && next.generation >= 1
  {
    StoredShort(draw).Some? && TailStands(c, image, next, StoredShort(draw).value)
  }

  /** The image after a root write that finished (`ok`) or was cut short. */
  ghost predicate RootImage(c: Codec, image: seq<Byte>, after: seq<Byte>, r: Object, next: Object, ok: bool) {
    && r.Root? && next.Root?
    && |after| == |image|
    && FewerRoots(c, after, image, r.generation)
    && Carries(c, after, if ok then next else r)
  }

  lemma WholeRootWrite(c: Codec, image: seq<Byte>, r: Object, next: Object)
    requires Carries(c, image, r) && Succeeds(c, image, r, next)
    ensures RootImage(c, image, Put(image, c.encode(next), SlotOffset(SlotOf(next.generation))), r, next, true)
  {
    hide DecodeSlot, Put;
    var slot := SlotOf(next.generation);
    assert r.Root? && |image| >= BLOCK_SIZE;
    CarriesAfterPublish(c, image, r, next);
    OtherSlotsKept(c, image, c.encode(next), slot);
    PublishedDecodes(c, image, next);
  }

  lemma TornRootWrite(c: Codec, image: seq<Byte>, r: Object, next: Object, amount: nat)
    requires Carries(c, image, r) && Succeeds(c, image, r, next) && amount <= SLOT_SIZE && !Forges(c, image, next, amount)
    ensures RootImage(c, image, Torn(c, image, next, amount), r, next, false)
  {
    hide DecodeSlot, Put;
    CarriesAfterTornPublish(c, image, r, next, amount);
    OtherSlotsKept(c, image, c.encode(next)[..amount], SlotOf(next.generation));
  }

  /** What each draw makes of a root write. */
  lemma RootCall(c: Codec, s: Store, next: Object)
    requires next.Root? && next.generation >= 1
    ensures var slot := SlotOffset(SlotOf(next.generation));
            var o := PwriteAll(s, c.encode(next), slot);
            && o.store.dirty == (match Draw(s)
                                 case NoFault => Put(s.dirty, c.encode(next), slot)
                                 case Short(k) => Torn(c, s.dirty, next, ShortAmount(k, SLOT_SIZE))
                                 case _ => s.dirty)
            && (o.ok <==> Draw(s).NoFault?)
            && (Draw(s).Short? ==> o.store.lastFault == Some(ShortWrite))
            && o.store.durable == s.durable
            && o.store.faultsEnabled == s.faultsEnabled
            && o.store.priorGenerationBecameDurable == s.priorGenerationBecameDurable
            && !o.store.faultOnSync
            && (if o.ok then o.store.lastCompletedWriteOffset < BLOCK_SIZE else o.store.lastFault.Some?)
  {
    hide Put;
  }

  /**
   A root write moves the volatile image one generation on, or leaves it carrying the old root; when it
   falls short over bytes that complete it, the new root stands all the same.
   */
  lemma RootWriteEffect(c: Codec, s: Store, r: Object, next: Object)
    requires Carries(c, s.dirty, r) && Succeeds(c, s.dirty, r, next) && next.Root? && next.generation >= 1
    requires |s.dirty| >= BLOCK_SIZE && !ForgedWrite(c, s.dirty, next, Draw(s))
    ensures var slot := SlotOffset(SlotOf(next.generation));
            var o := PwriteAll(s, c.encode(next), slot);
            && RootImage(c, s.dirty, o.store.dirty, r, next, o.ok)
            && (o.ok ==> o.store.dirty == Put(s.dirty, c.encode(next), slot))
            && (CompletedWrite(c, s.dirty, next, Draw(s)) ==>
                  !o.ok && o.store.lastFault == Some(ShortWrite) && Overtaken(c, o.store.dirty, r.generation))
            && o.store.durable == s.durable
            && o.store.faultsEnabled == s.faultsEnabled
            && o.store.priorGenerationBecameDurable == s.priorGenerationBecameDurable
            && !o.store.faultOnSync
            && (if o.ok then o.store.lastCompletedWriteOffset < BLOCK_SIZE else o.store.lastFault.Some?)
  {
    hide Carries, Succeeds, Overtaken, Put, Torn, Forges, TailStands, RootImage, FewerRoots, PwriteAll, SlotOf;
    RootCall(c, s, next);
    match Draw(s)
    case NoFault => WholeRootWrite(c, s.dirty, r, next);
    case Short(k) => ShortRootWrite(c, s.dirty, r, next, ShortAmount(k, SLOT_SIZE));
    case Crash(_) => NoRootWrite(c, s.dirty, r, next);
    case FailWrite => NoRootWrite(c, s.dirty, r, next);
  }

  lemma NoRootWrite(c: Codec, image: seq<Byte>, r: Object, next: Object)
    requires Carries(c, image, r) && Succeeds(c, image, r, next)
    ensures RootImage(c, image, image, r, next, false)
  {
  }

  lemma ShortRootWrite(c: Codec, image: seq<Byte>, r: Object, next: Object, amount: nat)
    requires Carries(c, image, r) && Succeeds(c, image, r, next) && amount <= SLOT_SIZE && !Forges(c, image, next, amount)
    ensures RootImage(c, image, Torn(c, image, next, amount), r, next, false)
    ensures TailStands(c, image, next, amount) ==> Overtaken(c, Torn(c, image, next, amount), r.generation)
  {
    hide DecodeSlot, Put, Overtaken, Torn;
    TornRootWrite(c, image, r, next, amount);
    TornSlotDecodes(c, image, next, amount);
    if TailStands(c, image, next, amount) {
      StillSucceeds(c, image, r, next, amount);
      CompletedOvertakes(c, Torn(c, image, next, amount), r, next);
    }
  }

  lemma StillSucceeds(c: Codec, image: seq<Byte>, r: Object, next: Object, amount: nat)
    requires Succeeds(c, image, r, next) && |image| >= BLOCK_SIZE && amount <= SLOT_SIZE
    ensures Succeeds(c, Torn(c, image, next, amount), r, next)
  {
    OtherSlotsKept(c, image, c.encode(next)[..amount], SlotOf(next.generation));
    SameExtentIntact(c, image, Torn(c, image, next, amount), next);
  }

  // ---- A whole checkpoint ----

  /** Nothing was published: the volatile image still carries `r`, and so does the durable one if it moved. */
  ghost predicate Unpublished(c: Codec, s: Store, t: Store, r: Object) {
    && Carries(c, t.dirty, r) && |s.dirty| <= |t.dirty| && FewerRoots(c, t.dirty, s.dirty, r.generation)
    && t.lastFault.Some? && !(t.faultOnSync && t.publishedBeforeSyncFault)
    && (|| (t.durable == s.durable && (t.priorGenerationBecameDurable ==> s.priorGenerationBecameDurable))
        || (t.priorGenerationBecameDurable && SyncedBefore(c, s, t, r)))
  }

  /** The durable image was synced with `r` still the newest root written. */
  ghost predicate SyncedBefore(c: Codec, s: Store, t: Store, r: Object) {
    Carries(c, t.durable, r) && s.dirty <= t.durable && FewerRoots(c, t.dirty, t.durable, r.generation)
  }

  /** The volatile image carries the next generation, and of the root slots only its own has changed. */
  ghost predicate CarriesNext(c: Codec, s: Store, t: Store, r: Object, next: Object) {
    && r.Root? && next.Root? && next.generation >= 1
    && Carries(c, t.dirty, next) && |s.dirty| < |t.dirty| == next.committed && FewerRoots(c, t.dirty, s.dirty, r.generation)
    && OtherSlotsSame(c, s.dirty, t.dirty, SlotOf(next.generation))
  }

  /** All slots but one show the roots they showed before. */
  ghost predicate OtherSlotsSame(c: Codec, a: seq<Byte>, b: seq<Byte>, slot: nat) {
    && |a| >= BLOCK_SIZE && |b| >= BLOCK_SIZE
    && forall k :: 0 <= k < SLOT_COUNT && k != slot ==> DecodeSlot(c, b, k) == DecodeSlot(c, a, k)
  }

  /** The volatile image is the durable one with the root written, and nothing else. */
  ghost predicate OnlyRootMissing(c: Codec, t: Store, r: Object, next: Object) {
    && Succeeds(c, t.durable, r, next)
    && t.dirty == Put(t.durable, c.encode(next), SlotOffset(SlotOf(next.generation)))
  }

  /** The root was written, then the sync after it failed. */
  ghost predicate PublishedUnsynced(c: Codec, s: Store, t: Store, r: Object, next: Object) {
    && CarriesNext(c, s, t, r, next)
    && (t.lastFault == Some(ProcessCrash) || t.lastFault == Some(PowerLoss))
    && t.faultOnSync && t.publishedBeforeSyncFault
    && t.priorGenerationBecameDurable && SyncedBefore(c, s, t, r) && OnlyRootMissing(c, t, r, next)
  }

  ghost predicate Published(c: Codec, s: Store, t: Store, r: Object, next: Object, sync: bool) {
    && CarriesNext(c, s, t, r, next)
    && t.durable == (if sync then t.dirty else s.durable)
    && !t.priorGenerationBecameDurable
  }

  /** `through` says whether the calls got as far as storing the root. */
  ghost predicate CheckpointEffect(c: Codec, s: Store, o: Outcome, r: Object, next: Object, sync: bool, through: bool) {
    && o.store.faultsEnabled == s.faultsEnabled
    && (!sync ==> o.store.durable == s.durable)
    && if o.ok then through && Published(c, s, o.store, r, next, sync)
       else if through then sync && PublishedUnsynced(c, s, o.store, r, next)
       else Unpublished(c, s, o.store, r)
  }

  /** The state once every object of a checkpoint is written, before anything is published. */
  ghost predicate ObjectsDone(c: Codec, s: Store, t: Store, w: Writer, next: Object) {
    && next.Root? && w.root.Root?
    && Carries(c, t.dirty, w.root) && Succeeds(c, t.dirty, w.root, next) && next.committed == |t.dirty|
    && s.dirty <= t.dirty && |s.dirty| < |t.dirty| && FewerRoots(c, t.dirty, s.dirty, w.root.generation)
    && t.durable == s.durable && t.faultsEnabled == s.faultsEnabled
    && !t.priorGenerationBecameDurable && t.lastCompletedWriteOffset >= BLOCK_SIZE
  }

  ghost predicate CheckpointReady(c: Codec, s: Store, w: Writer) {
    Carries(c, s.dirty, w.root) && WriterOk(c, w, s.dirty)
  }

  /** The first phase: either all objects are in place, or nothing was published. */
  lemma ObjectsPhase(c: Codec, s: Store, w: Writer, layout: Layout)
    requires CheckpointReady(c, s, w)
    ensures var o := Exec(c, s, ObjectsDraft(w, layout).actions);
            var next := PublishedRoot(w, layout);
            && o.store.durable == s.durable && o.store.faultsEnabled == s.faultsEnabled
            && (if o.ok then ObjectsDone(c, s, o.store, w, next) else Unpublished(c, s, o.store, w.root))
  {
    hide DecodeSlot, ChainIntact, HeaderIntact, NoGap, SlotExplained, Retains;
    var d := ObjectsDraft(w, layout);
    ObjectsDraftOk(c, w, s.dirty, layout);
    ExecObjects(c, s, d.actions);
    var o := Exec(c, s, d.actions);
    CarriesAfterExtension(c, s.dirty, o.store.dirty, w.root);
    FewerRootsAfterExtension(c, s.dirty, o.store.dirty, w.root.generation);
    if o.ok {
      NextRootSucceeds(c, w, s.dirty, o.store.dirty, layout);
    }
  }

  function Syncs(sync: bool): seq<Action> { if sync then [SyncFile] else [] }

  /** The calls ahead of the root write, with the sync before it when asked for. */
  function BeforeRoot(w: Writer, sync: bool, layout: Layout): seq<Action>
    requires w.root.Root? && w.root.manifest.Manifest?
  {
    ObjectsDraft(w, layout).actions + Syncs(sync)
  }

  function RootWrite(w: Writer, layout: Layout): Action
    requires w.root.Root? && w.root.manifest.Manifest?
  {
    var next := PublishedRoot(w, layout);
    Write(next, SlotOffset(SlotOf(next.generation)))
  }

  /** The calls up to and including the root write. */
  function ThroughRoot(w: Writer, sync: bool, layout: Layout): seq<Action>
    requires w.root.Root? && w.root.manifest.Manifest?
  {
    BeforeRoot(w, sync, layout) + [RootWrite(w, layout)]
  }

  lemma PlanIsPhases(w: Writer, sync: bool, layout: Layout)
    requires w.root.Root? && w.root.manifest.Manifest? && w.dirty
    ensures var plan := PlanCheckpoint(w, sync, layout);
            && plan.actions == ThroughRoot(w, sync, layout) + Syncs(sync)
            && plan.writer.root == PublishedRoot(w, layout)
  {
  }

  /** The state the root write starts from: all objects in place, and durable when asked for. */
  ghost predicate ReadyForRoot(c: Codec, s: Store, t: Store, w: Writer, next: Object, sync: bool) {
    && next.Root? && w.root.Root?
    && Carries(c, t.dirty, w.root) && Succeeds(c, t.dirty, w.root, next) && next.committed == |t.dirty|
    && s.dirty <= t.dirty && |s.dirty| < |t.dirty| && FewerRoots(c, t.dirty, s.dirty, w.root.generation)
    && t.durable == (if sync then t.dirty else s.durable) && t.faultsEnabled == s.faultsEnabled
    && t.priorGenerationBecameDurable == sync
  }

  lemma ObjectsThenSync(c: Codec, s: Store, w: Writer, sync: bool, layout: Layout)
    requires CheckpointReady(c, s, w)
    ensures var o := Exec(c, s, BeforeRoot(w, sync, layout));
            var next := PublishedRoot(w, layout);
            && o.store.faultsEnabled == s.faultsEnabled && (!sync ==> o.store.durable == s.durable)
            && (if o.ok then ReadyForRoot(c, s, o.store, w, next, sync) else Unpublished(c, s, o.store, w.root))
  {
    hide Carries, Succeeds, FewerRoots, ObjectsDraft, PublishedRoot;
    var objects := ObjectsDraft(w, layout).actions;
    ObjectsPhase(c, s, w, layout);
    if sync {
      ExecLast(c, s, objects, SyncFile);
    } else {
      assert objects + [] == objects;
    }
  }

  /** The root write may complete a root that is neither `next` nor anything this slot was meant for. */
  ghost predicate ForgesRoot(c: Codec, s: Store, w: Writer, sync: bool, layout: Layout)
    requires w.root.Root? && w.root.manifest.Manifest?
  {
    var o := Exec(c, s, BeforeRoot(w, sync, layout));
    o.ok && |o.store.dirty| >= BLOCK_SIZE && ForgedWrite(c, o.store.dirty, PublishedRoot(w, layout), Draw(o.store))
  }

  /** The root write falls short over bytes that complete it. */
  ghost predicate CompletesRoot(c: Codec, s: Store, w: Writer, sync: bool, layout: Layout)
    requires w.root.Root? && w.root.manifest.Manifest?
  {
    var o := Exec(c, s, BeforeRoot(w, sync, layout));
    o.ok && |o.store.dirty| >= BLOCK_SIZE && CompletedWrite(c, o.store.dirty, PublishedRoot(w, layout), Draw(o.store))
  }

  /** The root write, after the calls ahead of it. */
  lemma RootPhase(c: Codec, s: Store, w: Writer, sync: bool, layout: Layout)
    requires CheckpointReady(c, s, w) && !ForgesRoot(c, s, w, sync, layout)
    ensures var next := PublishedRoot(w, layout);
            var o := Exec(c, s, ThroughRoot(w, sync, layout));
            && o.store.faultsEnabled == s.faultsEnabled && (!sync ==> o.store.durable == s.durable)
            && (if o.ok
                then && CarriesNext(c, s, o.store, w.root, next) && o.store.lastCompletedWriteOffset < BLOCK_SIZE
                     && o.store.priorGenerationBecameDurable == sync
                     && (sync ==> SyncedBefore(c, s, o.store, w.root) && OnlyRootMissing(c, o.store, w.root, next))
                else Unpublished(c, s, o.store, w.root))
            && (CompletesRoot(c, s, w, sync, layout) ==>
                  !o.ok && o.store.lastFault == Some(ShortWrite) && Overtaken(c, o.store.dirty, w.root.generation))
  {
    CarriedIsLong(c, s.dirty, w.root);
    hide Carries, Succeeds, FewerRoots, PublishedRoot, BeforeRoot, Overtaken, PwriteAll, OtherSlotsSame, Put;
    var before := BeforeRoot(w, sync, layout);
    var next := PublishedRoot(w, layout);
    ObjectsThenSync(c, s, w, sync, layout);
    ExecLast(c, s, before, RootWrite(w, layout));
    var o := Exec(c, s, before);
    if o.ok {
      CarriedIsLong(c, o.store.dirty, w.root);
      RootWriteEffect(c, o.store, w.root, next);
      var after := Do(c, o.store, RootWrite(w, layout)).store.dirty;
      SlotsThroughRoot(c, s.dirty, o.store.dirty, next);
      FewerRootsTransitive(c, after, o.store.dirty, s.dirty, w.root.generation, w.root.generation);
    }
  }

  lemma SlotsThroughRoot(c: Codec, before: seq<Byte>, image: seq<Byte>, next: Object)
    requires before <= image && next.Root? && next.generation >= 1
    requires |before| >= BLOCK_SIZE
    ensures var slot := SlotOf(next.generation);
            OtherSlotsSame(c, before, Put(image, c.encode(next), SlotOffset(slot)), slot)
  {
    hide DecodeSlot;
    FewerRootsAfterExtension(c, before, image, 0);
    OtherSlotsKept(c, image, c.encode(next), SlotOf(next.generation));
  }

  lemma CarriedIsLong(c: Codec, image: seq<Byte>, r: Object)
    requires Carries(c, image, r)
    ensures |image| >= BLOCK_SIZE
  {
  }

  /** The sync after the root: success makes both images alike, a fault leaves the root published. */
  lemma FinalSync(c: Codec, s: Store, t: Store, r: Object, next: Object)
    requires CarriesNext(c, s, t, r, next) && SyncedBefore(c, s, t, r) && OnlyRootMissing(c, t, r, next)
    requires t.priorGenerationBecameDurable && t.lastCompletedWriteOffset < BLOCK_SIZE
    requires t.faultsEnabled == s.faultsEnabled
    ensures CheckpointEffect(c, s, Sync(t), r, next, true, true)
    ensures !Sync(t).ok ==> PublishedUnsynced(c, s, Sync(t).store, r, next)
  {
    hide Carries, Succeeds, FewerRoots;
  }

  /** A checkpoint of a writer with pending points, in every outcome. */
  lemma CheckpointOutcome(c: Codec, s: Store, w: Writer, sync: bool, layout: Layout)
    requires CheckpointReady(c, s, w) && w.dirty && !ForgesRoot(c, s, w, sync, layout)
    ensures var plan := PlanCheckpoint(w, sync, layout);
            var o := Exec(c, s, plan.actions);
            && CheckpointEffect(c, s, o, w.root, plan.writer.root, sync, Exec(c, s, ThroughRoot(w, sync, layout)).ok)
            && (CompletesRoot(c, s, w, sync, layout) ==>
                  !o.ok && o.store.lastFault == Some(ShortWrite) && Overtaken(c, o.store.dirty, w.root.generation))
  {
    hide Carries, Succeeds, FewerRoots, PublishedRoot, ThroughRoot, Overtaken, CompletesRoot;
    PlanIsPhases(w, sync, layout);
    RootPhase(c, s, w, sync, layout);
    var through := ThroughRoot(w, sync, layout);
    var o := Exec(c, s, through);
    if sync {
      ExecLast(c, s, through, SyncFile);
      if o.ok {
        FinalSync(c, s, o.store, w.root, PublishedRoot(w, layout));
      }
    } else {
      assert through + [] == through;
    }
  }
}

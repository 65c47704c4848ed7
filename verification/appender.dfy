/**
 The writer's side of the engine, reduced to the order of its storage calls: page writes while points
 arrive, and a checkpoint that writes pages, index nodes and manifest, syncs, writes the next root slot
 and syncs again. Encoded sizes, the contents of index nodes and the number of index writes are left arbitrary.
 */
module Appender {
  import opened Options
  import opened Objects
  import opened Encodings
  import opened Storage
  import opened Engine
  import opened Images

  datatype Action = Write(item: Object, offset: nat) | SyncFile

  datatype Sketch = Sketch(size: Positive, tag: nat)

  /** Sizes and tags of the objects an operation encodes, in order, and how many index writes it makes. */
  datatype Layout = Layout(sketches: seq<Sketch>, nodes: nat)

  datatype Writer = Writer(
    root: Object,
    writeOffset: nat,
    pending: seq<seq<Point>>,
    flushed: seq<Placed>,
    dirty: bool)

  /** A writer in the middle of an operation: calls planned so far and the pages they place. */
  datatype Draft = Draft(offset: nat, actions: seq<Action>, pages: seq<Placed>)

  function Align8(offset: nat): (aligned: nat)
    ensures offset <= aligned < offset + 8 && aligned % 8 == 0
  {
    (offset + 7) / 8 * 8
  }

  function SketchAt(layout: Layout, k: nat): Sketch {
    if k < |layout.sketches| then layout.sketches[k] else Sketch(1, 0)
  }

  function Emit(d: Draft, item: Object): Draft {
    var offset := Align8(d.offset);
    Draft(offset + SizeOf(item), d.actions + [Write(item, offset)],
          if item.Page? then d.pages + [Placed(offset, item)] else d.pages)
  }

  function EmitPage(d: Draft, layout: Layout, series: nat, points: seq<Point>): Draft {
    Emit(d, Page(SketchAt(layout, |d.actions|).size, series, points))
  }

  function NodeAt(layout: Layout, k: nat): Object {
    Node(SketchAt(layout, k).size, SketchAt(layout, k).tag)
  }

  function EmitNodes(d: Draft, layout: Layout, n: nat): Draft {
    if n == 0 then d
    else
      var before := EmitNodes(d, layout, n - 1);
      Emit(before, NodeAt(layout, |before.actions|))
  }

  // ---- Appending a batch ----

  /** Fill the series' column buffer, writing a page whenever a full one is complete. */
  function Fill(d: Draft, layout: Layout, series: nat, pending: seq<Point>, batch: seq<Point>): (r: (Draft, seq<Point>))
    requires |pending| <= RECORDS_MAX
    ensures |r.1| <= RECORDS_MAX
    decreases |batch|, |pending|
  {
    if batch == [] then (d, pending)
    else if |pending| == RECORDS_MAX then Fill(EmitPage(d, layout, series, pending), layout, series, [], batch)
    else if pending == [] && |batch| >= RECORDS_MAX then
      Fill(EmitPage(d, layout, series, batch[..RECORDS_MAX]), layout, series, [], batch[RECORDS_MAX..])
    else
      var room := RECORDS_MAX - |pending|;
      var amount := if room < |batch| then room else |batch|;
      Fill(d, layout, series, pending + batch[..amount], batch[amount..])
  }

  function StartDraft(w: Writer): Draft
    requires w.root.Root? && w.root.manifest.Manifest?
  {
    Draft(w.writeOffset, [], w.root.manifest.pages + w.flushed)
  }

  /** The last timestamp the writer has accepted for a series. */
  function LastPoint(w: Writer, series: nat): Option<Point>
    requires w.root.Root? && w.root.manifest.Manifest? && series < |w.pending|
  {
    var all := Content(w.root.manifest.pages + w.flushed, series) + w.pending[series];
    if all == [] then None else Some(all[|all| - 1])
  }

  /** The engine refuses a batch out of order before it touches storage. */
  predicate Accepts(w: Writer, series: nat, batch: seq<Point>)
    requires w.root.Root? && w.root.manifest.Manifest? && series < |w.pending|
  {
    && StrictlyIncreasing(batch)
    && (batch != [] && LastPoint(w, series).Some? ==> LastPoint(w, series).value.timestamp < batch[0].timestamp)
  }

  // ---- Checkpoint ----

  /** One page for every series among the first `n` with pending points. */
  function FlushAll(d: Draft, layout: Layout, pending: seq<seq<Point>>, n: nat): Draft
    requires n <= |pending|
  {
    if n == 0 then d
    else
      var before := FlushAll(d, layout, pending, n - 1);
      if pending[n - 1] == [] then before else EmitPage(before, layout, n - 1, pending[n - 1])
  }

  datatype Checkpoint = Checkpoint(actions: seq<Action>, writer: Writer)

  /** Pages and index nodes: everything a checkpoint writes ahead of the manifest. */
  function CheckpointObjects(w: Writer, layout: Layout): Draft
    requires w.root.Root? && w.root.manifest.Manifest?
  {
    EmitNodes(FlushAll(StartDraft(w), layout, w.pending, |w.pending|), layout, layout.nodes)
  }

  function ManifestFor(w: Writer, layout: Layout, d: Draft): Object
    requires w.root.Root?
  {
    Manifest(SketchAt(layout, |d.actions|).size, SketchAt(layout, |d.actions|).tag, w.root.generation + 1, d.pages)
  }

  function NextRoot(w: Writer, layout: Layout, d: Draft): Object
    requires w.root.Root?
  {
    var manifest := ManifestFor(w, layout, d);
    var offset := Align8(d.offset);
    Root(w.root.generation + 1, offset + SizeOf(manifest), offset, manifest, Some(w.root))
  }

  function PlanCheckpoint(w: Writer, sync: bool, layout: Layout): Checkpoint
    requires w.root.Root? && w.root.manifest.Manifest?
  {
    var syncs := if sync then [SyncFile] else [];
    if !w.dirty then Checkpoint(syncs, w)
    else
      var d := CheckpointObjects(w, layout);
      var next := NextRoot(w, layout, d);
      var objects := Emit(d, next.manifest);
      Checkpoint(
        objects.actions + syncs + [Write(next, SlotOffset(SlotOf(next.generation)))] + syncs,
        Writer(next, objects.offset, seq(|w.pending|, _ => []), [], false))
  }

  // ---- Running a plan against storage ----

  function Do(c: Codec, s: Store, action: Action): Outcome {
    match action
    case Write(item, offset) => PwriteAll(s, c.encode(item), offset)
    case SyncFile => Sync(s)
  }

  /** Calls are made in order until one fails. */
  function Exec(c: Codec, s: Store, actions: seq<Action>): Outcome {
    if actions == [] then Outcome(s, true)
    else
      var before := Exec(c, s, actions[..|actions| - 1]);
      if before.ok then Do(c, before.store, actions[|actions| - 1]) else before
  }

  lemma ExecLast(c: Codec, s: Store, actions: seq<Action>, last: Action)
    ensures Exec(c, s, actions + [last]) ==
            if Exec(c, s, actions).ok then Do(c, Exec(c, s, actions).store, last) else Exec(c, s, actions)
  {
    assert (actions + [last])[..|actions|] == actions;
  }

  // ---- Object writes only extend the image ----

  /** Where the file ends once the calls are made. */
  function End(actions: seq<Action>, start: nat): nat {
    if actions == [] then start
    else
      var last := actions[|actions| - 1];
      if last.Write? then last.offset + SizeOf(last.item) else End(actions[..|actions| - 1], start)
  }

  /** Each write starts at or past the end of the one before it. */
  ghost predicate Ascending(actions: seq<Action>, start: nat) {
    actions != [] ==>
      var rest, last := actions[..|actions| - 1], actions[|actions| - 1];
      && last.Write?
      && last.offset >= BLOCK_SIZE && last.offset >= End(rest, start)
      && Ascending(rest, start)
  }

  ghost predicate AllWritten(c: Codec, image: seq<Byte>, actions: seq<Action>) {
    forall i :: 0 <= i < |actions| && actions[i].Write? ==> IntactAt(c, image, actions[i].offset, actions[i].item)
  }

  /** One write past the end, finished or not, adds a zero gap and then bytes of that object only. */
  lemma WriteExtends(c: Codec, s: Store, item: Object, offset: nat)
    requires |s.dirty| <= offset
    ensures var o := PwriteAll(s, c.encode(item), offset);
            && s.dirty <= o.store.dirty
            && |o.store.dirty| <= offset + SizeOf(item)
            && (forall p :: |s.dirty| <= p < |o.store.dirty| ==>
                  o.store.dirty[p] == if p < offset then 0 else c.encode(item)[p - offset])
            && (o.ok ==> |o.store.dirty| == offset + SizeOf(item) && IntactAt(c, o.store.dirty, offset, item))
  {
  }

  lemma IntactAfterExtension(c: Codec, a: seq<Byte>, b: seq<Byte>, offset: nat, item: Object)
    requires a <= b && IntactAt(c, a, offset, item)
    ensures IntactAt(c, b, offset, item)
  {
    forall p | offset <= p < offset + SizeOf(item)
      ensures b[p] == c.encode(item)[p - offset]
    {
      assert b[p] == a[p];
    }
  }

  lemma AllWrittenAfterExtension(c: Codec, a: seq<Byte>, b: seq<Byte>, actions: seq<Action>)
    requires a <= b && AllWritten(c, a, actions)
    ensures AllWritten(c, b, actions)
  {
    forall i | 0 <= i < |actions| && actions[i].Write?
      ensures IntactAt(c, b, actions[i].offset, actions[i].item)
    {
      IntactAfterExtension(c, a, b, actions[i].offset, actions[i].item);
    }
  }

  /** What any run of object writes does, finished or cut short by a fault. */
  ghost predicate ObjectsEffect(c: Codec, s: Store, o: Outcome, actions: seq<Action>) {
    && s.dirty <= o.store.dirty
    && o.store.durable == s.durable
    && o.store.faultsEnabled == s.faultsEnabled
    && (o.ok ==> |o.store.dirty| == End(actions, |s.dirty|) && AllWritten(c, o.store.dirty, actions))
    && (o.ok && actions != [] ==> !o.store.priorGenerationBecameDurable && o.store.lastCompletedWriteOffset >= BLOCK_SIZE)
    && (o.ok && actions == [] ==> o.store == s)
    && (o.store.priorGenerationBecameDurable ==> s.priorGenerationBecameDurable)
    && (!o.ok ==> o.store.lastFault.Some? && !o.store.faultOnSync)
  }

  /** One more write after a run of object writes. */
  lemma ObjectsThenWrite(c: Codec, s: Store, o: Outcome, rest: seq<Action>, item: Object, offset: nat)
    requires o.ok && ObjectsEffect(c, s, o, rest)
    requires offset >= BLOCK_SIZE && offset >= |o.store.dirty|
    requires End(rest + [Write(item, offset)], |s.dirty|) == offset + SizeOf(item)
    ensures ObjectsEffect(c, s, PwriteAll(o.store, c.encode(item), offset), rest + [Write(item, offset)])
  {
    hide Put;
    var after := PwriteAll(o.store, c.encode(item), offset).store.dirty;
    WriteExtends(c, o.store, item, offset);
    AllWrittenAfterExtension(c, o.store.dirty, after, rest);
  }

  lemma {:induction false} ExecObjects(c: Codec, s: Store, actions: seq<Action>)
    requires Ascending(actions, |s.dirty|)
    ensures ObjectsEffect(c, s, Exec(c, s, actions), actions)
  {
    hide PwriteAll;
    if actions != [] {
      var rest, last := actions[..|actions| - 1], actions[|actions| - 1];
      ExecObjects(c, s, rest);
      var o := Exec(c, s, rest);
      if o.ok {
        assert actions == rest + [last];
        ObjectsThenWrite(c, s, o, rest, last.item, last.offset);
      }
    }
  }

  // ---- What a draft has placed ----

  /** The pages among the planned writes. */
  function PagesOf(actions: seq<Action>): seq<Placed> {
    if actions == [] then []
    else
      var last := actions[|actions| - 1];
      PagesOf(actions[..|actions| - 1]) +
      if last.Write? && last.item.Page? then [Placed(last.offset, last.item)] else []
  }

  ghost predicate PagesIntact(c: Codec, image: seq<Byte>, pages: seq<Placed>) {
    forall k :: 0 <= k < |pages| ==>
      pages[k].item.Page? && pages[k].offset >= BLOCK_SIZE && IntactAt(c, image, pages[k].offset, pages[k].item)
  }

  lemma {:induction false} WrittenPagesIntact(c: Codec, image: seq<Byte>, actions: seq<Action>, start: nat)
    requires AllWritten(c, image, actions) && Ascending(actions, start)
    ensures PagesIntact(c, image, PagesOf(actions))
  {
    if actions != [] {
      var rest := actions[..|actions| - 1];
      assert forall i :: 0 <= i < |rest| ==> actions[i] == rest[i];
      WrittenPagesIntact(c, image, rest, start);
    }
  }

  /** A draft whose writes follow one another from `start`, over pages already placed. */
  ghost predicate DraftOk(d: Draft, pages: seq<Placed>, start: nat) {
    && start >= BLOCK_SIZE
    && Ascending(d.actions, start)
    && d.offset == End(d.actions, start) && d.offset >= start
    && d.pages == pages + PagesOf(d.actions)
  }

  lemma AscendingLast(actions: seq<Action>, item: Object, offset: nat, start: nat)
    requires Ascending(actions, start)
    requires offset >= BLOCK_SIZE && offset >= End(actions, start)
    ensures Ascending(actions + [Write(item, offset)], start)
    ensures End(actions + [Write(item, offset)], start) == offset + SizeOf(item)
    ensures PagesOf(actions + [Write(item, offset)]) ==
            PagesOf(actions) + if item.Page? then [Placed(offset, item)] else []
  {
    assert (actions + [Write(item, offset)])[..|actions|] == actions;
  }

  lemma EmitOk(d: Draft, item: Object, pages: seq<Placed>, start: nat)
    requires DraftOk(d, pages, start)
    ensures DraftOk(Emit(d, item), pages, start)
  {
    hide Ascending, End, PagesOf;
    AscendingLast(d.actions, item, Align8(d.offset), start);
  }

  lemma EmitContent(d: Draft, item: Object, series: nat)
    ensures Content(Emit(d, item).pages, series) ==
            Content(d.pages, series) + if item.Page? && item.series == series then item.points else []
  {
    if item.Page? {
      assert Emit(d, item).pages[..|d.pages|] == d.pages;
    } else {
      assert Content(d.pages, series) + [] == Content(d.pages, series);
    }
  }

  lemma {:induction false} NodesOk(d: Draft, layout: Layout, n: nat, pages: seq<Placed>, start: nat)
    requires DraftOk(d, pages, start)
    ensures var after := EmitNodes(d, layout, n);
            DraftOk(after, pages, start) && after.pages == d.pages
  {
    if n > 0 {
      NodesOk(d, layout, n - 1, pages, start);
      var before := EmitNodes(d, layout, n - 1);
      EmitOk(before, NodeAt(layout, |before.actions|), pages, start);
    }
  }

  lemma {:induction false} FlushOk(d: Draft, layout: Layout, pending: seq<seq<Point>>, n: nat,
                                   pages: seq<Placed>, start: nat)
    requires DraftOk(d, pages, start) && n <= |pending|
    ensures DraftOk(FlushAll(d, layout, pending, n), pages, start)
  {
    if n > 0 {
      FlushOk(d, layout, pending, n - 1, pages, start);
      var before := FlushAll(d, layout, pending, n - 1);
      EmitOk(before, Page(SketchAt(layout, |before.actions|).size, n - 1, pending[n - 1]), pages, start);
    }
  }

  /** Flushing moves exactly the pending points into pages. */
  lemma {:induction false} FlushContent(d: Draft, layout: Layout, pending: seq<seq<Point>>, n: nat, series: nat)
    requires n <= |pending|
    ensures Content(FlushAll(d, layout, pending, n).pages, series) ==
            Content(d.pages, series) + if series < n then pending[series] else []
  {
    hide Emit, Content;
    if n > 0 {
      FlushContent(d, layout, pending, n - 1, series);
      var before := FlushAll(d, layout, pending, n - 1);
      EmitContent(before, Page(SketchAt(layout, |before.actions|).size, n - 1, pending[n - 1]), series);
    }
  }

  lemma {:induction false} FillOk(d: Draft, layout: Layout, series: nat, pending: seq<Point>, batch: seq<Point>,
                                  pages: seq<Placed>, start: nat)
    requires DraftOk(d, pages, start) && |pending| <= RECORDS_MAX
    ensures DraftOk(Fill(d, layout, series, pending, batch).0, pages, start)
    decreases |batch|, |pending|
  {
    if batch == [] {
    } else if |pending| == RECORDS_MAX {
      EmitOk(d, Page(SketchAt(layout, |d.actions|).size, series, pending), pages, start);
      FillOk(EmitPage(d, layout, series, pending), layout, series, [], batch, pages, start);
    } else if pending == [] && |batch| >= RECORDS_MAX {
      EmitOk(d, Page(SketchAt(layout, |d.actions|).size, series, batch[..RECORDS_MAX]), pages, start);
      FillOk(EmitPage(d, layout, series, batch[..RECORDS_MAX]), layout, series, [], batch[RECORDS_MAX..], pages, start);
    } else {
      var room := RECORDS_MAX - |pending|;
      var amount := if room < |batch| then room else |batch|;
      FillOk(d, layout, series, pending + batch[..amount], batch[amount..], pages, start);
    }
  }

  /** Appending a batch loses, repeats and reorders nothing, whatever pages it fills on the way. */
  lemma {:induction false} FillContent(d: Draft, layout: Layout, series: nat, pending: seq<Point>, batch: seq<Point>)
    requires |pending| <= RECORDS_MAX
    ensures var (after, rest) := Fill(d, layout, series, pending, batch);
            Content(after.pages, series) + rest == Content(d.pages, series) + (pending + batch)
    decreases |batch|, |pending|
  {
    hide Emit, Content;
    if batch == [] {
      assert pending + batch == pending;
    } else if |pending| == RECORDS_MAX {
      var next := EmitPage(d, layout, series, pending);
      EmitContent(d, Page(SketchAt(layout, |d.actions|).size, series, pending), series);
      FillContent(next, layout, series, [], batch);
      Regroup(Content(d.pages, series), pending, [], batch);
    } else if pending == [] && |batch| >= RECORDS_MAX {
      var full, more := batch[..RECORDS_MAX], batch[RECORDS_MAX..];
      var next := EmitPage(d, layout, series, full);
      EmitContent(d, Page(SketchAt(layout, |d.actions|).size, series, full), series);
      FillContent(next, layout, series, [], more);
      Regroup(Content(d.pages, series), full, [], more);
      assert full + more == pending + batch;
    } else {
      var room := RECORDS_MAX - |pending|;
      var amount := if room < |batch| then room else |batch|;
      FillContent(d, layout, series, pending + batch[..amount], batch[amount..]);
      Regroup([], pending, batch[..amount], batch[amount..]);
      assert batch[..amount] + batch[amount..] == batch;
      assert pending + batch[..amount] + batch[amount..] == pending + batch;
    }
  }

  lemma Regroup(a: seq<Point>, b: seq<Point>, c: seq<Point>, d: seq<Point>)
    ensures a + b + (c + d) == a + (b + c + d)
    ensures c == [] ==> c + d == d && b + c + d == b + d
  {
  }

  ghost predicate FullPage(placed: Placed, series: nat) {
    placed.item.Page? && placed.item.series == series && |placed.item.points| == 4088
  }

  lemma PageAdded(d: Draft, layout: Layout, series: nat, points: seq<Point>)
    ensures var next := EmitPage(d, layout, series, points);
            && |next.pages| == |d.pages| + 1 && next.pages[..|d.pages|] == d.pages && |next.actions| == |d.actions| + 1
            && (|points| == 4088 ==> FullPage(next.pages[|d.pages|], series))
  {
    hide Align8, SketchAt;
  }

  /** An append writes full pages of its series only, one write each. */
  lemma {:induction false} FillWrites(d: Draft, layout: Layout, series: nat, pending: seq<Point>, batch: seq<Point>)
    requires |pending| <= RECORDS_MAX
    ensures var after := Fill(d, layout, series, pending, batch).0;
            && d.pages <= after.pages && |after.actions| - |d.actions| == |after.pages| - |d.pages|
            && forall k :: |d.pages| <= k < |after.pages| ==> FullPage(after.pages[k], series)
    decreases |batch|, |pending|
  {
    hide EmitPage, FullPage;
    if batch == [] {
    } else if |pending| == RECORDS_MAX {
      PageAdded(d, layout, series, pending);
      FillWrites(EmitPage(d, layout, series, pending), layout, series, [], batch);
    } else if pending == [] && |batch| >= RECORDS_MAX {
      PageAdded(d, layout, series, batch[..RECORDS_MAX]);
      FillWrites(EmitPage(d, layout, series, batch[..RECORDS_MAX]), layout, series, [], batch[RECORDS_MAX..]);
    } else {
      var room := RECORDS_MAX - |pending|;
      var amount := if room < |batch| then room else |batch|;
      FillWrites(d, layout, series, pending + batch[..amount], batch[amount..]);
    }
  }

  /** What whole pages leave over of `n` points. */
  ghost function LeftOver(n: nat): nat { n % 4088 }

  lemma OnePageLess(n: nat)
    ensures n < 4088 ==> LeftOver(n) == n
    ensures n >= 4088 ==> LeftOver(n) == LeftOver(n - 4088)
    ensures LeftOver(0) == 0
  {
  }

  /** What stays in the buffer: all of it while a page has room for it, otherwise what whole pages leave over. */
  lemma {:induction false} FillRest(d: Draft, layout: Layout, series: nat, pending: seq<Point>, batch: seq<Point>)
    requires |pending| <= RECORDS_MAX
    ensures |Fill(d, layout, series, pending, batch).1| ==
            if batch == [] || (pending != [] && |pending| + |batch| <= 4088) then |pending| + |batch|
            else LeftOver(|pending| + |batch|)
    decreases |batch|, |pending|
  {
    hide EmitPage, LeftOver;
    OnePageLess(|pending| + |batch|);
    if batch == [] {
    } else if |pending| == RECORDS_MAX {
      FillRest(EmitPage(d, layout, series, pending), layout, series, [], batch);
    } else if pending == [] && |batch| >= RECORDS_MAX {
      FillRest(EmitPage(d, layout, series, batch[..RECORDS_MAX]), layout, series, [], batch[RECORDS_MAX..]);
    } else {
      var room := RECORDS_MAX - |pending|;
      var amount := if room < |batch| then room else |batch|;
      FillRest(d, layout, series, pending + batch[..amount], batch[amount..]);
    }
  }

  lemma IncreasingBoth(a: seq<Point>, b: seq<Point>)
    ensures StrictlyIncreasing(a + b) <==>
              && StrictlyIncreasing(a) && StrictlyIncreasing(b)
              && (a != [] && b != [] ==> a[|a| - 1].timestamp < b[0].timestamp)
  {
    var all, n := a + b, |a|;
    if StrictlyIncreasing(all) {
      assert forall i :: 0 <= i < n ==> all[i] == a[i];
      forall i, j | 0 <= i < j < |b|
        ensures b[i].timestamp < b[j].timestamp
      {
        assert all[n + i].timestamp < all[n + j].timestamp;
      }
      assert a != [] && b != [] ==> all[n - 1].timestamp < all[n].timestamp;
    }
  }

  /** A batch is accepted exactly when the series' points stay strictly increasing with it. */
  lemma AcceptsMeans(w: Writer, series: nat, batch: seq<Point>)
    requires w.root.Root? && w.root.manifest.Manifest? && series < |w.pending|
    requires StrictlyIncreasing(Content(w.root.manifest.pages + w.flushed, series) + w.pending[series])
    ensures Accepts(w, series, batch) <==>
              StrictlyIncreasing(Content(w.root.manifest.pages + w.flushed, series) + w.pending[series] + batch)
  {
    hide Content, StrictlyIncreasing;
    IncreasingBoth(Content(w.root.manifest.pages + w.flushed, series) + w.pending[series], batch);
  }

  /** Appending to one series leaves every other series' pages alone. */
  lemma {:induction false} FillOthers(d: Draft, layout: Layout, series: nat, pending: seq<Point>, batch: seq<Point>, other: nat)
    requires |pending| <= RECORDS_MAX && other != series
    ensures Content(Fill(d, layout, series, pending, batch).0.pages, other) == Content(d.pages, other)
    decreases |batch|, |pending|
  {
    if batch == [] {
    } else if |pending| == RECORDS_MAX {
      EmitContent(d, Page(SketchAt(layout, |d.actions|).size, series, pending), other);
      FillOthers(EmitPage(d, layout, series, pending), layout, series, [], batch, other);
    } else if pending == [] && |batch| >= RECORDS_MAX {
      EmitContent(d, Page(SketchAt(layout, |d.actions|).size, series, batch[..RECORDS_MAX]), other);
      FillOthers(EmitPage(d, layout, series, batch[..RECORDS_MAX]), layout, series, [], batch[RECORDS_MAX..], other);
    } else {
      var room := RECORDS_MAX - |pending|;
      var amount := if room < |batch| then room else |batch|;
      FillOthers(d, layout, series, pending + batch[..amount], batch[amount..], other);
    }
  }
}

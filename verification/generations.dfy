/**
 The link between the oracle's generation numbers and the roots in the images: snapshot `h` stands for
 the newest root whose extent fits the extent recorded with `h`. Checkpoints without new points add a
 snapshot but no root, so several numbers may share a root.
 */
module Generations {
  import opened Options
  import opened Objects
  import opened Encodings
  import opened Storage
  import opened Engine
  import opened Images
  import opened Checkpoints
  import opened Oracle

  ghost function RootAt(r: Object, size: nat): (a: Object)
    requires WellFormedRoot(r)
    ensures WellFormedRoot(a) && a.generation <= r.generation && a.committed <= r.committed
    decreases r
  {
    if r.committed <= size || r.previous.None? then r else RootAt(r.previous.value, size)
  }

  lemma {:induction false} RootAtCompose(r: Object, high: nat, low: nat)
    requires WellFormedRoot(r) && low <= high
    ensures RootAt(RootAt(r, high), low) == RootAt(r, low)
    decreases r
  {
    if !(r.committed <= high || r.previous.None?) {
      RootAtCompose(r.previous.value, high, low);
    }
  }

  lemma {:induction false} RootAtFits(r: Object, low: nat, high: nat)
    requires WellFormedRoot(r) && RootAt(r, low).committed <= low <= high
    ensures RootAt(r, high).committed <= high
    decreases r
  {
    if !(r.committed <= high || r.previous.None?) {
      RootAtFits(r.previous.value, low, high);
    }
  }

  /** Every root of the chain was recorded as some snapshot's extent. */
  ghost predicate Recorded(r: Object, history: seq<Snapshot>)
    requires WellFormedRoot(r)
    decreases r
  {
    && (exists h :: 0 <= h < |history| && history[h].endSize == r.committed)
    && (r.previous.Some? ==> Recorded(r.previous.value, history))
  }

  lemma {:induction false} RecordedInPrefix(r: Object, history: seq<Snapshot>, g: nat)
    requires WellFormedRoot(r) && Recorded(r, history)
    requires g < |history| && r.committed <= history[g].endSize
    requires forall i, j :: 0 <= i <= j < |history| ==> history[i].endSize <= history[j].endSize
    ensures Recorded(r, history[..g + 1])
    decreases r
  {
    var h :| 0 <= h < |history| && history[h].endSize == r.committed;
    var low := if h <= g then h else g;
    assert history[..g + 1][low].endSize == r.committed;
    if r.previous.Some? {
      RecordedInPrefix(r.previous.value, history, g);
    }
  }

  lemma {:induction false} RecordedInLonger(r: Object, history: seq<Snapshot>, more: seq<Snapshot>)
    requires WellFormedRoot(r) && Recorded(r, history)
    ensures Recorded(r, history + more)
    decreases r
  {
    var h :| 0 <= h < |history| && history[h].endSize == r.committed;
    assert (history + more)[h].endSize == r.committed;
    if r.previous.Some? {
      RecordedInLonger(r.previous.value, history, more);
    }
  }

  /** The points a root gives for each series are the ones the oracle committed with `counts`. */
  ghost predicate ContentIs(r: Object, points: seq<seq<Point>>, counts: seq<nat>)
    requires RootDecodes(r) && CountsFit(points, counts)
  {
    forall i :: 0 <= i < |points| ==> Content(r.manifest.pages, i) == points[i][..counts[i]]
  }

  /** The oracle's history describes the chain of `r`. */
  ghost predicate HistoryOk(m: Model, r: Object) {
    && ModelOk(m) && WellFormedRoot(r)
    && m.history[0].endSize >= BLOCK_SIZE
    && RootAt(r, m.history[0].endSize).committed <= m.history[0].endSize
    && r.committed <= m.history[m.current].endSize
    && Recorded(r, m.history)
    && forall h :: 0 <= h <= m.current ==> ContentIs(RootAt(r, m.history[h].endSize), m.points, m.history[h].counts)
  }

  ghost function DurableRoot(m: Model, r: Object): (d: Object)
    requires HistoryOk(m, r)
    ensures WellFormedRoot(d) && d.generation <= r.generation
  {
    RootAt(r, m.history[m.durable].endSize)
  }

  ghost predicate DurableOk(c: Codec, durable: seq<Byte>, m: Model, r: Object)
    requires HistoryOk(m, r)
  {
    Carries(c, durable, DurableRoot(m, r)) && m.history[m.durable].endSize <= |durable|
  }

  /** Both images carry the roots the oracle names. */
  ghost predicate ImagesOk(c: Codec, dirty: seq<Byte>, durable: seq<Byte>, m: Model, r: Object) {
    && HistoryOk(m, r)
    && Carries(c, dirty, r) && m.history[m.current].endSize <= |dirty|
    && DurableOk(c, durable, m, r)
    && FewerRoots(c, dirty, durable, DurableRoot(m, r).generation)
  }

  /** In neither image does a root stand that is newer than the one the oracle names. */
  ghost predicate Settled(c: Codec, dirty: seq<Byte>, durable: seq<Byte>, m: Model, r: Object)
    requires ImagesOk(c, dirty, durable, m, r)
  {
    !Overtaken(c, dirty, r.generation) && !Overtaken(c, durable, DurableRoot(m, r).generation)
  }

  // ---- Restoring a generation ----

  lemma ContentAfterRestore(m: Model, r: Object, generation: nat, h: nat)
    requires HistoryOk(m, r) && h <= generation <= m.current
    ensures CountsFit(Restore(m, generation).points, m.history[h].counts)
    ensures ContentIs(RootAt(r, m.history[h].endSize), Restore(m, generation).points, m.history[h].counts)
  {
    RestoreOk(m, generation);
    assert Restore(m, generation).history[h] == m.history[h];
    forall i | 0 <= i < |m.points|
      ensures Restore(m, generation).points[i][..m.history[h].counts[i]] == m.points[i][..m.history[h].counts[i]]
    {
      assert m.history[h].counts[i] <= m.history[generation].counts[i];
    }
  }

  lemma {:induction false} RecordedDown(r: Object, history: seq<Snapshot>, size: nat)
    requires WellFormedRoot(r) && Recorded(r, history)
    ensures Recorded(RootAt(r, size), history)
    decreases r
  {
    if !(r.committed <= size || r.previous.None?) {
      RecordedDown(r.previous.value, history, size);
    }
  }

  /** Restoring a generation and adopting its root keeps the history true. */
  lemma HistoryAfterRestore(m: Model, r: Object, generation: nat)
    requires HistoryOk(m, r) && generation <= m.current
    ensures HistoryOk(Restore(m, generation), RootAt(r, m.history[generation].endSize))
  {
    var size := m.history[generation].endSize;
    var after, a := Restore(m, generation), RootAt(r, size);
    RestoreOk(m, generation);
    RootAtFits(r, m.history[0].endSize, size);
    RecordedDown(r, m.history, size);
    RecordedInPrefix(a, m.history, generation);
    forall h | 0 <= h <= generation
      ensures after.history[h] == m.history[h]
      ensures ContentIs(RootAt(a, after.history[h].endSize), after.points, after.history[h].counts)
      ensures RootAt(a, after.history[h].endSize) == RootAt(r, m.history[h].endSize)
    {
      RootAtCompose(r, size, m.history[h].endSize);
      ContentAfterRestore(m, r, generation, h);
    }
  }

  /** No root lies between the extent of a generation and a size too small for the next one. */
  lemma SameRootBelowNext(m: Model, r: Object, generation: nat, size: nat)
    requires HistoryOk(m, r) && generation <= m.current && m.history[generation].endSize <= size
    requires forall h :: generation < h <= m.current ==> m.history[h].endSize > size
    ensures RootAt(r, size) == RootAt(r, m.history[generation].endSize)
  {
    var a := RootAt(r, size);
    RootAtFits(r, m.history[0].endSize, size);
    RecordedDown(r, m.history, size);
    var h :| 0 <= h < |m.history| && m.history[h].endSize == a.committed;
    RootAtCompose(r, size, m.history[generation].endSize);
  }

  // ---- Recovery after each kind of fault ----

  /** After power loss the durable image is the only one, and it holds the durable generation. */
  lemma AfterPowerLoss(c: Codec, durable: seq<Byte>, m: Model, r: Object)
    requires HistoryOk(m, r) && DurableOk(c, durable, m, r)
    ensures ImagesOk(c, durable, durable, Restore(m, m.durable), DurableRoot(m, r))
  {
    HistoryAfterRestore(m, r, m.durable);
    RootAtCompose(r, m.history[m.durable].endSize, m.history[m.durable].endSize);
  }

  /** After a process crash both images stand; only uncommitted points are dropped. */
  lemma AfterProcessCrash(c: Codec, dirty: seq<Byte>, durable: seq<Byte>, m: Model, r: Object)
    requires ImagesOk(c, dirty, durable, m, r)
    ensures ImagesOk(c, dirty, durable, Restore(m, m.current), r)
  {
    HistoryAfterRestore(m, r, m.current);
    assert m.history[..m.current + 1] == m.history;
  }

  /** The extent before the current one bounds every older root. */
  lemma PredecessorFits(m: Model, r: Object, size: nat)
    requires HistoryOk(m, r) && m.current > 0 && r.previous.Some?
    requires m.history[m.current - 1].endSize <= size < r.committed
    ensures RootAt(r, size) == r.previous.value && RootAt(r, size).committed <= size
  {
    var p := r.previous.value;
    assert WellFormedRoot(p) && Recorded(p, m.history);
    var h :| 0 <= h < |m.history| && m.history[h].endSize == p.committed;
    assert h != m.current;
    assert m.history[h].endSize <= m.history[m.current - 1].endSize;
  }

  /** What the history says of extents, without the rest of it. */
  lemma Extents(m: Model, r: Object, g: nat, h: nat)
    requires HistoryOk(m, r) && g <= h <= m.current
    ensures Shape(m) && WellFormedRoot(r) && r.Root?
    ensures BLOCK_SIZE <= m.history[0].endSize <= m.history[g].endSize <= m.history[h].endSize
    ensures RootAt(r, m.history[0].endSize).committed <= m.history[0].endSize
    ensures r.committed <= m.history[m.current].endSize
  {
    hide ContentIs, StrictlyIncreasing, Recorded;
  }

  lemma CarriesAfterAnyCut(c: Codec, image: seq<Byte>, size: nat, r: Object)
    requires Holds(c, image, r) && BLOCK_SIZE <= size && r.committed <= size
    ensures Holds(c, Cut(image, size), r)
  {
    hide Carries, Overtaken;
    CarriedIsLong(c, image, r);
    if size < |image| {
      CarriesAfterCut(c, image, size, r);
      NotOvertakenAfterCut(c, image, size, r);
    }
  }

  /** The carried root is whole after a cut, or its predecessor is retained to take its place. */
  ghost predicate Recoverable(c: Codec, image: seq<Byte>, r: Object, size: nat)
    requires |image| >= BLOCK_SIZE && WellFormedRoot(r)
  {
    r.committed <= size || Retains(c, image, r, 1)
  }

  lemma HoldsPredecessorAfterCut(c: Codec, image: seq<Byte>, size: nat, r: Object)
    requires Holds(c, image, r) && BLOCK_SIZE <= size < r.committed
    requires Retains(c, image, r, 1) && r.previous.value.committed <= size
    ensures Holds(c, Cut(image, size), r.previous.value)
  {
    hide Overtaken, DecodeSlot, SlotExplained, ChainIntact, HeaderIntact, NoGap;
    CarriesPredecessorAfterCut(c, image, size, r);
    PredecessorNotOvertaken(c, image, size, r);
  }

  /** What a truncated image holds: the root the oracle falls back to, when one of the two is left. */
  lemma DirtyAfterTruncation(c: Codec, dirty: seq<Byte>, m: Model, r: Object, size: nat)
    requires HistoryOk(m, r) && m.current > 0 && Holds(c, dirty, r) && |dirty| >= BLOCK_SIZE
    requires m.history[m.current - 1].endSize <= size <= |dirty| && Recoverable(c, dirty, r, size)
    ensures Holds(c, Cut(dirty, size), RootAt(r, size))
    ensures r.committed > size ==> RootAt(r, size) == r.previous.value && r.previous.value.committed <= size
  {
    hide Holds, HistoryOk, Retains;
    Extents(m, r, m.current - 1, m.current);
    if r.committed <= size {
      CarriesAfterAnyCut(c, dirty, size, r);
    } else {
      PredecessorFits(m, r, size);
      HoldsPredecessorAfterCut(c, dirty, size, r);
    }
  }

  /** Otherwise the file opens, if at all, to a root newer than any the oracle still knows. */
  lemma DirtyBeyondRecovery(c: Codec, dirty: seq<Byte>, m: Model, r: Object, size: nat)
    requires HistoryOk(m, r) && m.current > 0 && Holds(c, dirty, r) && |dirty| >= BLOCK_SIZE
    requires m.history[m.current - 1].endSize <= size <= |dirty| && !Recoverable(c, dirty, r, size)
    requires Open(c, Cut(dirty, size)).Some?
    ensures |Cut(dirty, size)| >= BLOCK_SIZE && Overtaken(c, Cut(dirty, size), RootAt(r, size).generation)
    ensures Open(c, Cut(dirty, size)) != Some(RootAt(r, size))
  {
    hide Carries, Standing, HistoryOk, Open, Retains;
    Extents(m, r, m.current - 1, m.current);
    if size == |dirty| {
      CarriedFits(c, dirty, r);
    }
    OpenAfterCut(c, dirty, size, r);
  }

  lemma CarriedFits(c: Codec, image: seq<Byte>, r: Object)
    requires Carries(c, image, r)
    ensures r.Root? && r.committed <= |image|
  {
  }

  lemma CutDecodes(c: Codec, image: seq<Byte>, size: nat)
    requires |image| >= BLOCK_SIZE && size >= BLOCK_SIZE
    ensures |Cut(image, size)| >= BLOCK_SIZE
    ensures forall k :: 0 <= k < SLOT_COUNT ==> DecodeSlot(c, Cut(image, size), k) == DecodeSlot(c, image, k)
  {
    assert Cut(image, size)[..BLOCK_SIZE] == image[..BLOCK_SIZE];
    SameControlDecodes(c, image, Cut(image, size));
  }

  /** The durable image holds the root of the durable generation. */
  ghost predicate DurableHolds(c: Codec, durable: seq<Byte>, m: Model, r: Object) {
    && HistoryOk(m, r)
    && Holds(c, durable, DurableRoot(m, r)) && m.history[m.durable].endSize <= |durable|
  }

  lemma SettledHolds(c: Codec, dirty: seq<Byte>, durable: seq<Byte>, m: Model, r: Object)
    requires ImagesOk(c, dirty, durable, m, r) && Settled(c, dirty, durable, m, r)
    ensures HistoryOk(m, r) && Holds(c, dirty, r) && DurableHolds(c, durable, m, r) && |dirty| >= BLOCK_SIZE
    ensures FewerRoots(c, dirty, durable, DurableRoot(m, r).generation)
  {
    hide HistoryOk, Overtaken, DurableRoot, FewerRoots;
    CarriedIsLong(c, dirty, r);
    hide Carries;
  }

  lemma RetainedDurably(c: Codec, dirty: seq<Byte>, durable: seq<Byte>, r: Object)
    requires WellFormedRoot(r) && FewerRoots(c, dirty, durable, r.generation) && Retains(c, dirty, r, 1)
    ensures |durable| >= BLOCK_SIZE && Retains(c, durable, r, 1)
  {
    hide DecodeSlot;
  }

  /** The durable generation's extent is not cut. */
  lemma DurableStays(c: Codec, durable: seq<Byte>, m: Model, r: Object, size: nat, g: nat)
    requires DurableHolds(c, durable, m, r) && m.durable <= g <= m.current && m.history[g].endSize <= size
    requires HistoryOk(Restore(m, g), RootAt(r, size))
    ensures DurableHolds(c, Cut(durable, size), Restore(m, g), RootAt(r, size))
    ensures DurableRoot(Restore(m, g), RootAt(r, size)).generation <= DurableRoot(m, r).generation
  {
    hide HistoryOk, Holds;
    Extents(m, r, m.durable, g);
    RootAtCompose(r, size, m.history[m.durable].endSize);
    RootAtFits(r, m.history[0].endSize, m.history[m.durable].endSize);
    CarriesAfterAnyCut(c, durable, size, DurableRoot(m, r));
  }

  lemma FallsBackRoot(m: Model, r: Object, size: nat, g: nat)
    requires HistoryOk(m, r) && m.current > 0 && m.current - 1 <= g < m.durable <= m.current
    requires m.history[g].endSize <= size
    requires HistoryOk(Restore(m, g), RootAt(r, size)) && RootAt(r, size) == RootAt(r, m.history[g].endSize)
    ensures DurableRoot(m, r) == r
    ensures DurableRoot(Restore(m, g), RootAt(r, size)) == RootAt(r, size)
    ensures r.committed <= size ==> RootAt(r, size) == r
    ensures var after := Restore(m, g); after.history[after.durable].endSize == m.history[g].endSize
  {
    hide HistoryOk;
    Extents(m, r, g, m.current);
    Extents(Restore(m, g), RootAt(r, size), g, g);
    RootAtSelf(r, m.history[m.current].endSize);
    RootAtSelf(RootAt(r, size), m.history[g].endSize);
  }

  /** The durable generation is the current one and its extent may be cut: its predecessor takes over. */
  lemma DurableFallsBack(c: Codec, durable: seq<Byte>, m: Model, r: Object, size: nat, g: nat)
    requires HistoryOk(m, r) && DurableHolds(c, durable, m, r)
    requires m.current > 0 && m.current - 1 <= g < m.durable <= m.current
    requires m.history[g].endSize <= size
    requires HistoryOk(Restore(m, g), RootAt(r, size)) && RootAt(r, size) == RootAt(r, m.history[g].endSize)
    requires r.committed > size ==> |durable| >= BLOCK_SIZE && Retains(c, durable, r, 1) &&
                                    RootAt(r, size) == r.previous.value && r.previous.value.committed <= size
    ensures DurableHolds(c, Cut(durable, size), Restore(m, g), RootAt(r, size))
    ensures DurableRoot(Restore(m, g), RootAt(r, size)).generation <= DurableRoot(m, r).generation
  {
    FallsBackRoot(m, r, size, g);
    assert Holds(c, durable, r) && m.history[m.durable].endSize <= |durable|;
    hide HistoryOk, Holds, Retains, DurableRoot, Restore, RootAt;
    Extents(m, r, g, m.current);
    if r.committed <= size {
      CarriesAfterAnyCut(c, durable, size, r);
    } else {
      HoldsPredecessorAfterCut(c, durable, size, r);
    }
  }

  lemma DurableIsNewest(m: Model, r: Object)
    requires HistoryOk(m, r) && m.durable == m.current
    ensures DurableRoot(m, r) == r
  {
    RootAtSelf(r, m.history[m.current].endSize);
  }

  /** The durable image is cut with the volatile one and keeps the restored durable generation. */
  lemma DurableAfterTruncation(c: Codec, dirty: seq<Byte>, durable: seq<Byte>, m: Model, r: Object, size: nat, g: nat)
    requires HistoryOk(m, r) && DurableHolds(c, durable, m, r) && Holds(c, dirty, r) && |dirty| >= BLOCK_SIZE
    requires FewerRoots(c, dirty, durable, DurableRoot(m, r).generation)
    requires m.current > 0 && m.current - 1 <= g <= m.current
    requires m.history[g].endSize <= size <= |dirty| && Recoverable(c, dirty, r, size)
    requires HistoryOk(Restore(m, g), RootAt(r, size)) && RootAt(r, size) == RootAt(r, m.history[g].endSize)
    ensures DurableHolds(c, Cut(durable, size), Restore(m, g), RootAt(r, size))
    ensures DurableRoot(Restore(m, g), RootAt(r, size)).generation <= DurableRoot(m, r).generation
  {
    hide HistoryOk, Holds, Retains, DurableRoot, Restore, DurableHolds, FewerRoots;
    Extents(m, r, m.current - 1, g);
    if m.durable <= g {
      DurableStays(c, durable, m, r, size, g);
    } else {
      DirtyAfterTruncation(c, dirty, m, r, size);
      if r.committed > size {
        DurableIsNewest(m, r);
        RetainedDurably(c, dirty, durable, r);
      }
      DurableFallsBack(c, durable, m, r, size, g);
    }
  }

  lemma HeldImages(c: Codec, dirty: seq<Byte>, durable: seq<Byte>, m: Model, r: Object)
    requires HistoryOk(m, r) && Holds(c, dirty, r) && DurableHolds(c, durable, m, r)
    requires m.history[m.current].endSize <= |dirty| && FewerRoots(c, dirty, durable, DurableRoot(m, r).generation)
    ensures ImagesOk(c, dirty, durable, m, r) && Settled(c, dirty, durable, m, r)
  {
    hide HistoryOk, Carries, Overtaken, DurableRoot, FewerRoots;
  }

  lemma CutFewerRoots(c: Codec, dirty: seq<Byte>, durable: seq<Byte>, size: nat, high: nat, low: nat)
    requires FewerRoots(c, dirty, durable, high) && low <= high && size >= BLOCK_SIZE
    ensures FewerRoots(c, Cut(dirty, size), Cut(durable, size), low)
  {
    hide DecodeSlot, Cut;
    CutDecodes(c, dirty, size);
    CutDecodes(c, durable, size);
  }

  /** After truncation, if a root the oracle knows is left, both images hold what the oracle restores. */
  lemma AfterTruncation(c: Codec, dirty: seq<Byte>, durable: seq<Byte>, m: Model, r: Object, size: nat, g: nat)
    requires ImagesOk(c, dirty, durable, m, r) && Settled(c, dirty, durable, m, r) && m.current > 0
    requires m.history[m.current - 1].endSize <= size <= |dirty| && Recoverable(c, dirty, r, size)
    requires g == Fit(m.history, m.current, size)
    ensures ImagesOk(c, Cut(dirty, size), Cut(durable, size), Restore(m, g), RootAt(r, size))
    ensures Settled(c, Cut(dirty, size), Cut(durable, size), Restore(m, g), RootAt(r, size))
  {
    hide HistoryOk, Holds, FewerRoots, DurableHolds, DurableRoot, Recoverable;
    SettledHolds(c, dirty, durable, m, r);
    hide ImagesOk, Settled;
    Extents(m, r, m.current - 1, m.current);
    SameRootBelowNext(m, r, g, size);
    HistoryAfterRestore(m, r, g);
    DirtyAfterTruncation(c, dirty, m, r, size);
    DurableAfterTruncation(c, dirty, durable, m, r, size, g);
    CutFewerRoots(c, dirty, durable, size, DurableRoot(m, r).generation, DurableRoot(Restore(m, g), RootAt(r, size)).generation);
    HeldImages(c, Cut(dirty, size), Cut(durable, size), Restore(m, g), RootAt(r, size));
  }

  lemma RootAtSelf(r: Object, size: nat)
    requires WellFormedRoot(r) && r.committed <= size
    ensures RootAt(r, size) == r
  {
  }

  // ---- Snapshots ----

  /** A published root extends the history by one snapshot. */
  lemma HistoryAfterPublish(m: Model, r: Object, next: Object, endSize: nat, durable: bool)
    requires HistoryOk(m, r) && WellFormedRoot(next) && next.previous == Some(r)
    requires m.history[m.current].endSize < endSize == next.committed
    requires ContentIs(next, m.points, Lengths(m.points))
    ensures HistoryOk(TakeSnapshot(m, endSize, durable), next)
    ensures forall h :: 0 <= h <= m.current ==> RootAt(next, m.history[h].endSize) == RootAt(r, m.history[h].endSize)
    ensures RootAt(next, endSize) == next
  {
    hide StrictlyIncreasing, Content;
    var after := TakeSnapshot(m, endSize, durable);
    SnapshotOk(m, endSize, durable);
    assert after.history[after.current].endSize == next.committed;
    RecordedInLonger(r, m.history, [Snapshot(Lengths(m.points), endSize)]);
    forall h | 0 <= h <= m.current
      ensures after.history[h] == m.history[h]
      ensures RootAt(next, m.history[h].endSize) == RootAt(r, m.history[h].endSize)
    {
      assert m.history[h].endSize <= m.history[m.current].endSize;
    }
  }

  /** A checkpoint without new points adds a snapshot that stands for the same root. */
  lemma HistoryAfterRepeat(m: Model, r: Object, endSize: nat, durable: bool)
    requires HistoryOk(m, r) && m.history[m.current].endSize <= endSize
    requires ContentIs(r, m.points, Lengths(m.points))
    ensures HistoryOk(TakeSnapshot(m, endSize, durable), r)
    ensures RootAt(r, endSize) == r
  {
    var after := TakeSnapshot(m, endSize, durable);
    SnapshotOk(m, endSize, durable);
    RecordedInLonger(r, m.history, [Snapshot(Lengths(m.points), endSize)]);
    assert forall h :: 0 <= h <= m.current ==> after.history[h] == m.history[h];
  }

  lemma FewerRootsItself(c: Codec, image: seq<Byte>, generation: nat)
    requires |image| >= BLOCK_SIZE
    ensures FewerRoots(c, image, image, generation)
  {
  }

  lemma ImagesAfterRepeat(c: Codec, dirty: seq<Byte>, durable: seq<Byte>, m: Model, r: Object, sync: bool)
    requires ImagesOk(c, dirty, durable, m, r) && ContentIs(r, m.points, Lengths(m.points))
    ensures ImagesOk(c, dirty, if sync then dirty else durable, TakeSnapshot(m, |dirty|, sync), r)
  {
    HistoryAfterRepeat(m, r, |dirty|, sync);
    var after := TakeSnapshot(m, |dirty|, sync);
    if sync {
      FewerRootsItself(c, dirty, r.generation);
    } else {
      assert after.history[after.durable] == m.history[m.durable];
    }
  }

  /** Publishing moves the volatile image on; the durable one follows only with a sync. */
  lemma ImagesAfterPublish(c: Codec, dirty: seq<Byte>, durable: seq<Byte>, m: Model, r: Object, next: Object,
                           after: seq<Byte>, sync: bool)
    requires HistoryOk(m, r) && WellFormedRoot(next) && next.previous == Some(r)
    requires Carries(c, after, next) && m.history[m.current].endSize < |after| == next.committed
    requires ContentIs(next, m.points, Lengths(m.points))
    requires !sync ==> DurableOk(c, durable, m, r) && FewerRoots(c, after, durable, DurableRoot(m, r).generation)
    ensures ImagesOk(c, after, if sync then after else durable, TakeSnapshot(m, |after|, sync), next)
  {
    HistoryAfterPublish(m, r, next, |after|, sync);
    var later := TakeSnapshot(m, |after|, sync);
    if sync {
      FewerRootsItself(c, after, next.generation);
    } else {
      assert later.history[later.durable] == m.history[m.durable];
    }
  }
}

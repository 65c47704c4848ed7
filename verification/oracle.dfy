/**
 The simulator's oracle: what each generation must contain and which one must survive power loss.
 */
module Oracle {
  import opened Objects

  datatype Snapshot = Snapshot(counts: seq<nat>, endSize: nat)

  datatype Model = Model(
    points: seq<seq<Point>>,
    history: seq<Snapshot>,
    current: nat,
    durable: nat,
    readerCounts: seq<nat>)

  function Lengths(points: seq<seq<Point>>): (counts: seq<nat>)
    ensures |counts| == |points|
    ensures forall i :: 0 <= i < |points| ==> counts[i] == |points[i]|
  {
    seq(|points|, i requires 0 <= i < |points| => |points[i]|)
  }

  function TakeSnapshot(m: Model, endSize: nat, durable: bool): (r: Model)
    ensures Shape(m) ==> Shape(r)
  {
    var history := m.history + [Snapshot(Lengths(m.points), endSize)];
    m.(history := history,
       current := |history| - 1,
       durable := if durable then |history| - 1 else m.durable)
  }

  /** Points beyond the committed counts are dropped. */
  function CutPoints(points: seq<seq<Point>>, counts: seq<nat>): (r: seq<seq<Point>>)
    requires |points| == |counts|
    ensures |r| == |points| && forall i :: 0 <= i < |points| ==> r[i] == Cut(points[i], counts[i])
  {
    seq(|points|, i requires 0 <= i < |points| => Cut(points[i], counts[i]))
  }

  /** One snapshot per generation up to the current one, one count per series. */
  ghost predicate Shape(m: Model) {
    && |m.history| == m.current + 1 && m.durable <= m.current
    && |m.readerCounts| == |m.points|
    && forall h :: 0 <= h < |m.history| ==> |m.history[h].counts| == |m.points|
  }

  ghost predicate CountsFit(points: seq<seq<Point>>, counts: seq<nat>) {
    |counts| == |points| && forall i :: 0 <= i < |points| ==> counts[i] <= |points[i]|
  }

  function Restore(m: Model, generation: nat): (r: Model)
    requires Shape(m) && generation <= m.current
    ensures Shape(r) && |r.points| == |m.points|
  {
    var committed := m.history[generation];
    Model(CutPoints(m.points, committed.counts), m.history[..generation + 1], generation,
          if m.durable > generation then generation else m.durable, committed.counts)
  }

  /** The greatest generation at or below `generation` whose extent fits `size`, or zero. */
  function Fit(history: seq<Snapshot>, generation: nat, size: nat): (g: nat)
    requires generation < |history|
    ensures g <= generation
    ensures forall h :: g < h <= generation ==> history[h].endSize > size
    ensures g > 0 ==> history[g].endSize <= size
  {
    if generation > 0 && history[generation].endSize > size then Fit(history, generation - 1, size) else generation
  }

  /** Counts and extents never shrink from one generation to the next, and points stay in order. */
  ghost predicate ModelOk(m: Model) {
    && Shape(m)
    && (forall h :: 0 <= h <= m.current ==> CountsFit(m.points, m.history[h].counts))
    && (forall g, h :: 0 <= g <= h <= m.current ==> m.history[g].endSize <= m.history[h].endSize)
    && (forall g, h, i :: 0 <= g <= h <= m.current && 0 <= i < |m.points| ==>
          m.history[g].counts[i] <= m.history[h].counts[i])
    && (forall i :: 0 <= i < |m.points| ==> StrictlyIncreasing(m.points[i]))
    && CountsFit(m.points, m.readerCounts)
  }

  lemma RestoreOk(m: Model, generation: nat)
    requires ModelOk(m) && generation <= m.current
    ensures ModelOk(Restore(m, generation))
  {
    var r := Restore(m, generation);
    forall h | 0 <= h <= generation
      ensures CountsFit(r.points, r.history[h].counts)
    {
      forall i | 0 <= i < |r.points|
        ensures r.history[h].counts[i] <= |r.points[i]|
      {
        assert m.history[h].counts[i] <= m.history[generation].counts[i];
      }
    }
  }

  lemma SnapshotOk(m: Model, endSize: nat, durable: bool)
    requires ModelOk(m) && m.history[m.current].endSize <= endSize
    ensures ModelOk(TakeSnapshot(m, endSize, durable))
  {
    var r := TakeSnapshot(m, endSize, durable);
    forall g, h, i | 0 <= g <= h <= r.current && 0 <= i < |r.points|
      ensures r.history[g].counts[i] <= r.history[h].counts[i]
    {
      if g < r.current {
        assert CountsFit(m.points, m.history[g].counts);
      }
    }
  }
}

/**
 Temporal lookup. One declarative selection, and five programs that meet it: the C, Go and Python
 reference selectors of the client tests, the engine's two-probe form, and its descent through the
 index tree.
 */
module Lookup {
  import opened Options
  import opened Objects

  const TWO63: nat := 0x8000_0000_0000_0000
  const TWO64: nat := 0x1_0000_0000_0000_0000
  const U64_MAX: nat := 0xffff_ffff_ffff_ffff

  predicate IsI64(t: int) { -(TWO63 as int) <= t < TWO63 }

  // ---- Rank distance ----

  /** Bitwise exclusive or, bit by bit. */
  function Xor(x: nat, y: nat): nat
    decreases x + y
  {
    if x == 0 && y == 0 then 0 else 2 * Xor(x / 2, y / 2) + (x + y) % 2
  }

  function Pow2(k: nat): nat { if k == 0 then 1 else 2 * Pow2(k - 1) }

  /** Two's complement: the unsigned 64-bit value with the same bits. */
  function Unsigned(t: int): nat
    requires IsI64(t)
  {
    if t < 0 then t + TWO64 else t
  }

  /** Unsigned 64-bit subtraction, which wraps. */
  function Sub64(x: nat, y: nat): nat { (x - y) % TWO64 }

  /** Flip the sign bits, then subtract the smaller from the larger. */
  function Distance(a: int, b: int): nat
    requires IsI64(a) && IsI64(b)
  {
    var x, y := Xor(Unsigned(a), TWO63), Xor(Unsigned(b), TWO63);
    if x >= y then Sub64(x, y) else Sub64(y, x)
  }

  function Gap(a: int, b: int): nat { if a < b then b - a else a - b }

  lemma {:induction false} XorZero(x: nat)
    ensures Xor(x, 0) == x
  {
    if x > 0 {
      XorZero(x / 2);
    }
  }

  /** Exclusive or with a single bit adds it when clear and removes it when set. */
  lemma {:induction false} XorTopBit(x: nat, k: nat)
    requires x < 2 * Pow2(k)
    ensures Pow2(k) > 0
    ensures Xor(x, Pow2(k)) == if x < Pow2(k) then x + Pow2(k) else x - Pow2(k)
  {
    if k == 0 {
      assert Xor(0, 0) == 0 && Xor(x / 2, 0) == 0;
    } else {
      hide Xor;
      XorTopBit(x / 2, k - 1);
      XorStep(x, Pow2(k - 1));
      Halves(x);
    }
  }

  lemma XorStep(x: nat, h: nat)
    requires h > 0
    ensures Xor(x, 2 * h) == 2 * Xor(x / 2, h) + x % 2
  {
    hide Xor;
    XorUnfold(x, 2 * h);
    assert (x + 2 * h) % 2 == x % 2 && (2 * h) / 2 == h;
  }

  lemma XorUnfold(x: nat, y: nat)
    requires y > 0
    ensures Xor(x, y) == 2 * Xor(x / 2, y / 2) + (x + y) % 2
  {
  }

  lemma Halves(x: nat)
    ensures x == 2 * (x / 2) + x % 2 && x % 2 < 2
  {
  }

  lemma {:induction false} Pow2Sum(a: nat, b: nat)
    ensures Pow2(a + b) == Pow2(a) * Pow2(b)
  {
    if a > 0 {
      Pow2Sum(a - 1, b);
    }
  }

  lemma Pow2Of3()
    ensures Pow2(3) == 8
  {
    assert Pow2(1) == 2 && Pow2(2) == 4;
  }

  lemma Pow2Of63()
    ensures Pow2(63) == TWO63
  {
    hide Pow2;
    Pow2Of3();
    Pow2Sum(3, 3);
    Pow2Sum(6, 3);
    Pow2Sum(9, 9);
    Pow2Sum(18, 18);
    Pow2Sum(36, 18);
    Pow2Sum(54, 9);
  }

  /** The rank of a timestamp is its distance from the smallest one, so order is kept. */
  lemma RankIsShift(t: int)
    requires IsI64(t)
    ensures Xor(Unsigned(t), TWO63) == t + TWO63
  {
    hide Xor, Pow2;
    Pow2Of63();
    XorTopBit(Unsigned(t), 63);
  }

  /** Over all pairs of signed 64-bit timestamps the rank distance is the exact distance, and fits 64 bits. */
  lemma DistanceIsExact(a: int, b: int)
    requires IsI64(a) && IsI64(b)
    ensures Distance(a, b) == Gap(a, b) <= U64_MAX
  {
    hide Xor;
    RankIsShift(a);
    RankIsShift(b);
  }

  // ---- The selection every form must make ----

  datatype Mode = Exact | Predecessor | Successor | Nearest

  predicate Eligible(t: int, target: int, mode: Mode) {
    match mode
    case Exact => t == target
    case Predecessor => t <= target
    case Successor => t >= target
    case Nearest => true
  }

  /** `p` is the closest eligible point; among equally close ones the earliest. */
  ghost predicate Closest(points: seq<Point>, target: int, mode: Mode, p: Point) {
    && p in points && Eligible(p.timestamp, target, mode)
    && forall q :: q in points && Eligible(q.timestamp, target, mode) ==>
        Gap(p.timestamp, target) < Gap(q.timestamp, target) ||
        (Gap(p.timestamp, target) == Gap(q.timestamp, target) && p.timestamp <= q.timestamp)
  }

  ghost predicate NoneEligible(points: seq<Point>, target: int, mode: Mode) {
    forall q :: q in points ==> !Eligible(q.timestamp, target, mode)
  }

  /** Select first; the inclusive limit may then reject the selected point, never change it. */
  ghost predicate Selects(points: seq<Point>, target: int, mode: Mode, limit: Option<nat>, r: Option<Point>) {
    match r
    case Some(p) => Closest(points, target, mode, p) && (limit.Some? ==> Gap(p.timestamp, target) <= limit.value)
    case None =>
      || NoneEligible(points, target, mode)
      || (limit.Some? && exists p :: Closest(points, target, mode, p) && Gap(p.timestamp, target) > limit.value)
  }

  /** On strictly increasing points the selection is unique, so every form that meets it agrees. */
  lemma SelectionUnique(points: seq<Point>, target: int, mode: Mode, limit: Option<nat>, r1: Option<Point>, r2: Option<Point>)
    requires StrictlyIncreasing(points)
    requires Selects(points, target, mode, limit, r1) && Selects(points, target, mode, limit, r2)
    ensures r1 == r2
  {
    forall p, q | Closest(points, target, mode, p) && Closest(points, target, mode, q)
      ensures p == q
    {
      var i :| 0 <= i < |points| && points[i] == p;
      var j :| 0 <= j < |points| && points[j] == q;
      assert p.timestamp == q.timestamp;
    }
  }

  ghost predicate InDomain(points: seq<Point>, target: int, limit: Option<nat>) {
    && IsI64(target) && (forall p :: p in points ==> IsI64(p.timestamp))
    && (limit.Some? ==> limit.value <= U64_MAX)
  }

  /** Whether the scan of a prefix has found `best`, or nothing eligible yet. */
  ghost predicate Scanned(before: seq<Point>, target: int, mode: Mode, best: Option<Point>) {
    if best.Some? then Closest(before, target, mode, best.value) else NoneEligible(before, target, mode)
  }

  lemma ScannedNone(points: seq<Point>, target: int, mode: Mode)
    ensures Scanned(points[..0], target, mode, None)
  {
  }

  /** Looking at one more, later point: it replaces the best only when eligible and strictly closer. */
  lemma ScanStep(points: seq<Point>, i: nat, target: int, mode: Mode, best: Option<Point>)
    requires StrictlyIncreasing(points) && i < |points| && Scanned(points[..i], target, mode, best)
    ensures points[i] in points
    ensures var takes := Eligible(points[i].timestamp, target, mode)
                         && (best.None? || Gap(points[i].timestamp, target) < Gap(best.value.timestamp, target));
            Scanned(points[..i + 1], target, mode, if takes then Some(points[i]) else best)
  {
    hide Gap, Closest, NoneEligible;
    var before, point := points[..i], points[i];
    assert points[..i + 1] == before + [point];
    if !Eligible(point.timestamp, target, mode) {
      SkipIneligible(before, point, target, mode, best);
    } else if best.None? || Gap(point.timestamp, target) < Gap(best.value.timestamp, target) {
      TakeCloser(before, point, target, mode, best);
    } else {
      KeepCloser(points, i, target, mode, best.value);
    }
  }

  lemma SkipIneligible(before: seq<Point>, point: Point, target: int, mode: Mode, best: Option<Point>)
    requires Scanned(before, target, mode, best) && !Eligible(point.timestamp, target, mode)
    ensures Scanned(before + [point], target, mode, best)
  {
  }

  lemma TakeCloser(before: seq<Point>, point: Point, target: int, mode: Mode, best: Option<Point>)
    requires Scanned(before, target, mode, best) && Eligible(point.timestamp, target, mode)
    requires best.None? || Gap(point.timestamp, target) < Gap(best.value.timestamp, target)
    ensures Scanned(before + [point], target, mode, Some(point))
  {
    hide Gap;
    assert (before + [point])[|before|] == point;
  }

  lemma KeepCloser(points: seq<Point>, i: nat, target: int, mode: Mode, best: Point)
    requires StrictlyIncreasing(points) && i < |points| && Closest(points[..i], target, mode, best)
    requires Gap(best.timestamp, target) <= Gap(points[i].timestamp, target)
    ensures Closest(points[..i] + [points[i]], target, mode, best)
  {
    hide Gap;
    var k :| 0 <= k < i && points[..i][k] == best;
    assert points[k].timestamp < points[i].timestamp;
    assert (points[..i] + [points[i]])[k] == best;
  }

  // ---- The C selector: an index, kept while strictly closer ----

  method ReferenceC(points: seq<Point>, target: int, mode: Mode, limit: Option<nat>) returns (result: int)
    requires StrictlyIncreasing(points) && InDomain(points, target, limit)
    ensures -1 <= result < |points|
    ensures Selects(points, target, mode, limit, if result < 0 then None else Some(points[result]))
  {
    hide Closest, NoneEligible, Distance, StrictlyIncreasing;
    ScannedNone(points, target, mode);
    result := -1;
    var best := U64_MAX;
    for i := 0 to |points|
      invariant -1 <= result < i
      invariant result < 0 ==> best == U64_MAX
      invariant result >= 0 ==> best == Gap(points[result].timestamp, target)
      invariant Scanned(points[..i], target, mode, if result < 0 then None else Some(points[result]))
    {
      var timestamp := points[i].timestamp;
      ScanStep(points, i, target, mode, if result < 0 then None else Some(points[result]));
      if (mode == Exact && timestamp != target) ||
         (mode == Predecessor && timestamp > target) ||
         (mode == Successor && timestamp < target) {
        continue;
      }
      DistanceIsExact(timestamp, target);
      var delta := Distance(timestamp, target);
      if result < 0 || delta < best {
        result, best := i, delta;
      }
    }
    assert points[..|points|] == points;
    if limit.Some? && best > limit.value {
      assert result >= 0 ==> Closest(points, target, mode, points[result]);
      result := -1;
    }
  }

  // ---- The Go selector: the point itself, with a found flag ----

  const NO_POINT := Point(0, 0)

  method ReferenceGo(points: seq<Point>, target: int, mode: Mode, limit: Option<nat>) returns (result: Point, found: bool)
    requires StrictlyIncreasing(points) && InDomain(points, target, limit)
    ensures Selects(points, target, mode, limit, if found then Some(result) else None)
    ensures !found ==> result == NO_POINT
  {
    hide Closest, NoneEligible, Distance, StrictlyIncreasing;
    ScannedNone(points, target, mode);
    result, found := NO_POINT, false;
    var best := U64_MAX;
    for i := 0 to |points|
      invariant !found ==> best == U64_MAX && result == NO_POINT
      invariant found ==> best == Gap(result.timestamp, target)
      invariant Scanned(points[..i], target, mode, if found then Some(result) else None)
    {
      var point := points[i];
      ScanStep(points, i, target, mode, if found then Some(result) else None);
      if (mode == Exact && point.timestamp != target) ||
         (mode == Predecessor && point.timestamp > target) ||
         (mode == Successor && point.timestamp < target) {
        continue;
      }
      DistanceIsExact(point.timestamp, target);
      var distance := Distance(point.timestamp, target);
      if !found || distance < best {
        result, found, best := point, true, distance;
      }
    }
    assert points[..|points|] == points;
    if limit.Some? && best > limit.value {
      assert found ==> Closest(points, target, mode, result);
      result, found := NO_POINT, false;
    }
  }

  // ---- The Python selector: filter, then the minimum by (distance, timestamp) ----

  function Filtered(points: seq<Point>, target: int, mode: Mode): (candidates: seq<Point>)
    ensures forall p :: p in candidates <==> p in points && Eligible(p.timestamp, target, mode)
  {
    if points == [] then []
    else
      var kept := (mode != Exact || points[0].timestamp == target)
                  && (mode != Predecessor || points[0].timestamp <= target)
                  && (mode != Successor || points[0].timestamp >= target);
      assert points == [points[0]] + points[1..];
      (if kept then [points[0]] else []) + Filtered(points[1..], target, mode)
  }

  predicate KeyLess(p: Point, q: Point, target: int) {
    Gap(p.timestamp, target) < Gap(q.timestamp, target) ||
    (Gap(p.timestamp, target) == Gap(q.timestamp, target) && p.timestamp < q.timestamp)
  }

  /** The first candidate no other is below in key order. */
  function MinByKey(candidates: seq<Point>, target: int): (p: Point)
    requires candidates != []
    ensures p in candidates && forall q :: q in candidates ==> !KeyLess(q, p, target)
  {
    var n := |candidates| - 1;
    if n == 0 then candidates[0]
    else
      assert candidates == candidates[..n] + [candidates[n]];
      var rest := MinByKey(candidates[..n], target);
      if KeyLess(candidates[n], rest, target) then candidates[n] else rest
  }

  function ReferencePython(points: seq<Point>, target: int, mode: Mode, limit: Option<nat>): (r: Option<Point>)
    ensures Selects(points, target, mode, limit, r)
  {
    var candidates := Filtered(points, target, mode);
    if candidates == [] then
      assert forall q :: q in points && Eligible(q.timestamp, target, mode) ==> q in candidates;
      None
    else
      var point := MinByKey(candidates, target);
      assert Closest(points, target, mode, point) by {
        forall q | q in points && Eligible(q.timestamp, target, mode)
          ensures !KeyLess(q, point, target)
        {
          assert q in candidates;
        }
      }
      if limit.Some? && Gap(point.timestamp, target) > limit.value then None else Some(point)
  }

  /** All three reference selectors make the same choice. */
  lemma ReferencesAgree(points: seq<Point>, target: int, mode: Mode, limit: Option<nat>, c: int, result: Point, found: bool)
    requires StrictlyIncreasing(points) && InDomain(points, target, limit) && -1 <= c < |points|
    requires Selects(points, target, mode, limit, if c < 0 then None else Some(points[c]))
    requires Selects(points, target, mode, limit, if found then Some(result) else None)
    ensures ReferencePython(points, target, mode, limit) == if c < 0 then None else Some(points[c])
    ensures ReferencePython(points, target, mode, limit) == if found then Some(result) else None
  {
    var python := ReferencePython(points, target, mode, limit);
    SelectionUnique(points, target, mode, limit, python, if c < 0 then None else Some(points[c]));
    SelectionUnique(points, target, mode, limit, python, if found then Some(result) else None);
  }

  // ---- The engine: directional probes down the index tree ----

  datatype Direction = Before | After

  /** A data page, or an index node over its children. */
  datatype Tree = Leaf(points: seq<Point>) | Branch(children: seq<Tree>)

  function Flatten(t: Tree): seq<Point> {
    match t
    case Leaf(points) => points
    case Branch(children) => FlattenAll(children)
  }

  function FlattenAll(children: seq<Tree>): seq<Point> {
    if children == [] then [] else Flatten(children[0]) + FlattenAll(children[1..])
  }

  /** No page and no node is empty. */
  predicate NoEmpty(t: Tree) {
    match t
    case Leaf(points) => points != []
    case Branch(children) => children != [] && forall i :: 0 <= i < |children| ==> NoEmpty(children[i])
  }

  lemma {:induction false} NoEmptyFlatten(t: Tree)
    requires NoEmpty(t)
    ensures Flatten(t) != []
  {
    if t.Branch? {
      NoEmptyFlatten(t.children[0]);
    }
  }

  /** The summary bounds an index entry repeats for its child. */
  function MinOf(t: Tree): int
    requires NoEmpty(t)
  {
    NoEmptyFlatten(t);
    Flatten(t)[0].timestamp
  }

  function MaxOf(t: Tree): int
    requires NoEmpty(t)
  {
    NoEmptyFlatten(t);
    Flatten(t)[|Flatten(t)| - 1].timestamp
  }

  /** `r` is the greatest point at or before the target, or the least at or after it. */
  ghost predicate Probe(points: seq<Point>, target: int, direction: Direction, r: Option<Point>) {
    match r
    case Some(p) =>
      && p in points
      && (match direction
          case Before => p.timestamp <= target && forall q :: q in points && q.timestamp <= target ==> q.timestamp <= p.timestamp
          case After => p.timestamp >= target && forall q :: q in points && q.timestamp >= target ==> q.timestamp >= p.timestamp)
    case None =>
      match direction
      case Before => forall q :: q in points ==> q.timestamp > target
      case After => forall q :: q in points ==> q.timestamp < target
  }

  /** Binary search for the first key at or above the target. */
  method LowerBound(keys: seq<int>, target: int) returns (low: nat)
    requires forall i, j :: 0 <= i < j < |keys| ==> keys[i] < keys[j]
    ensures low <= |keys|
    ensures forall i :: 0 <= i < low ==> keys[i] < target
    ensures forall i :: low <= i < |keys| ==> keys[i] >= target
  {
    low := 0;
    var high := |keys|;
    while low < high
      invariant low <= high <= |keys|
      invariant forall i :: 0 <= i < low ==> keys[i] < target
      invariant forall i :: high <= i < |keys| ==> keys[i] >= target
    {
      var middle := low + (high - low) / 2;
      if keys[middle] < target {
        low := middle + 1;
      } else {
        high := middle;
      }
    }
  }

  function Keys(points: seq<Point>): (keys: seq<int>)
    ensures |keys| == |points| && forall i :: 0 <= i < |points| ==> keys[i] == points[i].timestamp
  {
    seq(|points|, i requires 0 <= i < |points| => points[i].timestamp)
  }

  ghost predicate Splits(points: seq<Point>, target: int, selected: nat) {
    && selected <= |points|
    && (forall i :: 0 <= i < selected ==> points[i].timestamp < target)
    && (forall i :: selected <= i < |points| ==> points[i].timestamp >= target)
  }

  lemma ProbeAfter(points: seq<Point>, target: int, selected: nat)
    requires StrictlyIncreasing(points) && Splits(points, target, selected)
    ensures Probe(points, target, After, if selected == |points| then None else Some(points[selected]))
  {
    forall q | q in points && q.timestamp >= target
      ensures selected < |points| && q.timestamp >= points[selected].timestamp
    {
      var i :| 0 <= i < |points| && points[i] == q;
    }
  }

  lemma ProbeBefore(points: seq<Point>, target: int, selected: nat)
    requires StrictlyIncreasing(points) && Splits(points, target, selected)
    ensures if selected < |points| && points[selected].timestamp == target then Probe(points, target, Before, Some(points[selected]))
            else Probe(points, target, Before, if selected == 0 then None else Some(points[selected - 1]))
  {
    forall q | q in points && q.timestamp <= target
      ensures selected < |points| && points[selected].timestamp == target ==> q.timestamp <= points[selected].timestamp
      ensures !(selected < |points| && points[selected].timestamp == target) ==> selected > 0 && q.timestamp <= points[selected - 1].timestamp
    {
      var i :| 0 <= i < |points| && points[i] == q;
    }
  }

  /** The point of one page. */
  method LookupPage(points: seq<Point>, target: int, direction: Direction) returns (r: Option<Point>)
    requires points != [] && StrictlyIncreasing(points)
    ensures Probe(points, target, direction, r)
  {
    hide Probe;
    var keys := Keys(points);
    var selected := LowerBound(keys, target);
    assert Splits(points, target, selected) by {
      assert forall i :: 0 <= i < |points| ==> keys[i] == points[i].timestamp;
    }
    ProbeAfter(points, target, selected);
    ProbeBefore(points, target, selected);
    match direction
    case After =>
      r := if selected == |points| then None else Some(points[selected]);
    case Before =>
      if selected == |points| {
        r := Some(points[selected - 1]);
      } else if points[selected].timestamp > target {
        r := if selected == 0 then None else Some(points[selected - 1]);
      } else {
        r := Some(points[selected]);
      }
  }

  lemma {:induction false} FlattenAppend(a: seq<Tree>, b: seq<Tree>)
    ensures FlattenAll(a + b) == FlattenAll(a) + FlattenAll(b)
  {
    if a == [] {
      assert a + b == b;
    } else {
      assert (a + b)[1..] == a[1..] + b;
      FlattenAppend(a[1..], b);
    }
  }

  /** A node's points are those before a child, the child's, and those after it. */
  lemma FlattenAround(children: seq<Tree>, k: nat)
    requires k < |children|
    ensures FlattenAll(children) == FlattenAll(children[..k]) + Flatten(children[k]) + FlattenAll(children[k + 1..])
  {
    assert children == children[..k] + children[k..];
    assert children[k..][1..] == children[k + 1..];
    FlattenAppend(children[..k], children[k..]);
  }

  lemma SortedParts(a: seq<Point>, mid: seq<Point>, b: seq<Point>)
    requires StrictlyIncreasing(a + mid + b)
    ensures StrictlyIncreasing(a) && StrictlyIncreasing(mid) && StrictlyIncreasing(b)
    ensures forall p, q :: p in a && q in mid ==> p.timestamp < q.timestamp
    ensures forall p, q :: p in mid && q in b ==> p.timestamp < q.timestamp
  {
    var all := a + mid + b;
    assert forall i :: 0 <= i < |a| ==> all[i] == a[i];
    assert forall i :: 0 <= i < |mid| ==> all[|a| + i] == mid[i];
    assert forall i :: 0 <= i < |b| ==> all[|a| + |mid| + i] == b[i];
  }

  /** The maxima of a node's entries are in order. */
  lemma {:induction false} MaximaIncrease(children: seq<Tree>, i: nat, j: nat)
    requires NoEmpty(Branch(children)) && StrictlyIncreasing(FlattenAll(children)) && i < j < |children|
    ensures MaxOf(children[i]) < MinOf(children[j]) <= MaxOf(children[j])
  {
    FlattenAround(children, j);
    FlattenAround(children[..j], i);
    NoEmptyFlatten(children[i]);
    NoEmptyFlatten(children[j]);
    var before, mine := FlattenAll(children[..j]), Flatten(children[j]);
    SortedParts(before, mine, FlattenAll(children[j + 1..]));
    assert children[..j][i] == children[i];
    assert Flatten(children[i])[|Flatten(children[i])| - 1] in before;
    assert mine[0] in mine;
  }

  function Maxima(children: seq<Tree>): (maxima: seq<int>)
    requires NoEmpty(Branch(children)) && StrictlyIncreasing(FlattenAll(children))
    ensures |maxima| == |children|
    ensures forall i :: 0 <= i < |children| ==> maxima[i] == MaxOf(children[i])
    ensures forall i, j :: 0 <= i < j < |maxima| ==> maxima[i] < maxima[j]
  {
    var maxima := seq(|children|, i requires 0 <= i < |children| => MaxOf(children[i]));
    assert forall i, j :: 0 <= i < j < |maxima| ==> maxima[i] < maxima[j] by {
      forall i, j | 0 <= i < j < |maxima|
        ensures maxima[i] < maxima[j]
      {
        MaximaIncrease(children, i, j);
      }
    }
    maxima
  }

  lemma EndsOrdered(children: seq<Tree>, k: nat)
    requires NoEmpty(Branch(children)) && StrictlyIncreasing(FlattenAll(children)) && k < |children|
    ensures MinOf(children[k]) <= MaxOf(children[k])
    ensures k + 1 < |children| ==> MaxOf(children[k]) < MinOf(children[k + 1])
  {
    ChildSorted(children, k);
    NoEmptyFlatten(children[k]);
    LastIsGreatest(Flatten(children[k]), Flatten(children[k])[0]);
    if k + 1 < |children| {
      MaximaIncrease(children, k, k + 1);
    }
  }

  /** The entry to descend into. None means no point lies in that direction. */
  method ChooseEntry(children: seq<Tree>, target: int, direction: Direction) returns (chosen: Option<nat>)
    requires NoEmpty(Branch(children)) && StrictlyIncreasing(FlattenAll(children))
    ensures chosen.Some? ==> chosen.value < |children| && DescentOk(children, chosen.value, target, direction)
    ensures chosen.None? ==> match direction
                             case Before => target < MinOf(children[0])
                             case After => MaxOf(children[|children| - 1]) < target
  {
    var maxima := Maxima(children);
    var selected := LowerBound(maxima, target);
    if 0 < selected {
      EndsOrdered(children, selected - 1);
      assert maxima[selected - 1] == MaxOf(children[selected - 1]);
    }
    if selected < |children| {
      EndsOrdered(children, selected);
      assert maxima[selected] == MaxOf(children[selected]);
    }
    match direction
    case After =>
      chosen := if selected == |children| then None else Some(selected);
    case Before =>
      if selected == |children| {
        chosen := Some(selected - 1);
      } else if MinOf(children[selected]) > target {
        chosen := if selected == 0 then None else Some(selected - 1);
      } else {
        chosen := Some(selected);
      }
  }

  /** Nothing outside the chosen child can be closer in the direction. */
  ghost predicate DescentOk(children: seq<Tree>, k: nat, target: int, direction: Direction)
    requires NoEmpty(Branch(children)) && k < |children|
  {
    match direction
    case After => (k > 0 ==> MaxOf(children[k - 1]) < target) && target <= MaxOf(children[k])
    case Before => MinOf(children[k]) <= target && (k + 1 < |children| ==> target < MinOf(children[k + 1]))
  }

  lemma LastIsGreatest(points: seq<Point>, p: Point)
    requires StrictlyIncreasing(points) && p in points
    ensures points[0].timestamp <= p.timestamp <= points[|points| - 1].timestamp
  {
  }

  /** Probing the part that can hold the answer probes the whole. */
  lemma ProbeWiden(a: seq<Point>, mid: seq<Point>, b: seq<Point>, target: int, direction: Direction, r: Option<Point>)
    requires StrictlyIncreasing(a + mid + b) && mid != [] && Probe(mid, target, direction, r)
    requires direction == After ==> (a != [] ==> a[|a| - 1].timestamp < target) && target <= mid[|mid| - 1].timestamp
    requires direction == Before ==> mid[0].timestamp <= target && (b != [] ==> target < b[0].timestamp)
    ensures Probe(a + mid + b, target, direction, r)
  {
    SortedParts(a, mid, b);
    forall q | q in a + mid + b
      ensures q in a || q in mid || q in b
      ensures q in a ==> q.timestamp <= a[|a| - 1].timestamp
      ensures q in b ==> b[0].timestamp <= q.timestamp
    {
      if q in a {
        LastIsGreatest(a, q);
      }
      if q in b {
        LastIsGreatest(b, q);
      }
    }
    assert mid[0] in mid && mid[|mid| - 1] in mid;
  }

  lemma {:induction false} FlattenAllEnds(children: seq<Tree>)
    requires children != [] && forall i :: 0 <= i < |children| ==> NoEmpty(children[i])
    ensures FlattenAll(children) != []
    ensures FlattenAll(children)[0].timestamp == MinOf(children[0])
    ensures FlattenAll(children)[|FlattenAll(children)| - 1].timestamp == MaxOf(children[|children| - 1])
  {
    NoEmptyFlatten(children[0]);
    if |children| > 1 {
      FlattenAllEnds(children[1..]);
    } else {
      assert FlattenAll(children[1..]) == [];
      assert Flatten(children[0]) + [] == Flatten(children[0]);
    }
  }

  lemma FlattenNone()
    ensures FlattenAll([]) == []
  {
  }

  /** Probing the chosen child probes the node. */
  lemma DescentProbes(children: seq<Tree>, k: nat, target: int, direction: Direction, r: Option<Point>)
    requires NoEmpty(Branch(children)) && StrictlyIncreasing(FlattenAll(children)) && k < |children|
    requires DescentOk(children, k, target, direction) && Probe(Flatten(children[k]), target, direction, r)
    ensures Probe(FlattenAll(children), target, direction, r)
  {
    hide Probe, FlattenAll, Flatten, MinOf, MaxOf, StrictlyIncreasing;
    PartsEnds(children, k);
    ProbeWiden(FlattenAll(children[..k]), Flatten(children[k]), FlattenAll(children[k + 1..]), target, direction, r);
  }

  /** A node's points are those before, in and after one child, and the parts' ends are the entries' bounds. */
  lemma PartsEnds(children: seq<Tree>, k: nat)
    requires NoEmpty(Branch(children)) && k < |children|
    ensures var a, mid, b := FlattenAll(children[..k]), Flatten(children[k]), FlattenAll(children[k + 1..]);
            && FlattenAll(children) == a + mid + b && mid != []
            && mid[0].timestamp == MinOf(children[k]) && mid[|mid| - 1].timestamp == MaxOf(children[k])
            && (if k == 0 then a == [] else a != [] && a[|a| - 1].timestamp == MaxOf(children[k - 1]))
            && (if k + 1 == |children| then b == [] else b != [] && b[0].timestamp == MinOf(children[k + 1]))
  {
    hide FlattenAll, Flatten, MinOf, MaxOf;
    FlattenAround(children, k);
    ChildEnds(children[k]);
    FlattenNone();
    if k > 0 {
      FlattenAllEnds(children[..k]);
    }
    if k + 1 < |children| {
      FlattenAllEnds(children[k + 1..]);
    }
  }

  lemma ChildEnds(t: Tree)
    requires NoEmpty(t)
    ensures Flatten(t) != [] && Flatten(t)[0].timestamp == MinOf(t) && Flatten(t)[|Flatten(t)| - 1].timestamp == MaxOf(t)
  {
    NoEmptyFlatten(t);
  }

  lemma ChildSorted(children: seq<Tree>, k: nat)
    requires StrictlyIncreasing(FlattenAll(children)) && k < |children|
    ensures StrictlyIncreasing(Flatten(children[k]))
  {
    FlattenAround(children, k);
    SortedParts(FlattenAll(children[..k]), Flatten(children[k]), FlattenAll(children[k + 1..]));
  }

  lemma NothingThatWay(children: seq<Tree>, target: int, direction: Direction)
    requires NoEmpty(Branch(children)) && StrictlyIncreasing(FlattenAll(children))
    requires match direction
             case Before => target < MinOf(children[0])
             case After => MaxOf(children[|children| - 1]) < target
    ensures Probe(FlattenAll(children), target, direction, None)
  {
    FlattenAllEnds(children);
    forall q | q in FlattenAll(children)
      ensures direction == Before ==> q.timestamp > target
      ensures direction == After ==> q.timestamp < target
    {
      LastIsGreatest(FlattenAll(children), q);
    }
  }

  /** Walk from the root to one page; the page's answer is the whole series' answer. */
  method LookupDirectional(root: Tree, target: int, direction: Direction) returns (r: Option<Point>)
    requires NoEmpty(root) && StrictlyIncreasing(Flatten(root))
    ensures Probe(Flatten(root), target, direction, r)
  {
    var node := root;
    while node.Branch?
      invariant NoEmpty(node) && StrictlyIncreasing(Flatten(node))
      invariant forall p :: Probe(Flatten(node), target, direction, p) ==> Probe(Flatten(root), target, direction, p)
      decreases node
    {
      var chosen := ChooseEntry(node.children, target, direction);
      if chosen.None? {
        NothingThatWay(node.children, target, direction);
        return None;
      }
      var child := node.children[chosen.value];
      forall p | Probe(Flatten(child), target, direction, p)
        ensures Probe(Flatten(node), target, direction, p)
      {
        DescentProbes(node.children, chosen.value, target, direction, p);
      }
      ChildSorted(node.children, chosen.value);
      node := child;
    }
    r := LookupPage(node.points, target, direction);
  }

  /** A predecessor or successor probe selects in its own mode; an exact lookup is a successor probe that hit. */
  lemma OneProbe(points: seq<Point>, target: int, direction: Direction, r: Option<Point>)
    requires Probe(points, target, direction, r)
    ensures direction == Before ==> Selects(points, target, Predecessor, None, r)
    ensures direction == After ==> Selects(points, target, Successor, None, r)
    ensures direction == After ==>
              Selects(points, target, Exact, None, if r.Some? && r.value.timestamp != target then None else r)
    ensures r.Some? && r.value.timestamp == target ==> Selects(points, target, Nearest, None, r)
  {
  }

  /** The closer of predecessor and successor, the predecessor on a tie, is the nearest point. */
  lemma TwoProbes(points: seq<Point>, target: int, before: Option<Point>, after: Option<Point>)
    requires Probe(points, target, Before, before) && Probe(points, target, After, after)
    ensures before.None? ==> Selects(points, target, Nearest, None, after)
    ensures after.None? ==> Selects(points, target, Nearest, None, before)
    ensures before.Some? && after.Some? ==>
              Selects(points, target, Nearest, None,
                      if Gap(before.value.timestamp, target) <= Gap(after.value.timestamp, target) then before else after)
  {
  }

  /** The limit filters what was selected. */
  lemma LimitFilters(points: seq<Point>, target: int, mode: Mode, limit: Option<nat>, selected: Option<Point>)
    requires Selects(points, target, mode, None, selected)
    ensures Selects(points, target, mode, limit,
                    if selected.Some? && limit.Some? && Gap(selected.value.timestamp, target) > limit.value then None else selected)
  {
  }

  /** The engine's lookup: one probe, or two and the closer, then the limit. */
  method LookupTree(root: Tree, target: int, mode: Mode, limit: Option<nat>) returns (r: Option<Point>)
    requires NoEmpty(root) && StrictlyIncreasing(Flatten(root))
    ensures Selects(Flatten(root), target, mode, limit, r)
  {
    hide Probe, Selects, Gap;
    ghost var points := Flatten(root);
    var selected: Option<Point>;
    match mode {
      case Exact =>
        selected := LookupDirectional(root, target, After);
        OneProbe(points, target, After, selected);
        if selected.Some? && selected.value.timestamp != target {
          selected := None;
        }
      case Predecessor =>
        selected := LookupDirectional(root, target, Before);
        OneProbe(points, target, Before, selected);
      case Successor =>
        selected := LookupDirectional(root, target, After);
        OneProbe(points, target, After, selected);
      case Nearest =>
        var before := LookupDirectional(root, target, Before);
        OneProbe(points, target, Before, before);
        if before.Some? && before.value.timestamp == target {
          selected := before;
        } else {
          var after := LookupDirectional(root, target, After);
          TwoProbes(points, target, before, after);
          if before.None? {
            selected := after;
          } else if after.None? {
            selected := before;
          } else {
            selected := if Gap(before.value.timestamp, target) <= Gap(after.value.timestamp, target) then before else after;
          }
        }
    }
    LimitFilters(points, target, mode, limit, selected);
    if selected.Some? && limit.Some? && Gap(selected.value.timestamp, target) > limit.value {
      return None;
    }
    r := selected;
  }
}

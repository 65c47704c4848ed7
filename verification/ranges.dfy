/** Inclusive timestamp ranges of a stored series, and the snapshots a reader adopts. */
module Ranges {
  import opened Objects

  const I64_MIN: int := -0x8000_0000_0000_0000
  const I64_MAX: int := 0x7fff_ffff_ffff_ffff
  type Snapshot = map<string, seq<Point>>

  function InRange(points: seq<Point>, start: int, end: int): (found: seq<Point>) {
    if points == [] then []
    else (if start <= points[0].timestamp <= end then [points[0]] else []) + InRange(points[1..], start, end)
  }

  ghost predicate Stored(points: seq<Point>) {
    StrictlyIncreasing(points) && forall i :: 0 <= i < |points| ==> I64_MIN <= points[i].timestamp <= I64_MAX
  }

  lemma {:induction false} RangeMembers(points: seq<Point>, start: int, end: int)
    ensures forall p :: p in InRange(points, start, end) <==> p in points && start <= p.timestamp <= end
  {
    if points != [] {
      RangeMembers(points[1..], start, end);
      assert points == [points[0]] + points[1..];
    }
  }

  lemma {:induction false} RangeIncreasing(points: seq<Point>, start: int, end: int)
    requires StrictlyIncreasing(points)
    ensures StrictlyIncreasing(InRange(points, start, end))
  {
    if points != [] {
      var rest := InRange(points[1..], start, end);
      RangeIncreasing(points[1..], start, end);
      RangeMembers(points[1..], start, end);
      forall j | 0 <= j < |rest|
        ensures points[0].timestamp < rest[j].timestamp
      {
        assert rest[j] in points[1..];
      }
    }
  }

  /** Asking again from just after the last point copied gives exactly what was not copied. */
  lemma {:induction false} RangeResumes(points: seq<Point>, start: int, end: int, copied: nat)
    requires StrictlyIncreasing(points) && 0 < copied <= |InRange(points, start, end)|
    ensures InRange(points, InRange(points, start, end)[copied - 1].timestamp + 1, end) == InRange(points, start, end)[copied..]
  {
    hide StrictlyIncreasing, InRange;
    RangeStep(points, start, end);
    var found, rest := InRange(points, start, end), InRange(points[1..], start, end);
    var first := points[0];
    var from := found[copied - 1].timestamp + 1;
    RangeStep(points, from, end);
    TailIncreasing(points);
    if start <= first.timestamp <= end {
      assert found == [first] + rest;
      if copied == 1 {
        RangeFrom(points[1..], start, from, end);
        assert found[1..] == rest;
      } else {
        assert found[copied - 1] == rest[copied - 2];
        FoundAfter(points, start, end, copied - 2);
        RangeResumes(points[1..], start, end, copied - 1);
        assert rest[copied - 1..] == found[copied..];
      }
    } else {
      assert found == rest;
      FoundAfter(points, start, end, copied - 1);
      RangeResumes(points[1..], start, end, copied);
    }
  }

  lemma RangeStep(points: seq<Point>, start: int, end: int)
    ensures InRange(points, start, end) ==
            if points == [] then []
            else (if start <= points[0].timestamp <= end then [points[0]] else []) + InRange(points[1..], start, end)
  {
  }

  lemma TailIncreasing(points: seq<Point>)
    requires StrictlyIncreasing(points) && points != []
    ensures StrictlyIncreasing(points[1..])
    ensures forall i :: 0 <= i < |points[1..]| ==> points[0].timestamp + 1 <= points[1..][i].timestamp
  {
  }

  lemma FoundAfter(points: seq<Point>, start: int, end: int, k: nat)
    requires points != [] && k < |InRange(points[1..], start, end)|
    requires forall i :: 0 <= i < |points[1..]| ==> points[0].timestamp + 1 <= points[1..][i].timestamp
    ensures points[0].timestamp < InRange(points[1..], start, end)[k].timestamp
  {
    hide InRange;
    RangeMembers(points[1..], start, end);
    assert InRange(points[1..], start, end)[k] in points[1..];
  }

  /** Raising the start below every point in range changes nothing. */
  lemma {:induction false} RangeFrom(points: seq<Point>, start: int, from: int, end: int)
    requires start <= from && forall i :: 0 <= i < |points| ==> from <= points[i].timestamp
    ensures InRange(points, from, end) == InRange(points, start, end)
  {
    if points != [] {
      RangeFrom(points[1..], start, from, end);
    }
  }

  lemma {:induction false} RangeEmpty(points: seq<Point>, start: int, end: int)
    requires end < start
    ensures InRange(points, start, end) == []
  {
    if points != [] {
      RangeEmpty(points[1..], start, end);
    }
  }

  /** What a reader finds when it refreshes. */
  datatype Arrival = Unreadable | Unchanged | Adopted(snapshot: Snapshot)

  function Take(points: seq<Point>, count: nat): seq<Point> { if count <= |points| then points[..count] else points }
}

/**
 The resumable benchmark ledger: result rows are appended to a file as calls finish, and a later session picks
 up where an interrupted one stopped.
 */
module Ledger {
  import opened Options

  datatype Identity = Identity(workload: string, engine: string, run: nat)

  /** `sound` is false when a measured field is missing, not finite or not positive. */
  datatype Row = Row(identity: Identity, schema: int, sound: bool)

  function Identities(rows: seq<Row>): (ids: seq<Identity>)
    ensures |ids| == |rows| && forall i :: 0 <= i < |ids| ==> ids[i] == rows[i].identity
  {
    seq(|rows|, i requires 0 <= i < |rows| => rows[i].identity)
  }

  function SetOf<T>(xs: seq<T>): (s: set<T>) {
    set x | x in xs
  }

  predicate Distinct<T(==)>(xs: seq<T>) {
    forall i, j :: 0 <= i < j < |xs| ==> xs[i] != xs[j]
  }

  /** The check by size that the source makes. */
  lemma {:induction false} DistinctBySize<T>(xs: seq<T>)
    ensures |SetOf(xs)| <= |xs|
    ensures Distinct(xs) <==> |SetOf(xs)| == |xs|
  {
    if xs == [] {
      assert SetOf(xs) == {};
    } else {
      var n := |xs| - 1;
      var before, last := xs[..n], xs[n];
      DistinctBySize(before);
      assert SetOf(xs) == SetOf(before) + {last};
      if last in before {
        assert SetOf(xs) == SetOf(before);
        var i :| 0 <= i < n && before[i] == last;
        assert xs[i] == xs[n];
      } else {
        assert forall i :: 0 <= i < n ==> before[i] == xs[i];
      }
    }
  }

  predicate Sound(rows: seq<Row>) {
    forall r :: r in rows ==> r.schema == 2 && r.sound
  }

  // ---- Calls ----

  /** A concurrent benchmark emits two records, every other command one. */
  function Expected(concurrent: bool, title: string, engine: string, run: nat): (ids: seq<Identity>) {
    if concurrent then [Identity(title + "-writer", engine, run), Identity(title + "-readers", engine, run)]
    else [Identity(title, engine, run)]
  }

  /** Two calls share an identity only in the same run of the same engine, with clashing labels. */
  lemma CallsClash(a: bool, titleA: string, engineA: string, runA: nat, b: bool, titleB: string, engineB: string, runB: nat)
    ensures (exists id :: id in Expected(a, titleA, engineA, runA) && id in Expected(b, titleB, engineB, runB)) <==>
              && engineA == engineB && runA == runB
              && (if a == b then titleA == titleB
                  else if a then titleB == titleA + "-writer" || titleB == titleA + "-readers"
                  else titleA == titleB + "-writer" || titleA == titleB + "-readers")
  {
    Suffixes(titleA, titleB);
    Suffixes(titleB, titleA);
    var left, right := Expected(a, titleA, engineA, runA), Expected(b, titleB, engineB, runB);
    if engineA == engineB && runA == runB {
      if a == b && titleA == titleB {
        assert left[0] in right;
      } else if a && !b && (titleB == titleA + "-writer" || titleB == titleA + "-readers") {
        assert right[0] in left;
      } else if !a && b && (titleA == titleB + "-writer" || titleA == titleB + "-readers") {
        assert left[0] in right;
      }
    }
  }

  lemma Suffixes(a: string, b: string)
    ensures a + "-writer" == b + "-writer" ==> a == b
    ensures a + "-readers" == b + "-readers" ==> a == b
    ensures a + "-writer" != b + "-readers"
  {
    assert (a + "-writer")[..|a|] == a && (b + "-writer")[..|b|] == b;
    assert (a + "-readers")[..|a|] == a && (b + "-readers")[..|b|] == b;
    assert (a + "-writer")[|a| + 6] == 'r' && (b + "-readers")[|b| + 7] == 's';
  }

  // ---- Validation ----

  datatype Verdict = Passed | Duplicate | Incomplete | WrongSchema | InvalidField

  /** Every row before `i` is of the second schema and sound. */
  ghost predicate FineUpTo(rows: seq<Row>, i: nat) {
    i <= |rows| && forall k :: 0 <= k < i ==> rows[k].schema == 2 && rows[k].sound
  }

  /** The first row that is not fine is of another schema. */
  ghost predicate SchemaFails(rows: seq<Row>) {
    exists i :: 0 <= i < |rows| && FineUpTo(rows, i) && rows[i].schema != 2
  }

  /** The first row that is not fine is of the second schema, and its fields are wrong. */
  ghost predicate FieldFails(rows: seq<Row>) {
    exists i :: 0 <= i < |rows| && FineUpTo(rows, i) && rows[i].schema == 2 && !rows[i].sound
  }

  /** All rows are fine, or the first that is not decides between the two failures. */
  lemma OneFailure(rows: seq<Row>, i: nat)
    requires FineUpTo(rows, i)
    ensures i == |rows| ==> Sound(rows) && !SchemaFails(rows) && !FieldFails(rows)
    ensures i < |rows| && rows[i].schema != 2 ==> SchemaFails(rows) && !FieldFails(rows) && !Sound(rows)
    ensures i < |rows| && rows[i].schema == 2 && !rows[i].sound ==> FieldFails(rows) && !SchemaFails(rows) && !Sound(rows)
  {
    if i < |rows| {
      assert rows[i] in rows;
    }
  }

  method Validate(rows: seq<Row>, expected: set<Identity>) returns (verdict: Verdict)
    ensures verdict.Passed? <==>
              && Distinct(Identities(rows)) && SetOf(Identities(rows)) == expected
              && Sound(rows)
    ensures verdict.Passed? ==> forall r :: r in rows ==> r.schema == 2 && r.sound
    ensures verdict.Duplicate? <==> !Distinct(Identities(rows))
    ensures verdict.Incomplete? <==> Distinct(Identities(rows)) && SetOf(Identities(rows)) != expected
    ensures verdict.WrongSchema? <==> Distinct(Identities(rows)) && SetOf(Identities(rows)) == expected && SchemaFails(rows)
    ensures verdict.InvalidField? <==> Distinct(Identities(rows)) && SetOf(Identities(rows)) == expected && FieldFails(rows)
  {
    var actual := Identities(rows);
    DistinctBySize(actual);
    if |actual| != |SetOf(actual)| {
      return Duplicate;
    }
    if SetOf(actual) != expected {
      return Incomplete;
    }
    for i := 0 to |rows|
      invariant FineUpTo(rows, i)
    {
      OneFailure(rows, i);
      if rows[i].schema != 2 {
        return WrongSchema;
      }
      if !rows[i].sound {
        return InvalidField;
      }
    }
    OneFailure(rows, |rows|);
    verdict := Passed;
  }

  function Count(rows: seq<Row>, id: Identity): nat {
    if rows == [] then 0 else Count(rows[..|rows| - 1], id) + if rows[|rows| - 1].identity == id then 1 else 0
  }

  /** Passing the two set checks is having every expected identity exactly once and no other. */
  lemma ExactlyOnce(rows: seq<Row>, expected: set<Identity>)
    ensures Distinct(Identities(rows)) && SetOf(Identities(rows)) == expected <==>
              forall id :: Count(rows, id) == if id in expected then 1 else 0
  {
    var ids := Identities(rows);
    forall id
      ensures Count(rows, id) > 0 <==> id in ids
      ensures Distinct(ids) ==> Count(rows, id) <= 1
    {
      CountPositive(rows, id);
      if Distinct(ids) {
        CountDistinct(rows, id);
      }
    }
    if !Distinct(ids) {
      var i, j :| 0 <= i < j < |ids| && ids[i] == ids[j];
      CountTwice(rows, i, j);
    }
    if Distinct(ids) && forall id :: Count(rows, id) == if id in expected then 1 else 0 {
      assert forall id :: id in SetOf(ids) <==> Count(rows, id) > 0;
      assert SetOf(ids) == expected;
    }
    if SetOf(ids) == expected {
      assert forall id :: id in expected <==> id in ids;
    }
  }

  lemma {:induction false} CountPositive(rows: seq<Row>, id: Identity)
    ensures Count(rows, id) > 0 <==> id in Identities(rows)
  {
    if rows != [] {
      var n := |rows| - 1;
      CountPositive(rows[..n], id);
      assert Identities(rows) == Identities(rows[..n]) + [rows[n].identity];
    }
  }

  lemma {:induction false} CountDistinct(rows: seq<Row>, id: Identity)
    requires Distinct(Identities(rows))
    ensures Count(rows, id) <= 1
  {
    if rows != [] {
      var n := |rows| - 1;
      assert Identities(rows) == Identities(rows[..n]) + [rows[n].identity];
      CountDistinct(rows[..n], id);
      CountPositive(rows[..n], id);
      if rows[n].identity == id {
        assert Identities(rows)[n] == id;
      }
    }
  }

  lemma {:induction false} CountTwice(rows: seq<Row>, i: nat, j: nat)
    requires i < j < |rows| && rows[i].identity == rows[j].identity
    ensures Count(rows, rows[i].identity) >= 2
  {
    var n := |rows| - 1;
    if j < n {
      CountTwice(rows[..n], i, j);
    } else {
      assert rows[..n][i] == rows[i];
      assert Identities(rows[..n])[i] == rows[i].identity;
      CountPositive(rows[..n], rows[i].identity);
    }
  }

  // ---- Sessions ----

  /** What running a call gave: nothing when the runner failed. */
  type Emission = Option<seq<Row>>

  datatype End =
    | Finished
    | Interrupted
    | AlreadyDuplicated
    | PartialCall(call: nat)
    | RunnerFailed
    | WrongRows
    | Rejected(verdict: Verdict)

  /** Some but not all of a call's records are there. */
  predicate Half(call: seq<Identity>, complete: set<Identity>) {
    (exists id :: id in call && id in complete) && (exists id :: id in call && id !in complete)
  }

  /** The rows a healthy runner writes for a call. */
  predicate Healthy(call: seq<Identity>, emission: Emission) {
    && emission.Some? && SetOf(Identities(emission.value)) == SetOf(call) && Distinct(Identities(emission.value))
    && Sound(emission.value)
  }

  predicate NoRepeats(emission: Emission) {
    emission.Some? ==> Distinct(Identities(emission.value))
  }

  lemma DistinctNext(rows: seq<Row>, row: Row)
    ensures Identities(rows + [row]) == Identities(rows) + [row.identity]
    ensures SetOf(Identities(rows + [row])) == SetOf(Identities(rows)) + {row.identity}
    ensures Distinct(Identities(rows + [row])) <==> Distinct(Identities(rows)) && row.identity !in SetOf(Identities(rows))
  {
    var ids := Identities(rows);
    assert Identities(rows + [row]) == ids + [row.identity];
    if row.identity in ids {
      var i :| 0 <= i < |ids| && ids[i] == row.identity;
      assert (ids + [row.identity])[i] == (ids + [row.identity])[|ids|];
    }
    if !Distinct(ids) {
      var i, j :| 0 <= i < j < |ids| && ids[i] == ids[j];
      assert (ids + [row.identity])[i] == (ids + [row.identity])[j];
    }
  }

  /** The results file, which outlives every session. */
  class ResultsFile {
    var rows: seq<Row>

    constructor ()
      ensures rows == []
    {
      rows := [];
    }

    /** Append rows one at a time until `budget` runs out, which is where an interruption struck. */
    method WriteAll(emitted: seq<Row>, complete: set<Identity>, budget: nat)
      returns (now: set<Identity>, left: nat, done: bool, written: nat)
      requires complete == SetOf(Identities(rows))
      modifies this
      ensures written <= |emitted| && rows == old(rows) + emitted[..written]
      ensures now == SetOf(Identities(rows)) && now == complete + SetOf(Identities(emitted[..written]))
      ensures done <==> written == |emitted|
      ensures written == (if budget < |emitted| then budget else |emitted|) && left == budget - written
      ensures old(Addable(rows, emitted)) ==> Distinct(Identities(rows))
    {
      hide Distinct, SetOf, Addable;
      AddableNone(rows, emitted);
      now, left, done, written := complete, budget, true, 0;
      while written < |emitted|
        invariant written <= |emitted| && rows == old(rows) + emitted[..written]
        invariant now == SetOf(Identities(rows)) && now == complete + SetOf(Identities(emitted[..written]))
        invariant left == budget - written
        invariant old(Addable(rows, emitted)) ==> Distinct(Identities(rows))
      {
        if left == 0 {
          done := false;
          return;
        }
        var row := emitted[written];
        WriteNext(old(rows), rows, emitted, written, complete);
        assert emitted[..written + 1] == emitted[..written] + [row];
        rows := rows + [row];
        now := now + {row.identity};
        left, written := left - 1, written + 1;
      }
      assert emitted[..written] == emitted;
    }
  }

  /** Duplicate-free rows that share no identity. */
  ghost predicate Addable(rows: seq<Row>, emitted: seq<Row>) {
    Distinct(Identities(rows)) && Distinct(Identities(emitted)) && SetOf(Identities(rows)) !! SetOf(Identities(emitted))
  }

  lemma AddableNone(rows: seq<Row>, emitted: seq<Row>)
    ensures SetOf(Identities(emitted[..0])) == {} && (Addable(rows, emitted) ==> Distinct(Identities(rows)))
  {
  }

  /** Writing one more of the emitted rows. */
  lemma WriteNext(start: seq<Row>, rows: seq<Row>, emitted: seq<Row>, written: nat, complete: set<Identity>)
    requires written < |emitted| && rows == start + emitted[..written]
    requires complete == SetOf(Identities(start)) && SetOf(Identities(rows)) == complete + SetOf(Identities(emitted[..written]))
    ensures var row, more := emitted[written], emitted[..written] + [emitted[written]];
            && SetOf(Identities(rows + [row])) == SetOf(Identities(rows)) + {row.identity}
            && SetOf(Identities(rows + [row])) == complete + SetOf(Identities(more))
            && (Addable(start, emitted) && Distinct(Identities(rows)) ==> Distinct(Identities(rows + [row])))
  {
    hide Distinct;
    DistinctNext(rows, emitted[written]);
    DistinctNext(emitted[..written], emitted[written]);
    NotYet(emitted, written);
  }

  lemma NotYet(emitted: seq<Row>, written: nat)
    requires written < |emitted|
    ensures emitted[written].identity in SetOf(Identities(emitted))
    ensures Distinct(Identities(emitted)) ==> emitted[written].identity !in SetOf(Identities(emitted[..written]))
  {
    assert Identities(emitted)[written] == emitted[written].identity;
    assert forall i :: 0 <= i < written ==> Identities(emitted[..written])[i] == Identities(emitted)[i];
  }

  ghost predicate Disjoint(calls: seq<seq<Identity>>) {
    forall j, k :: 0 <= j < k < |calls| ==> SetOf(calls[j]) !! SetOf(calls[k])
  }

  ghost function AllOf(calls: seq<seq<Identity>>): set<Identity> {
    set k, id | 0 <= k < |calls| && id in calls[k] :: id
  }

  /** How many rows the runner gives in all. */
  function Total(runner: seq<Emission>): (total: nat)
    ensures runner == [] ==> total == 0
  {
    if runner == [] then 0 else (if runner[0].Some? then |runner[0].value| else 0) + Total(runner[1..])
  }

  /** Nothing stands in the way: sound rows so far, no half-written call, and a healthy runner left alone long enough. */
  ghost predicate Unhindered(rows: seq<Row>, calls: seq<seq<Identity>>, runner: seq<Emission>, budget: nat, expected: set<Identity>)
    requires |runner| == |calls|
  {
    && Distinct(Identities(rows)) && Sound(rows)
    && Disjoint(calls) && expected == AllOf(calls) && SetOf(Identities(rows)) <= expected
    && (forall k :: 0 <= k < |calls| ==> !Half(calls[k], SetOf(Identities(rows))) && Healthy(calls[k], runner[k]))
    && budget >= Total(runner)
  }

  /** Calls still to come are as complete as they were: earlier calls write only their own identities. */
  ghost predicate Untouched(calls: seq<seq<Identity>>, from: nat, before: set<Identity>, now: set<Identity>) {
    before <= now && forall k, id :: from <= k < |calls| && id in calls[k] && id in now ==> id in before
  }

  lemma UntouchedNext(calls: seq<seq<Identity>>, from: nat, before: set<Identity>, now: set<Identity>, more: set<Identity>)
    requires Untouched(calls, from, before, now) && from < |calls| && more <= SetOf(calls[from]) && Disjoint(calls)
    ensures Untouched(calls, from + 1, before, now + more)
  {
    forall k, id | from + 1 <= k < |calls| && id in calls[k] && id in now + more
      ensures id in before
    {
      assert id in SetOf(calls[k]);
      assert id !in SetOf(calls[from]);
    }
  }

  lemma HalfSame(calls: seq<seq<Identity>>, k: nat, before: set<Identity>, now: set<Identity>)
    requires k < |calls| && Untouched(calls, k, before, now)
    ensures Half(calls[k], now) <==> Half(calls[k], before)
  {
  }

  /** The first `i` calls are complete, and nothing but calls' identities came in. */
  ghost predicate Progress(calls: seq<seq<Identity>>, i: nat, start: set<Identity>, complete: set<Identity>) {
    && i <= |calls| && complete <= start + AllOf(calls)
    && (forall k :: 0 <= k < i ==> SetOf(calls[k]) <= complete)
    && (Disjoint(calls) ==> Untouched(calls, i, start, complete) && forall k :: 0 <= k < i ==> !Half(calls[k], start))
  }

  lemma ProgressStart(calls: seq<seq<Identity>>, start: set<Identity>)
    ensures Progress(calls, 0, start, start)
  {
  }

  lemma ProgressNext(calls: seq<seq<Identity>>, i: nat, start: set<Identity>, before: set<Identity>, now: set<Identity>)
    requires Progress(calls, i, start, before) && i < |calls| && !Half(calls[i], before)
    requires before <= now && now - before <= SetOf(calls[i]) <= now
    ensures Progress(calls, i + 1, start, now)
  {
    hide Half, Disjoint, Untouched;
    assert SetOf(calls[i]) <= AllOf(calls);
    if Disjoint(calls) {
      HalfSame(calls, i, start, before);
      UntouchedNext(calls, i, start, before, now - before);
      assert before + (now - before) == now;
    }
  }

  /** All calls gone through: no half-written one was among disjoint calls, and the ledger holds them all. */
  lemma ProgressEnd(calls: seq<seq<Identity>>, start: set<Identity>, complete: set<Identity>)
    requires Progress(calls, |calls|, start, complete)
    ensures Disjoint(calls) ==> forall k :: 0 <= k < |calls| ==> !Half(calls[k], start)
    ensures start <= AllOf(calls) ==> complete == AllOf(calls)
  {
    hide Half, Disjoint, Untouched;
    forall id | id in AllOf(calls)
      ensures id in complete
    {
      var k :| 0 <= k < |calls| && id in calls[k];
      assert id in SetOf(calls[k]);
    }
  }

  /** In an unhindered session call `i` is not half-written when its turn comes. */
  lemma HalfNever(calls: seq<seq<Identity>>, i: nat, start: set<Identity>, complete: set<Identity>)
    requires Progress(calls, i, start, complete) && Disjoint(calls) && i < |calls| && !Half(calls[i], start)
    ensures !Half(calls[i], complete)
  {
    hide Half, Disjoint;
    HalfSame(calls, i, start, complete);
  }

  lemma TotalStep(runner: seq<Emission>, i: nat)
    requires i < |runner|
    ensures Total(runner[i..]) == (if runner[i].Some? then |runner[i].value| else 0) + Total(runner[i + 1..])
  {
    assert runner[i..][1..] == runner[i + 1..];
  }

  /** Some, all or none of the call's records are in the ledger. */
  lemma PresentMeans(call: seq<Identity>, complete: set<Identity>)
    ensures SetOf(call) * complete == SetOf(call) <==> SetOf(call) <= complete
    ensures Half(call, complete) <==> SetOf(call) * complete != {} && SetOf(call) * complete != SetOf(call)
  {
    if Half(call, complete) {
      var id :| id in call && id in complete;
      assert id in SetOf(call) * complete;
      var other :| other in call && other !in complete;
      assert other in SetOf(call) && other !in SetOf(call) * complete;
    }
    if SetOf(call) * complete != {} && SetOf(call) * complete != SetOf(call) {
      var id :| id in SetOf(call) * complete;
      assert id in call && id in complete;
      var other :| other in SetOf(call) && other !in SetOf(call) * complete;
      assert other in call && other !in complete;
    }
  }

  /** How far a session has come: the rows of the file, the writes left before it is interrupted, and why it stopped. */
  datatype Past = Past(rows: seq<Row>, left: nat, stop: Option<End>)

  function Performed(rows: seq<Row>, call: seq<Identity>, emission: Emission, left: nat, index: nat): Past {
    var complete := SetOf(Identities(rows));
    if SetOf(call) <= complete then Past(rows, left, None)
    else if Half(call, complete) then Past(rows, left, Some(PartialCall(index)))
    else if emission.None? then Past(rows, left, Some(RunnerFailed))
    else if SetOf(Identities(emission.value)) != SetOf(call) then Past(rows, left, Some(WrongRows))
    else if left < |emission.value| then Past(rows + emission.value[..left], 0, Some(Interrupted))
    else Past(rows + emission.value, left - |emission.value|, None)
  }

  /** The first `n` calls of a session, or those up to the one that stopped it. */
  function Went(rows: seq<Row>, calls: seq<seq<Identity>>, runner: seq<Emission>, budget: nat, n: nat): Past
    requires n <= |calls| == |runner|
  {
    if n == 0 then Past(rows, budget, None)
    else
      var past := Went(rows, calls, runner, budget, n - 1);
      if past.stop.Some? then past else Performed(past.rows, calls[n - 1], runner[n - 1], past.left, n - 1)
  }

  lemma {:induction false} WentStopped(rows: seq<Row>, calls: seq<seq<Identity>>, runner: seq<Emission>, budget: nat, i: nat, n: nat)
    requires i <= n <= |calls| == |runner| && Went(rows, calls, runner, budget, i).stop.Some?
    ensures Went(rows, calls, runner, budget, n) == Went(rows, calls, runner, budget, i)
  {
    if i < n {
      WentStopped(rows, calls, runner, budget, i, n - 1);
    }
  }

  /** A whole session: a duplicated file is left alone, and going through every call is not yet passing. */
  function Sat(rows: seq<Row>, calls: seq<seq<Identity>>, attempt: Attempt): Past
    requires |calls| == |attempt.runner|
  {
    if Distinct(Identities(rows)) then Went(rows, calls, attempt.runner, attempt.budget, |calls|)
    else Past(rows, attempt.budget, Some(AlreadyDuplicated))
  }

  predicate Passes(rows: seq<Row>, expected: set<Identity>) {
    Distinct(Identities(rows)) && SetOf(Identities(rows)) == expected && Sound(rows)
  }

  /** One call of the session's loop. */
  method Perform(file: ResultsFile, call: seq<Identity>, emission: Emission, complete: set<Identity>, budget: nat, index: nat)
    returns (now: set<Identity>, left: nat, end: Option<End>)
    requires complete == SetOf(Identities(file.rows))
    modifies file
    ensures old(file.rows) <= file.rows && now == SetOf(Identities(file.rows))
    ensures Past(file.rows, left, end) == Performed(old(file.rows), call, emission, budget, index)
    ensures complete <= now && now - complete <= SetOf(call)
    ensures Distinct(old(Identities(file.rows))) && NoRepeats(emission) ==> Distinct(Identities(file.rows))
    ensures end.None? ==> SetOf(call) <= now && !Half(call, complete)
    ensures end.Some? ==> !end.value.Finished? && !end.value.AlreadyDuplicated?
    ensures SetOf(call) <= complete ==> end.None? && file.rows == old(file.rows)
    ensures Half(call, complete) <==> end == Some(PartialCall(index))
    ensures end.Some? && end.value.PartialCall? ==> end.value.call == index && file.rows == old(file.rows)
    ensures end == Some(RunnerFailed) <==> emission.None? && !Half(call, complete) && !(SetOf(call) <= complete)
    ensures end == Some(WrongRows) <==>
              && emission.Some? && SetOf(Identities(emission.value)) != SetOf(call)
              && !Half(call, complete) && !(SetOf(call) <= complete)
    ensures end == Some(RunnerFailed) || end == Some(WrongRows) ==> file.rows == old(file.rows)
    ensures end.None? && !(SetOf(call) <= complete) ==> emission.Some? && file.rows == old(file.rows) + emission.value
    ensures end == Some(Interrupted) ==>
              emission.Some? && exists written: nat :: written < |emission.value| && file.rows == old(file.rows) + emission.value[..written]
    ensures !Half(call, complete) && Healthy(call, emission) && budget >= |emission.value| ==>
              end.None? && left >= budget - |emission.value|
              && (old(Sound(file.rows)) ==> Sound(file.rows))
  {
    now, left, end := complete, budget, None;
    var present := SetOf(call) * complete;
    PresentMeans(call, complete);
    if present == SetOf(call) {
      return;
    }
    if present != {} {
      end := Some(PartialCall(index));
      return;
    }
    if emission.None? {
      end := Some(RunnerFailed);
      return;
    }
    if SetOf(Identities(emission.value)) != SetOf(call) {
      end := Some(WrongRows);
      return;
    }
    var done, written;
    now, left, done, written := file.WriteAll(emission.value, complete, budget);
    SomeOf(emission.value, written);
    if !done {
      end := Some(Interrupted);
    } else {
      assert emission.value[..written] == emission.value;
    }
  }

  lemma SomeOf(emitted: seq<Row>, written: nat)
    requires written <= |emitted|
    ensures SetOf(Identities(emitted[..written])) <= SetOf(Identities(emitted))
  {
    assert forall i :: 0 <= i < written ==> Identities(emitted[..written])[i] == Identities(emitted)[i];
  }

  /**
   One session. The ledger only grows; it stays free of duplicates whatever the calls are, as long as no call
   emits one identity twice; finishing means every expected identity is there exactly once. With disjoint
   calls a half-written one keeps the session from finishing, and without any, an unhindered session finishes.
   */
  method Session(file: ResultsFile, calls: seq<seq<Identity>>, runner: seq<Emission>, budget: nat, expected: set<Identity>)
    returns (end: End, complete: set<Identity>)
    requires |runner| == |calls|
    modifies file
    ensures old(file.rows) <= file.rows && complete == SetOf(Identities(file.rows))
    ensures end.AlreadyDuplicated? <==> !Distinct(old(Identities(file.rows)))
    ensures end.AlreadyDuplicated? ==> file.rows == old(file.rows)
    ensures Distinct(old(Identities(file.rows))) && (forall k :: 0 <= k < |runner| ==> NoRepeats(runner[k])) ==>
              Distinct(Identities(file.rows))
    ensures var past := Sat(old(file.rows), calls, Attempt(runner, budget));
            && file.rows == past.rows
            && (past.stop.Some? ==> end == past.stop.value && !end.Finished?)
            && (past.stop.None? ==> if Passes(past.rows, expected) then end.Finished? else end.Rejected? && !end.verdict.Passed?)
            && (past.stop.None? && Distinct(Identities(past.rows)) ==>
                  && (end == Rejected(Incomplete) <==> SetOf(Identities(past.rows)) != expected)
                  && (end == Rejected(WrongSchema) <==> SetOf(Identities(past.rows)) == expected && SchemaFails(past.rows))
                  && (end == Rejected(InvalidField) <==> SetOf(Identities(past.rows)) == expected && FieldFails(past.rows)))
            && (past.stop.None? && !Distinct(Identities(past.rows)) ==> end == Rejected(Duplicate))
    ensures end.Finished? ==> Distinct(Identities(file.rows)) && SetOf(Identities(file.rows)) == expected
    ensures end.Finished? ==> forall r :: r in file.rows ==> r.schema == 2 && r.sound
    ensures end.PartialCall? ==> end.call < |calls| && Half(calls[end.call], complete)
    ensures Disjoint(calls) && (exists k :: 0 <= k < |calls| && Half(calls[k], SetOf(old(Identities(file.rows))))) ==> !end.Finished?
    ensures old(Unhindered(file.rows, calls, runner, budget, expected)) ==> end.Finished?
  {
    hide Half, Distinct, Disjoint, Healthy, Progress, Sound, NoRepeats, Total, Performed, SchemaFails, FieldFails;
    var identities := Identities(file.rows);
    DistinctBySize(identities);
    complete := SetOf(identities);
    if |identities| != |complete| {
      return AlreadyDuplicated, complete;
    }
    ghost var start, rows := complete, file.rows;
    ghost var smooth := Unhindered(file.rows, calls, runner, budget, expected);
    ghost var clean := forall k :: 0 <= k < |runner| ==> NoRepeats(runner[k]);
    var left: nat := budget;
    ProgressStart(calls, start);
    assert runner[0..] == runner;
    for i := 0 to |calls|
      invariant rows <= file.rows && complete == SetOf(Identities(file.rows))
      invariant clean ==> Distinct(Identities(file.rows))
      invariant Went(rows, calls, runner, budget, i) == Past(file.rows, left, None)
      invariant Progress(calls, i, start, complete)
      invariant smooth ==> left >= Total(runner[i..]) && Sound(file.rows) && Distinct(Identities(file.rows))
    {
      TotalStep(runner, i);
      ghost var before := complete;
      if smooth {
        HealthyEmits(calls[i], runner[i]);
        HalfNever(calls, i, start, complete);
      }
      var stop;
      complete, left, stop := Perform(file, calls[i], runner[i], complete, left, i);
      if stop.Some? {
        WentStopped(rows, calls, runner, budget, i + 1, |calls|);
        return stop.value, complete;
      }
      ProgressNext(calls, i, start, before, complete);
    }
    ProgressEnd(calls, start, complete);
    var verdict := Validate(file.rows, expected);
    end := if verdict.Passed? then Finished else Rejected(verdict);
  }

  lemma HealthyEmits(call: seq<Identity>, emission: Emission)
    requires Healthy(call, emission)
    ensures emission.Some? && NoRepeats(emission)
  {
  }

  /** The runner check compares sets only: a call's rows keep the ledger free of duplicates exactly when they repeat no identity. */
  lemma WholeCall(rows: seq<Row>, emitted: seq<Row>)
    requires Distinct(Identities(rows)) && SetOf(Identities(rows)) !! SetOf(Identities(emitted))
    ensures Distinct(Identities(rows + emitted)) <==> Distinct(Identities(emitted))
  {
    var all := Identities(rows + emitted);
    assert all == Identities(rows) + Identities(emitted);
    assert forall i :: 0 <= i < |emitted| ==> all[|rows| + i] == Identities(emitted)[i];
    forall i, j | 0 <= i < |rows| <= j < |all|
      ensures all[i] != all[j]
    {
      assert Identities(rows)[i] in SetOf(Identities(rows)) && Identities(emitted)[j - |rows|] in SetOf(Identities(emitted));
    }
  }

  /** A session as it happened to go: what the runner emitted for each call, and after how many rows it was interrupted. */
  datatype Attempt = Attempt(runner: seq<Emission>, budget: nat)

  datatype Standing = Standing(rows: seq<Row>, finished: bool)

  /** The file after the first `n` attempts, which stop when one finishes. */
  function Resumed(calls: seq<seq<Identity>>, attempts: seq<Attempt>, expected: set<Identity>, n: nat): Standing
    requires n <= |attempts| && forall s :: 0 <= s < |attempts| ==> |attempts[s].runner| == |calls|
  {
    if n == 0 then Standing([], false)
    else
      var before := Resumed(calls, attempts, expected, n - 1);
      if before.finished then before
      else
        var past := Sat(before.rows, calls, attempts[n - 1]);
        Standing(past.rows, past.stop.None? && Passes(past.rows, expected))
  }

  lemma {:induction false} ResumedDone(calls: seq<seq<Identity>>, attempts: seq<Attempt>, expected: set<Identity>, i: nat, n: nat)
    requires i <= n <= |attempts| && forall s :: 0 <= s < |attempts| ==> |attempts[s].runner| == |calls|
    requires Resumed(calls, attempts, expected, i).finished
    ensures Resumed(calls, attempts, expected, n) == Resumed(calls, attempts, expected, i)
  {
    if i < n {
      ResumedDone(calls, attempts, expected, i, n - 1);
    }
  }

  /** Nothing stands in the way of attempt `s` when it is reached. */
  ghost predicate ClearAt(calls: seq<seq<Identity>>, attempts: seq<Attempt>, expected: set<Identity>, s: nat)
    requires s < |attempts| && forall s :: 0 <= s < |attempts| ==> |attempts[s].runner| == |calls|
  {
    Unhindered(Resumed(calls, attempts, expected, s).rows, calls, attempts[s].runner, attempts[s].budget, expected)
  }

  /**
   Any number of interrupted sessions and resumptions of one matrix. The ledger never gains a duplicate, and
   once a session finishes every expected identity has exactly one row. One attempt that nothing stands in the
   way of is enough to finish, whatever became of those before it.
   */
  method Resume(calls: seq<seq<Identity>>, attempts: seq<Attempt>, expected: set<Identity>)
    returns (file: ResultsFile, finished: bool)
    requires forall s :: 0 <= s < |attempts| ==> |attempts[s].runner| == |calls|
    requires forall s, k :: 0 <= s < |attempts| && 0 <= k < |calls| ==> NoRepeats(attempts[s].runner[k])
    ensures Standing(file.rows, finished) == Resumed(calls, attempts, expected, |attempts|)
    ensures Distinct(Identities(file.rows))
    ensures finished ==> forall id :: Count(file.rows, id) == if id in expected then 1 else 0
    ensures finished ==> forall r :: r in file.rows ==> r.schema == 2 && r.sound
    ensures (exists s :: 0 <= s < |attempts| && ClearAt(calls, attempts, expected, s)) ==> finished
  {
    hide Distinct, NoRepeats, Count, SetOf, Unhindered, Half, Disjoint, Sat, Passes;
    file := new ResultsFile();
    finished := false;
    NothingRepeated();
    for s := 0 to |attempts|
      invariant fresh(file) && Distinct(Identities(file.rows))
      invariant Resumed(calls, attempts, expected, s) == Standing(file.rows, false)
      invariant forall r :: 0 <= r < s ==> !ClearAt(calls, attempts, expected, r)
    {
      var end, complete := Session(file, calls, attempts[s].runner, attempts[s].budget, expected);
      if end.Finished? {
        ExactlyOnce(file.rows, expected);
        ResumedDone(calls, attempts, expected, s + 1, |attempts|);
        return file, true;
      }
    }
  }

  lemma NothingRepeated()
    ensures Distinct(Identities([]))
  {
  }
}

/**
 The C interface: handles at reusable addresses, each with a token; writers that a failure poisons; and
 cursor states that belong to one incarnation of one handle.
 */
module CApi {
  import opened Options

  const OK := 0
  const GENERIC_ERROR := -1
  const INVALID_ARGUMENT := -2
  const WRONG_HANDLE := -3
  const WRITER_BUSY := -4
  const TIMESTAMP_ORDER := -5
  const IO_ERROR := -6
  const POISONED_WRITER := -7
  const STALE_SERIES := -8
  const PAGE_NOT_RAW := -9
  const TIMESTAMP_NOT_FOUND := -10
  const BORROWED_VIEW_UNAVAILABLE := -11

  datatype Error =
    | WouldBlock | TimestampNotIncreasing | InvalidBatch | InvalidSeriesName | InvalidCodec | InvalidArguments | SeriesNotFound
    | StaleSeriesHandle | PageNotRaw | TimestampNotFound | BorrowedViewUnavailable | WriterPoisoned
    | FileNotFound | AccessDenied | InputOutput | InvalidDatabase | FormatV6RequiresMigration | ChecksumMismatch
    | OtherError

  function StatusFromError(error: Error): (status: int)
    ensures status < 0
  {
    match error
    case WouldBlock => WRITER_BUSY
    case TimestampNotIncreasing => TIMESTAMP_ORDER
    case InvalidBatch | InvalidSeriesName | InvalidCodec | InvalidArguments | SeriesNotFound => INVALID_ARGUMENT
    case StaleSeriesHandle => STALE_SERIES
    case PageNotRaw => PAGE_NOT_RAW
    case TimestampNotFound => TIMESTAMP_NOT_FOUND
    case BorrowedViewUnavailable => BORROWED_VIEW_UNAVAILABLE
    case WriterPoisoned => POISONED_WRITER
    case FileNotFound | AccessDenied | InputOutput | InvalidDatabase | FormatV6RequiresMigration | ChecksumMismatch => IO_ERROR
    case OtherError => GENERIC_ERROR
  }

  function StatusOf(answer: Option<Error>): int {
    if answer.None? then OK else StatusFromError(answer.value)
  }

  /** Which answers give which number: the table of the interface, both ways. */
  lemma StatusMeans(answer: Option<Error>)
    ensures StatusOf(answer) == 0 <==> answer.None?
    ensures StatusOf(answer) == -1 <==> answer == Some(OtherError)
    ensures StatusOf(answer) == -2 <==>
            answer.Some? && answer.value in {InvalidBatch, InvalidSeriesName, InvalidCodec, InvalidArguments, SeriesNotFound}
    ensures StatusOf(answer) == -4 <==> answer == Some(WouldBlock)
    ensures StatusOf(answer) == -5 <==> answer == Some(TimestampNotIncreasing)
    ensures StatusOf(answer) == -6 <==>
            answer.Some? &&
            answer.value in {FileNotFound, AccessDenied, InputOutput, InvalidDatabase, FormatV6RequiresMigration, ChecksumMismatch}
    ensures StatusOf(answer) == -7 <==> answer == Some(WriterPoisoned)
    ensures StatusOf(answer) == -8 <==> answer == Some(StaleSeriesHandle)
    ensures StatusOf(answer) == -9 <==> answer == Some(PageNotRaw)
    ensures StatusOf(answer) == -10 <==> answer == Some(TimestampNotFound)
    ensures StatusOf(answer) == -11 <==> answer == Some(BorrowedViewUnavailable)
    ensures -11 <= StatusOf(answer) <= 0 && StatusOf(answer) != -3
  {
  }

  /** The refusals of the interface itself, by number. */
  lemma RefusalNumbers()
    ensures OK == 0 && GENERIC_ERROR == -1 && INVALID_ARGUMENT == -2 && WRONG_HANDLE == -3 && POISONED_WRITER == -7
  {
  }

  // ---- Tokens ----

  const TOKEN_COUNT: nat := 0x1_0000_0000_0000_0000

  /** The token of the handle made after `issued` others; the 64-bit counter starts at one and wraps. */
  function Token(issued: nat): (token: nat)
    ensures token < TOKEN_COUNT
  {
    (1 + issued) % TOKEN_COUNT
  }

  /** Issued tokens are all distinct exactly as long as no more than 2^64 handles were ever made. */
  lemma TokensDistinct(count: nat)
    ensures (forall i, j :: 0 <= i < j < count ==> Token(i) != Token(j)) <==> count <= TOKEN_COUNT
  {
    if count > TOKEN_COUNT {
      assert Token(0) == Token(TOKEN_COUNT);
    }
  }

  /** The first token is 1, each next one is one more, and after the largest 64-bit number comes 0. */
  lemma TokenNumbers(issued: nat)
    ensures Token(0) == 1
    ensures Token(issued + 1) == if Token(issued) == 0xffff_ffff_ffff_ffff then 0 else Token(issued) + 1
  {
  }

  // ---- What one appender or reader is asked to do ----

  datatype Event =
    | Prepared(error: Option<Error>)
    | Appended(error: Option<Error>)
    | Checkpointed(disk: bool, error: Option<Error>)
    | Refreshed(error: Option<Error>)
    | CursorMade(error: Option<Error>)
    | CursorAdvanced(creator: nat)
    | Closed(error: Option<Error>)
    | Aborted

  predicate Ends(e: Event) { e.Closed? || e.Aborted? }

  /** A failed checkpoint, or a failed append that is neither a timestamp order nor an argument error. */
  predicate Poisons(e: Event) {
    || (e.Checkpointed? && e.error.Some?)
    || (e.Appended? && e.error.Some? && StatusOf(e.error) != TIMESTAMP_ORDER && StatusOf(e.error) != INVALID_ARGUMENT)
  }

  /** An append poisons exactly on errors that are not the caller's doing; any failed checkpoint does; nothing else does. */
  lemma PoisonsExactly(e: Event)
    ensures Poisons(e) <==>
            || (&& e.Appended? && e.error.Some?
                && e.error.value !in {TimestampNotIncreasing, InvalidBatch, InvalidSeriesName, InvalidCodec, InvalidArguments, SeriesNotFound})
            || (e.Checkpointed? && e.error.Some?)
  {
    if e.Appended? {
      StatusMeans(e.error);
    }
  }

  /** `Opened` has been asked nothing yet. */
  datatype Life = Opened | Running(poisoned: bool) | Ended

  /** Nothing follows the end, only an abort follows poison, and an abort needs poison or an unused object. */
  function After(life: Life, e: Event): Option<Life> {
    match life
    case Opened => Some(if Ends(e) then Ended else Running(Poisons(e)))
    case Running(poisoned) =>
      if poisoned then if e.Aborted? then Some(Ended) else None
      else if e.Aborted? then None
      else if e.Closed? then Some(Ended)
      else Some(Running(Poisons(e)))
    case Ended => None
  }

  function Replay(log: seq<Event>): Option<Life> {
    if log == [] then Some(Opened)
    else
      var before := Replay(log[..|log| - 1]);
      if before.None? then None else After(before.value, log[|log| - 1])
  }

  /** After poison only an abort, nothing after the end, no abort without poison except of an unused object. */
  ghost predicate Orderly(log: seq<Event>) {
    && (forall i, j :: 0 <= i < j < |log| && Poisons(log[i]) ==> log[j].Aborted?)
    && (forall i :: 0 <= i < |log| - 1 ==> !Ends(log[i]))
    && (forall j :: 0 < j < |log| && log[j].Aborted? ==> Poisoned(log[..j]))
  }

  ghost predicate Poisoned(log: seq<Event>) {
    exists i :: 0 <= i < |log| && Poisons(log[i])
  }

  ghost predicate EndedOnce(log: seq<Event>) {
    log != [] && Ends(log[|log| - 1]) && forall i :: 0 <= i < |log| - 1 ==> !Ends(log[i])
  }

  /** Orderliness of a log in terms of its last event. */
  lemma OrderlyLast(before: seq<Event>, last: Event)
    ensures Poisoned(before + [last]) <==> Poisoned(before) || Poisons(last)
    ensures Orderly(before + [last]) <==>
              && Orderly(before)
              && (Poisoned(before) ==> last.Aborted?)
              && (before != [] ==> !Ends(before[|before| - 1]) && (last.Aborted? ==> Poisoned(before)))
  {
    var log, n := before + [last], |before|;
    assert forall i :: 0 <= i < n ==> before[i] == log[i];
    assert forall j :: 0 < j <= n ==> log[..j] == before[..j];
    assert before[..n] == before;
    assert log[n] == last;
    if Poisoned(before) {
      var i :| 0 <= i < n && Poisons(before[i]);
      assert Poisons(log[i]);
    }
  }

  /** What the automaton's answer says of the log it read. */
  ghost predicate Tells(log: seq<Event>, life: Option<Life>) {
    && (life.Some? <==> Orderly(log))
    && (life == Some(Ended) <==> Orderly(log) && EndedOnce(log))
    && (life.Some? && life.value.Running? ==> (life.value.poisoned <==> Poisoned(log)))
    && (life == Some(Opened) <==> log == [])
  }

  lemma TellsNext(before: seq<Event>, life: Option<Life>, last: Event)
    requires Tells(before, life)
    ensures Tells(before + [last], if life.None? then None else After(life.value, last))
  {
    hide Orderly, Poisoned, EndedOnce, Poisons;
    NothingOrderly();
    OrderlyLast(before, last);
    if Orderly(before) {
      OrderlyEnds(before);
    }
    if Orderly(before + [last]) {
      OrderlyEnds(before + [last]);
    }
  }

  /** The automaton accepts exactly the orderly logs, and its state tells whether they are poisoned or ended. */
  lemma ReplayMeans(log: seq<Event>)
    ensures Replay(log).Some? <==> Orderly(log)
    ensures Replay(log) == Some(Ended) <==> Orderly(log) && EndedOnce(log)
    ensures Replay(log).Some? && Replay(log).value.Running? ==> (Replay(log).value.poisoned <==> Poisoned(log))
    ensures Replay(log) == Some(Opened) <==> log == []
  {
    ReplayTells(log);
  }

  lemma {:induction false} ReplayTells(log: seq<Event>)
    ensures Tells(log, Replay(log))
  {
    hide Orderly, Poisoned, EndedOnce, Poisons;
    NothingOrderly();
    if log != [] {
      hide Tells;
      var n := |log| - 1;
      ReplayTells(log[..n]);
      TellsNext(log[..n], Replay(log[..n]), log[n]);
      assert log[..n] + [log[n]] == log;
    }
  }

  lemma NothingOrderly()
    ensures Orderly([]) && !Poisoned([]) && !EndedOnce([])
  {
  }

  lemma OrderlyEnds(log: seq<Event>)
    requires Orderly(log)
    ensures EndedOnce(log) <==> log != [] && Ends(log[|log| - 1])
  {
  }

  lemma ReplayNext(log: seq<Event>, e: Event)
    requires Replay(log).Some?
    ensures Replay(log + [e]) == After(Replay(log).value, e)
  {
    assert (log + [e])[..|log|] == log;
  }

  // ---- The library's state ----

  type Address = nat

  datatype HandleState = Writer(poisoned: bool) | Reader

  /** `native` numbers the appender or reader inside; every one made is numbered differently. */
  datatype Handle = Handle(token: nat, native: nat, state: HandleState)

  datatype CursorState = CursorState(owner: Address, ownerToken: nat)

  /** A pointer and a length; no bytes at all are refused like a null pointer. */
  datatype Bytes = Bytes(present: bool, length: nat) {
    predicate Given() { length > 0 && present }
  }

  lemma GivenMeans(present: bool, length: nat)
    ensures Bytes(present, length).Given() <==> present && length != 0
  {
  }

  /** Native objects asked for so far, as long as their handle lives and when it is gone. */
  ghost predicate LogsOk(handles: map<Address, Handle>, logs: seq<seq<Event>>) {
    && (forall a :: a in handles ==> handles[a].native < |logs| && HandleOk(handles[a], logs[handles[a].native]))
    && (forall a, b :: a in handles && b in handles && a != b ==> handles[a].native != handles[b].native)
    && (forall n :: 0 <= n < |logs| ==> Replay(logs[n]) == Some(Ended) || Held(handles, n))
  }

  ghost predicate Held(handles: map<Address, Handle>, native: nat) {
    exists a :: a in handles && handles[a].native == native
  }

  ghost predicate HandleOk(handle: Handle, log: seq<Event>) {
    && Replay(log).Some?
    && (Replay(log).value == Opened || Replay(log).value == Running(handle.state.Writer? && handle.state.poisoned))
    && (log == [] ==> handle.state != Writer(true))
  }

  /** Every token ever issued, by the native object it went to; live handles and cursors carry theirs. */
  ghost predicate TokensOk(handles: map<Address, Handle>, cursors: map<Address, CursorState>, creators: map<Address, nat>,
                           owners: seq<nat>, orders: map<nat, nat>, natives: nat) {
    && (forall n :: n in orders ==> n < natives && orders[n] < |owners| && owners[orders[n]] == n)
    && (forall a :: a in handles ==> handles[a].native in orders && handles[a].token == Token(orders[handles[a].native]))
    && (forall c :: c in cursors <==> c in creators)
    && (forall c :: c in cursors ==> creators[c] in orders && cursors[c].ownerToken == Token(orders[creators[c]]))
  }

  /** A cursor only ever advanced on the native reader that made it. */
  ghost predicate OwnCursors(logs: seq<seq<Event>>) {
    forall n, i :: 0 <= n < |logs| && 0 <= i < |logs[n]| && logs[n][i].CursorAdvanced? ==> logs[n][i].creator == n
  }

  lemma HandleNext(handle: Handle, log: seq<Event>, e: Event, now: HandleState)
    requires HandleOk(handle, log) && !Ends(e) && handle.state != Writer(true)
    requires handle.state.Writer? == now.Writer? && (Poisons(e) <==> now == Writer(true))
    ensures HandleOk(handle.(state := now), log + [e])
  {
    hide Replay;
    ReplayNext(log, e);
    ReplayMeans(log + [e]);
  }

  lemma HeldStill(handles: map<Address, Handle>, now: map<Address, Handle>, a: Address, m: nat)
    requires Held(handles, m) && a in handles && handles[a].native != m
    requires forall b :: b in handles && b != a ==> b in now && now[b] == handles[b]
    ensures Held(now, m)
  {
    var b :| b in handles && handles[b].native == m;
    assert now[b].native == m;
  }

  lemma LogNext(handles: map<Address, Handle>, logs: seq<seq<Event>>, a: Address, e: Event, now: HandleState)
    requires LogsOk(handles, logs) && a in handles && !Ends(e)
    requires handles[a].state != Writer(true) && handles[a].state.Writer? == now.Writer?
    requires Poisons(e) <==> now == Writer(true)
    ensures LogsOk(handles[a := handles[a].(state := now)], logs[handles[a].native := logs[handles[a].native] + [e]])
  {
    hide Replay, HandleOk, Held;
    var n := handles[a].native;
    HandleNext(handles[a], logs[n], e, now);
    var handles' := handles[a := handles[a].(state := now)];
    forall m | 0 <= m < |logs| && m != n && Replay(logs[m]) != Some(Ended)
      ensures Held(handles', m)
    {
      HeldStill(handles, handles', a, m);
    }
    assert Held(handles', n) by {
      Holds(handles', a);
    }
  }

  lemma Holds(handles: map<Address, Handle>, a: Address)
    requires a in handles
    ensures Held(handles, handles[a].native)
  {
  }

  lemma LogEnds(handles: map<Address, Handle>, logs: seq<seq<Event>>, a: Address, e: Event)
    requires LogsOk(handles, logs) && a in handles
    requires if handles[a].state == Writer(true) then e == Aborted else e.Closed?
    ensures LogsOk(handles - {a}, logs[handles[a].native := logs[handles[a].native] + [e]])
  {
    hide Replay, HandleOk, Held;
    var n := handles[a].native;
    HandleEnds(handles[a], logs[n], e);
    forall m | 0 <= m < |logs| && m != n && Replay(logs[m]) != Some(Ended)
      ensures Held(handles - {a}, m)
    {
      HeldStill(handles, handles - {a}, a, m);
    }
  }

  lemma HandleEnds(handle: Handle, log: seq<Event>, e: Event)
    requires HandleOk(handle, log)
    requires if handle.state == Writer(true) then e == Aborted else e.Closed?
    ensures Replay(log + [e]) == Some(Ended)
  {
    hide Replay;
    ReplayNext(log, e);
    ReplayMeans(log);
  }

  lemma LogOpens(handles: map<Address, Handle>, logs: seq<seq<Event>>, a: Address, handle: Handle)
    requires LogsOk(handles, logs) && a !in handles && handle.native == |logs| && handle.state != Writer(true)
    ensures LogsOk(handles[a := handle], logs + [[]])
  {
    hide Replay;
    ReplayMeans([]);
    var handles', logs' := handles[a := handle], logs + [[]];
    forall m | 0 <= m < |logs'| && Replay(logs'[m]) != Some(Ended)
      ensures Held(handles', m)
    {
      if m < |logs| {
        assert Held(handles, m);
        var b :| b in handles && handles[b].native == m;
        assert handles'[b].native == m;
      } else {
        assert handles'[a].native == m;
      }
    }
  }

  /** An object opened for which no handle could be made is ended at once. */
  lemma LogDropped(handles: map<Address, Handle>, logs: seq<seq<Event>>, e: Event)
    requires LogsOk(handles, logs) && Ends(e)
    ensures LogsOk(handles, logs + [[e]])
  {
    hide Replay;
    ReplayMeans([]);
    ReplayNext([], e);
    assert [] + [e] == [e];
  }

  lemma OwnNext(logs: seq<seq<Event>>, n: nat, e: Event)
    requires OwnCursors(logs) && n < |logs| && (e.CursorAdvanced? ==> e.creator == n)
    ensures OwnCursors(logs[n := logs[n] + [e]])
  {
  }

  lemma TokenNext(issued: nat)
    ensures Token(issued + 1) == (Token(issued) + 1) % TOKEN_COUNT
  {
  }

  lemma TokenIssued(handles: map<Address, Handle>, cursors: map<Address, CursorState>, creators: map<Address, nat>,
                    owners: seq<nat>, orders: map<nat, nat>, natives: nat, a: Address, handle: Handle)
    requires TokensOk(handles, cursors, creators, owners, orders, natives)
    requires a !in handles && handle.native == natives && handle.token == Token(|owners|)
    ensures TokensOk(handles[a := handle], cursors, creators, owners + [natives], orders[natives := |owners|], natives + 1)
  {
    hide Token;
  }

  lemma TokensKept(handles: map<Address, Handle>, cursors: map<Address, CursorState>, creators: map<Address, nat>,
                   owners: seq<nat>, orders: map<nat, nat>, natives: nat, a: Address, state: HandleState)
    requires TokensOk(handles, cursors, creators, owners, orders, natives)
    ensures a in handles ==> TokensOk(handles[a := handles[a].(state := state)], cursors, creators, owners, orders, natives)
    ensures TokensOk(handles - {a}, cursors, creators, owners, orders, natives)
    ensures TokensOk(handles, cursors - {a}, creators - {a}, owners, orders, natives)
    ensures TokensOk(handles, cursors, creators, owners, orders, natives + 1)
  {
    hide Token;
  }

  /** Matching tokens mean the same incarnation, since no two were issued alike. */
  lemma SameIncarnation(handles: map<Address, Handle>, cursors: map<Address, CursorState>, creators: map<Address, nat>,
                        owners: seq<nat>, orders: map<nat, nat>, natives: nat, a: Address, c: Address)
    requires TokensOk(handles, cursors, creators, owners, orders, natives) && |owners| <= TOKEN_COUNT
    requires a in handles && c in cursors && cursors[c].ownerToken == handles[a].token
    ensures creators[c] == handles[a].native
  {
    TokensDistinct(|owners|);
    var i, j := orders[creators[c]], orders[handles[a].native];
    assert Token(i) == Token(j);
    assert i == j;
  }

  /** All that a caller's requests can change. */
  datatype World = World(
    handles: map<Address, Handle>,
    cursors: map<Address, CursorState>,
    creators: map<Address, nat>,
    logs: seq<seq<Event>>,
    owners: seq<nat>)

  class Library {
    var handles: map<Address, Handle>
    var cursors: map<Address, CursorState>
    ghost var logs: seq<seq<Event>>
    ghost var creators: map<Address, nat>
    ghost var owners: seq<nat>
    ghost var orders: map<nat, nat>
    var natives: nat
    /** The next token: a 64-bit counter. */
    var nextToken: nat

    ghost predicate Valid()
      reads this
    {
      && natives == |logs| && LogsOk(handles, logs)
      && TokensOk(handles, cursors, creators, owners, orders, natives)
      && nextToken == Token(|owners|)
      && (|owners| <= TOKEN_COUNT ==> OwnCursors(logs))
    }

    constructor ()
      ensures Valid() && handles == map[] && cursors == map[] && creators == map[] && logs == [] && owners == []
    {
      handles, cursors, natives, nextToken := map[], map[], 0, 1;
      logs, creators, owners, orders := [], map[], [], map[];
    }

    ghost function State(): World
      reads this
    {
      World(handles, cursors, creators, logs, owners)
    }

    /** Pointers are null or those of live handles; passing any other is the caller's error. */
    ghost predicate Points(pointer: Option<Address>)
      reads this
    {
      pointer.Some? ==> pointer.value in handles
    }

    predicate IsWriter(pointer: Option<Address>)
      reads this
      requires pointer.Some? ==> pointer.value in handles
    {
      pointer.Some? && handles[pointer.value].state.Writer?
    }

    predicate IsReader(pointer: Option<Address>)
      reads this
      requires pointer.Some? ==> pointer.value in handles
    {
      pointer.Some? && handles[pointer.value].state.Reader?
    }

    /** The call reaches the appender or reader: one more event in its log, and no other log changes. */
    ghost function Logged(a: Address, e: Event): seq<seq<Event>>
      reads this
      requires a in handles && handles[a].native < |logs|
    {
      logs[handles[a].native := logs[handles[a].native] + [e]]
    }

    method Ask(a: Address, ghost e: Event, now: HandleState)
      requires Valid() && a in handles && !Ends(e)
      requires handles[a].state != Writer(true) && handles[a].state.Writer? == now.Writer? && (Poisons(e) <==> now == Writer(true))
      requires e.CursorAdvanced? && |owners| <= TOKEN_COUNT ==> e.creator == handles[a].native
      modifies this`handles, this`logs
      ensures Valid() && handles == old(handles)[a := old(handles[a]).(state := now)] && logs == old(Logged(a, e))
    {
      hide LogsOk, TokensOk, OwnCursors, Token;
      LogNext(handles, logs, a, e, now);
      TokensKept(handles, cursors, creators, owners, orders, natives, a, now);
      HasLog(handles, logs, a);
      if |owners| <= TOKEN_COUNT {
        OwnNext(logs, handles[a].native, e);
      }
      logs := Logged(a, e);
      handles := handles[a := handles[a].(state := now)];
    }

    /** Give a new handle the next token. */
    method Issue(a: Address, state: HandleState)
      requires Valid() && a !in handles && state != Writer(true)
      modifies this`handles, this`logs, this`owners, this`orders, this`natives, this`nextToken
      ensures Valid() && logs == old(logs) + [[]]
      ensures handles == old(handles)[a := Handle(old(nextToken), old(natives), state)]
      ensures owners == old(owners) + [old(natives)]
    {
      hide LogsOk, TokensOk, OwnCursors, Token;
      TokenNext(|owners|);
      var handle := Handle(nextToken, natives, state);
      LogOpens(handles, logs, a, handle);
      TokenIssued(handles, cursors, creators, owners, orders, natives, a, handle);
      OwnOpens(logs, []);
      handles, nextToken := handles[a := handle], (nextToken + 1) % TOKEN_COUNT;
      logs, owners, orders := logs + [[]], owners + [natives], orders[natives := |owners|];
      natives := natives + 1;
    }

    /** End an object no handle could be made for. */
    method Drop(ghost e: Event)
      requires Valid() && Ends(e)
      modifies this`logs, this`natives
      ensures Valid() && logs == old(logs) + [[e]]
    {
      hide LogsOk, TokensOk, OwnCursors, Token;
      LogDropped(handles, logs, e);
      TokensKept(handles, cursors, creators, owners, orders, natives, 0, Reader);
      OwnOpens(logs, [e]);
      logs := logs + [[e]];
      natives := natives + 1;
    }

    /** `place` is where the allocator puts the handle, if it can. */
    method OpenWriter(out: bool, path: Bytes, codec: int, answer: Option<Error>, place: Option<Address>)
      returns (status: int, handle: Option<Address>)
      requires Valid() && (place.Some? ==> place.value !in handles)
      modifies this`handles, this`logs, this`owners, this`orders, this`natives, this`nextToken
      ensures Valid()
      ensures status == if !out || !path.Given() || codec !in {0, 1} then INVALID_ARGUMENT
                        else if answer.Some? then StatusOf(answer)
                        else if place.None? then GENERIC_ERROR else OK
      ensures handle == if status == OK then place else None
      ensures status == OK ==>
                handles == old(handles)[place.value := Handle(Token(|old(owners)|), |old(logs)|, Writer(false))]
                && logs == old(logs) + [[]]
      ensures status == OK ==> owners == old(owners) + [|old(logs)|]
      ensures status != OK ==> handles == old(handles) && owners == old(owners)
      ensures status != OK ==> logs == old(logs) + if out && path.Given() && codec in {0, 1} && answer.None? then [[Aborted]] else []
    {
      if !out || !path.Given() || codec !in {0, 1} {
        return INVALID_ARGUMENT, None;
      }
      if answer.Some? {
        return StatusFromError(answer.value), None;
      }
      if place.None? {
        Drop(Aborted);
        return GENERIC_ERROR, None;
      }
      Issue(place.value, Writer(false));
      return OK, place;
    }

    method OpenReader(out: bool, path: Bytes, answer: Option<Error>, place: Option<Address>)
      returns (status: int, handle: Option<Address>)
      requires Valid() && (place.Some? ==> place.value !in handles)
      modifies this`handles, this`logs, this`owners, this`orders, this`natives, this`nextToken
      ensures Valid()
      ensures status == if !out || !path.Given() then INVALID_ARGUMENT
                        else if answer.Some? then StatusOf(answer)
                        else if place.None? then GENERIC_ERROR else OK
      ensures handle == if status == OK then place else None
      ensures status == OK ==>
                handles == old(handles)[place.value := Handle(Token(|old(owners)|), |old(logs)|, Reader)]
                && logs == old(logs) + [[]]
      ensures status == OK ==> owners == old(owners) + [|old(logs)|]
      ensures status != OK ==> handles == old(handles) && owners == old(owners)
      ensures status != OK ==> logs == old(logs) + if out && path.Given() && answer.None? then [[Closed(None)]] else []
    {
      if !out || !path.Given() {
        return INVALID_ARGUMENT, None;
      }
      if answer.Some? {
        return StatusFromError(answer.value), None;
      }
      if place.None? {
        Drop(Closed(None));
        return GENERIC_ERROR, None;
      }
      Issue(place.value, Reader);
      return OK, place;
    }

    /** Poison is checked before the buffers; only an append that got through can poison. */
    method Append(pointer: Option<Address>, series: Bytes, timestamps: bool, values: bool, count: nat, answer: Option<Error>)
      returns (status: int)
      requires Valid() && Points(pointer)
      modifies this`handles, this`logs
      ensures Valid()
      ensures var reached := old(IsWriter(pointer)) && series.Given() && !old(handles[pointer.value].state.poisoned) && (count > 0 ==> timestamps && values);
              && status == (if pointer.None? || !series.Given() then INVALID_ARGUMENT
                            else if !old(IsWriter(pointer)) then WRONG_HANDLE
                            else if old(handles[pointer.value].state.poisoned) then POISONED_WRITER
                            else if !reached then INVALID_ARGUMENT else StatusOf(answer))
              && (reached ==> logs == old(Logged(pointer.value, Appended(answer)))
                              && handles == old(handles)[pointer.value := old(handles[pointer.value]).(state := Writer(Poisons(Appended(answer))))])
              && (reached ==> handles[pointer.value].state ==
                              Writer(answer.Some? && answer.value !in {TimestampNotIncreasing, InvalidBatch, InvalidSeriesName,
                                                                      InvalidCodec, InvalidArguments, SeriesNotFound}))
              && (!reached ==> logs == old(logs) && handles == old(handles))
    {
      hide LogsOk, TokensOk, OwnCursors, Token;
      PoisonsExactly(Appended(answer));
      if pointer.None? || !series.Given() {
        return INVALID_ARGUMENT;
      }
      var a := pointer.value;
      if handles[a].state.Reader? {
        return WRONG_HANDLE;
      }
      if handles[a].state.poisoned {
        return POISONED_WRITER;
      }
      if count > 0 && (!timestamps || !values) {
        return INVALID_ARGUMENT;
      }
      HasLog(handles, logs, a);
      status := StatusOf(answer);
      var poisoned := answer.Some? && status != TIMESTAMP_ORDER && status != INVALID_ARGUMENT;
      Ask(a, Appended(answer), Writer(poisoned));
    }

    method PrepareAppend(pointer: Option<Address>, series: Bytes, answer: Option<Error>) returns (status: int)
      requires Valid() && Points(pointer)
      modifies this`handles, this`logs
      ensures Valid() && handles == old(handles)
      ensures var reached := old(IsWriter(pointer)) && !old(handles[pointer.value].state.poisoned) && series.Given();
              && status == (if pointer.None? then INVALID_ARGUMENT
                            else if !old(IsWriter(pointer)) then WRONG_HANDLE
                            else if old(handles[pointer.value].state.poisoned) then POISONED_WRITER
                            else if !reached then INVALID_ARGUMENT else StatusOf(answer))
              && logs == if reached then old(Logged(pointer.value, Prepared(answer))) else old(logs)
    {
      hide LogsOk, TokensOk, OwnCursors, Token;
      if pointer.None? {
        return INVALID_ARGUMENT;
      }
      var a := pointer.value;
      if handles[a].state.Reader? {
        return WRONG_HANDLE;
      }
      if handles[a].state.poisoned {
        return POISONED_WRITER;
      }
      if !series.Given() {
        return INVALID_ARGUMENT;
      }
      HasLog(handles, logs, a);
      Ask(a, Prepared(answer), Writer(false));
      status := StatusOf(answer);
    }

    method CheckpointWithDurability(pointer: Option<Address>, disk: bool, answer: Option<Error>) returns (status: int)
      requires Valid() && Points(pointer)
      modifies this`handles, this`logs
      ensures Valid()
      ensures var reached := old(IsWriter(pointer)) && !old(handles[pointer.value].state.poisoned);
              && status == (if pointer.None? then INVALID_ARGUMENT
                            else if !old(IsWriter(pointer)) then WRONG_HANDLE
                            else if !reached then POISONED_WRITER else StatusOf(answer))
              && (reached ==> logs == old(Logged(pointer.value, Checkpointed(disk, answer)))
                              && handles == old(handles)[pointer.value := old(handles[pointer.value]).(state := Writer(answer.Some?))])
              && (!reached ==> logs == old(logs) && handles == old(handles))
    {
      hide LogsOk, TokensOk, OwnCursors, Token;
      if pointer.None? {
        return INVALID_ARGUMENT;
      }
      var a := pointer.value;
      if handles[a].state.Reader? {
        return WRONG_HANDLE;
      }
      if handles[a].state.poisoned {
        return POISONED_WRITER;
      }
      HasLog(handles, logs, a);
      Ask(a, Checkpointed(disk, answer), Writer(answer.Some?));
      status := StatusOf(answer);
    }

    method Refresh(pointer: Option<Address>, changed: bool, answer: Option<Error>) returns (status: int)
      requires Valid() && Points(pointer)
      modifies this`handles, this`logs
      ensures Valid() && handles == old(handles)
      ensures var reached := changed && old(IsReader(pointer));
              && status == (if !changed || pointer.None? then INVALID_ARGUMENT else if !reached then WRONG_HANDLE else StatusOf(answer))
              && logs == if reached then old(Logged(pointer.value, Refreshed(answer))) else old(logs)
    {
      hide LogsOk, TokensOk, OwnCursors, Token;
      if !changed || pointer.None? {
        return INVALID_ARGUMENT;
      }
      var a := pointer.value;
      if handles[a].state.Writer? {
        return WRONG_HANDLE;
      }
      HasLog(handles, logs, a);
      Ask(a, Refreshed(answer), Reader);
      status := StatusOf(answer);
    }

    method CursorStateCreate(pointer: Option<Address>, series: Bytes, out: bool, answer: Option<Error>, place: Option<Address>)
      returns (status: int, cursor: Option<Address>)
      requires Valid() && Points(pointer) && (place.Some? ==> place.value !in cursors)
      modifies this`handles, this`logs, this`cursors, this`creators
      ensures Valid() && handles == old(handles)
      ensures status == if !out || pointer.None? then INVALID_ARGUMENT
                        else if !old(IsReader(pointer)) then WRONG_HANDLE
                        else if !series.Given() then INVALID_ARGUMENT
                        else if answer.Some? then StatusOf(answer)
                        else if place.None? then GENERIC_ERROR else OK
      ensures cursor == if status == OK then place else None
      ensures logs == if out && old(IsReader(pointer)) && series.Given() then old(Logged(pointer.value, CursorMade(answer))) else old(logs)
      ensures cursor.Some? ==>
                && cursors == old(cursors)[cursor.value := CursorState(pointer.value, handles[pointer.value].token)]
                && creators == old(creators)[cursor.value := handles[pointer.value].native]
      ensures cursor.None? ==> cursors == old(cursors) && creators == old(creators)
    {
      hide LogsOk, TokensOk, OwnCursors, Token;
      if !out || pointer.None? {
        return INVALID_ARGUMENT, None;
      }
      var a := pointer.value;
      if handles[a].state.Writer? {
        return WRONG_HANDLE, None;
      }
      if !series.Given() {
        return INVALID_ARGUMENT, None;
      }
      HasLog(handles, logs, a);
      Ask(a, CursorMade(answer), Reader);
      if answer.Some? {
        return StatusFromError(answer.value), None;
      }
      if place.None? {
        return GENERIC_ERROR, None;
      }
      CursorIssued(handles, cursors, creators, owners, orders, natives, a, place.value);
      cursors := cursors[place.value := CursorState(a, handles[a].token)];
      creators := creators[place.value := handles[a].native];
      return OK, place;
    }

    /** Only the handle the cursor was made on, by address and token, may advance it. */
    method CursorStateNext(pointer: Option<Address>, cursor: Option<Address>, outputs: bool, buffers: bool, capacity: nat, answer: Option<Error>)
      returns (status: int)
      requires Valid() && Points(pointer) && (cursor.Some? ==> cursor.value in cursors)
      modifies this`handles, this`logs
      ensures Valid() && handles == old(handles)
      ensures var owned := pointer.Some? && cursor.Some? && cursors[cursor.value] == CursorState(pointer.value, handles[pointer.value].token);
              var reached := owned && outputs && capacity > 0 && handles[pointer.value].state.Reader? && buffers;
              && (status == if cursor.None? || !outputs || capacity == 0 || pointer.None? then INVALID_ARGUMENT
                            else if !owned || handles[pointer.value].state.Writer? then WRONG_HANDLE
                            else if !buffers then INVALID_ARGUMENT
                            else StatusOf(answer))
              && logs == if reached then old(Logged(pointer.value, CursorAdvanced(creators[cursor.value]))) else old(logs)
      ensures logs != old(logs) && |owners| <= TOKEN_COUNT ==> creators[cursor.value] == handles[pointer.value].native
    {
      hide LogsOk, TokensOk, OwnCursors, Token;
      if pointer.Some? {
        HasLog(handles, logs, pointer.value);
      }
      if cursor.Some? {
        HasCreator(handles, cursors, creators, owners, orders, natives, cursor.value);
      }
      if cursor.None? || !outputs || capacity == 0 || pointer.None? {
        return INVALID_ARGUMENT;
      }
      var a, c := pointer.value, cursor.value;
      if cursors[c].owner != a || cursors[c].ownerToken != handles[a].token {
        return WRONG_HANDLE;
      }
      if handles[a].state.Writer? {
        return WRONG_HANDLE;
      }
      if !buffers {
        return INVALID_ARGUMENT;
      }
      if |owners| <= TOKEN_COUNT {
        SameIncarnation(handles, cursors, creators, owners, orders, natives, a, c);
      }
      Ask(a, CursorAdvanced(creators[c]), Reader);
      status := StatusOf(answer);
    }

    method CursorStateDestroy(cursor: Option<Address>)
      requires Valid() && (cursor.Some? ==> cursor.value in cursors)
      modifies this`cursors, this`creators
      ensures Valid()
      ensures cursors == if cursor.None? then old(cursors) else old(cursors) - {cursor.value}
      ensures creators == if cursor.None? then old(creators) else old(creators) - {cursor.value}
    {
      hide LogsOk, TokensOk, OwnCursors, Token;
      if cursor.Some? {
        TokensKept(handles, cursors, creators, owners, orders, natives, cursor.value, Reader);
        cursors, creators := cursors - {cursor.value}, creators - {cursor.value};
      }
    }

    /** The handle goes either way; a poisoned writer is aborted, not published. */
    method Close(pointer: Option<Address>, answer: Option<Error>) returns (status: int)
      requires Valid() && Points(pointer)
      modifies this`handles, this`logs
      ensures Valid()
      ensures pointer.None? ==> status == INVALID_ARGUMENT && handles == old(handles) && logs == old(logs)
      ensures pointer.Some? ==>
                var handle := old(handles[pointer.value]);
                && handles == old(handles) - {pointer.value}
                && (if handle.state == Writer(true) then status == POISONED_WRITER && logs == old(Logged(pointer.value, Aborted))
                    else if handle.state.Writer? then status == StatusOf(answer) && logs == old(Logged(pointer.value, Closed(answer)))
                    else status == OK && logs == old(Logged(pointer.value, Closed(None))))
    {
      hide LogsOk, TokensOk, OwnCursors, Token;
      if pointer.None? {
        return INVALID_ARGUMENT;
      }
      var a := pointer.value;
      HasLog(handles, logs, a);
      status := OK;
      ghost var e := Closed(None);
      match handles[a].state {
        case Writer(poisoned) =>
          if poisoned {
            e, status := Aborted, POISONED_WRITER;
          } else {
            e, status := Closed(answer), StatusOf(answer);
          }
        case Reader =>
      }
      LogEnds(handles, logs, a, e);
      TokensKept(handles, cursors, creators, owners, orders, natives, a, Reader);
      if |owners| <= TOKEN_COUNT {
        OwnNext(logs, handles[a].native, e);
      }
      logs := Logged(a, e);
      handles := handles - {a};
    }
  }

  lemma HasLog(handles: map<Address, Handle>, logs: seq<seq<Event>>, a: Address)
    requires LogsOk(handles, logs) && a in handles
    ensures handles[a].native < |logs|
  {
  }

  lemma HasCreator(handles: map<Address, Handle>, cursors: map<Address, CursorState>, creators: map<Address, nat>,
                   owners: seq<nat>, orders: map<nat, nat>, natives: nat, c: Address)
    requires TokensOk(handles, cursors, creators, owners, orders, natives) && c in cursors
    ensures c in creators
  {
  }

  lemma CursorIssued(handles: map<Address, Handle>, cursors: map<Address, CursorState>, creators: map<Address, nat>,
                     owners: seq<nat>, orders: map<nat, nat>, natives: nat, a: Address, c: Address)
    requires TokensOk(handles, cursors, creators, owners, orders, natives) && a in handles
    ensures TokensOk(handles, cursors[c := CursorState(a, handles[a].token)], creators[c := handles[a].native], owners, orders, natives)
  {
    hide Token;
  }

  lemma OwnOpens(logs: seq<seq<Event>>, log: seq<Event>)
    requires log == [] || (|log| == 1 && Ends(log[0]))
    ensures OwnCursors(logs) ==> OwnCursors(logs + [log])
  {
  }

  // ---- Whole runs ----

  datatype Request =
    | DoOpenWriter(path: Bytes, codec: int, answer: Option<Error>, place: Option<Address>)
    | DoOpenReader(path: Bytes, answer: Option<Error>, place: Option<Address>)
    | DoAppend(pointer: Option<Address>, series: Bytes, timestamps: bool, values: bool, count: nat, answer: Option<Error>)
    | DoPrepare(pointer: Option<Address>, series: Bytes, answer: Option<Error>)
    | DoCheckpoint(pointer: Option<Address>, disk: bool, answer: Option<Error>)
    | DoRefresh(pointer: Option<Address>, answer: Option<Error>)
    | DoCursorCreate(pointer: Option<Address>, series: Bytes, answer: Option<Error>, place: Option<Address>)
    | DoCursorNext(pointer: Option<Address>, cursor: Option<Address>, buffers: bool, capacity: nat, answer: Option<Error>)
    | DoCursorDestroy(cursor: Option<Address>)
    | DoClose(pointer: Option<Address>, answer: Option<Error>)

  /** Callers pass live pointers, and the allocator gives unused addresses. */
  predicate Permitted(request: Request, handles: map<Address, Handle>, cursors: map<Address, CursorState>) {
    match request
    case DoOpenWriter(_, _, _, place) => place.Some? ==> place.value !in handles
    case DoOpenReader(_, _, place) => place.Some? ==> place.value !in handles
    case DoCursorCreate(pointer, _, _, place) =>
      (pointer.Some? ==> pointer.value in handles) && (place.Some? ==> place.value !in cursors)
    case DoCursorNext(pointer, cursor, _, _, _) =>
      (pointer.Some? ==> pointer.value in handles) && (cursor.Some? ==> cursor.value in cursors)
    case DoCursorDestroy(cursor) => cursor.Some? ==> cursor.value in cursors
    case _ => request.pointer.Some? ==> request.pointer.value in handles
  }

  ghost predicate LiveOrNull(pointer: Option<Address>, live: set<Address>) { pointer.None? || pointer.value in live }

  ghost predicate UnusedOrNone(place: Option<Address>, used: set<Address>) { place.None? || place.value !in used }

  /** The caller's obligations: every handle and cursor passed is null or live, and every place the allocator gives is unused. */
  ghost predicate Obeys(request: Request, handles: set<Address>, cursors: set<Address>) {
    && (request.DoAppend? || request.DoPrepare? || request.DoCheckpoint? ==> LiveOrNull(request.pointer, handles))
    && (request.DoRefresh? || request.DoCursorCreate? || request.DoCursorNext? || request.DoClose? ==> LiveOrNull(request.pointer, handles))
    && (request.DoCursorNext? || request.DoCursorDestroy? ==> LiveOrNull(request.cursor, cursors))
    && (request.DoOpenWriter? || request.DoOpenReader? ==> UnusedOrNone(request.place, handles))
    && (request.DoCursorCreate? ==> UnusedOrNone(request.place, cursors))
  }

  lemma PermittedMeans(request: Request, handles: map<Address, Handle>, cursors: map<Address, CursorState>)
    ensures Permitted(request, handles, cursors) <==> Obeys(request, handles.Keys, cursors.Keys)
  {
  }

  // ---- What a request does, told on values ----

  /** One more event in the log of the object behind the handle. */
  function Asked(w: World, a: Address, e: Event): World {
    if a in w.handles && w.handles[a].native < |w.logs| then
      var n := w.handles[a].native;
      w.(logs := w.logs[n := w.logs[n] + [e]])
    else w
  }

  function Made(w: World, a: Address, state: HandleState): World {
    w.(handles := w.handles[a := Handle(Token(|w.owners|), |w.logs|, state)], logs := w.logs + [[]], owners := w.owners + [|w.logs|])
  }

  /** An object opened for which no handle could be made. */
  function Unheld(w: World, e: Event): World { w.(logs := w.logs + [[e]]) }

  /** The last call an object gets when its handle is closed. */
  function EndOf(state: HandleState, answer: Option<Error>): Event {
    if state == Writer(true) then Aborted else if state.Writer? then Closed(answer) else Closed(None)
  }

  predicate WriterAt(w: World, pointer: Option<Address>) {
    pointer.Some? && pointer.value in w.handles && w.handles[pointer.value].state.Writer?
  }

  predicate ReaderAt(w: World, pointer: Option<Address>) {
    pointer.Some? && pointer.value in w.handles && w.handles[pointer.value].state.Reader?
  }

  predicate PoisonedAt(w: World, pointer: Option<Address>) {
    WriterAt(w, pointer) && w.handles[pointer.value].state.poisoned
  }

  function SetState(w: World, a: Address, state: HandleState): World {
    if a in w.handles then w.(handles := w.handles[a := w.handles[a].(state := state)]) else w
  }

  datatype Reply = Reply(world: World, status: int)

  function Appends(w: World, pointer: Option<Address>, series: Bytes, timestamps: bool, values: bool, count: nat, answer: Option<Error>): Reply {
    if pointer.None? || !series.Given() then Reply(w, INVALID_ARGUMENT)
    else if !WriterAt(w, pointer) then Reply(w, WRONG_HANDLE)
    else if PoisonedAt(w, pointer) then Reply(w, POISONED_WRITER)
    else if count > 0 && !(timestamps && values) then Reply(w, INVALID_ARGUMENT)
    else Reply(SetState(Asked(w, pointer.value, Appended(answer)), pointer.value, Writer(Poisons(Appended(answer)))), StatusOf(answer))
  }

  function Creates(w: World, pointer: Option<Address>, series: Bytes, answer: Option<Error>, place: Option<Address>): Reply {
    if pointer.None? then Reply(w, INVALID_ARGUMENT)
    else if !ReaderAt(w, pointer) then Reply(w, WRONG_HANDLE)
    else if !series.Given() then Reply(w, INVALID_ARGUMENT)
    else
      var asked := Asked(w, pointer.value, CursorMade(answer));
      if answer.Some? then Reply(asked, StatusOf(answer))
      else if place.None? then Reply(asked, GENERIC_ERROR)
      else
        var handle := w.handles[pointer.value];
        Reply(asked.(cursors := w.cursors[place.value := CursorState(pointer.value, handle.token)],
                     creators := w.creators[place.value := handle.native]),
              OK)
  }

  function Advances(w: World, pointer: Option<Address>, cursor: Option<Address>, buffers: bool, capacity: nat, answer: Option<Error>): Reply
    requires cursor.Some? ==> cursor.value in w.cursors && cursor.value in w.creators
  {
    if cursor.None? || capacity == 0 || pointer.None? then Reply(w, INVALID_ARGUMENT)
    else if !ReaderAt(w, pointer) || w.cursors[cursor.value] != CursorState(pointer.value, w.handles[pointer.value].token)
    then Reply(w, WRONG_HANDLE)
    else if !buffers then Reply(w, INVALID_ARGUMENT)
    else Reply(Asked(w, pointer.value, CursorAdvanced(w.creators[cursor.value])), StatusOf(answer))
  }

  function Closes(w: World, pointer: Option<Address>, answer: Option<Error>): Reply
    requires pointer.Some? ==> pointer.value in w.handles
  {
    if pointer.None? then Reply(w, INVALID_ARGUMENT)
    else
      var e := EndOf(w.handles[pointer.value].state, answer);
      Reply(Asked(w, pointer.value, e).(handles := w.handles - {pointer.value}),
            if e.Aborted? then POISONED_WRITER else StatusOf(e.error))
  }

  function Replies(w: World, request: Request): Reply
    requires Permitted(request, w.handles, w.cursors) && forall c :: c in w.cursors ==> c in w.creators
  {
    match request
    case DoOpenWriter(path, codec, answer, place) =>
      if !path.Given() || codec !in {0, 1} then Reply(w, INVALID_ARGUMENT)
      else if answer.Some? then Reply(w, StatusOf(answer))
      else if place.None? then Reply(Unheld(w, Aborted), GENERIC_ERROR)
      else Reply(Made(w, place.value, Writer(false)), OK)
    case DoOpenReader(path, answer, place) =>
      if !path.Given() then Reply(w, INVALID_ARGUMENT)
      else if answer.Some? then Reply(w, StatusOf(answer))
      else if place.None? then Reply(Unheld(w, Closed(None)), GENERIC_ERROR)
      else Reply(Made(w, place.value, Reader), OK)
    case DoAppend(pointer, series, timestamps, values, count, answer) =>
      Appends(w, pointer, series, timestamps, values, count, answer)
    case DoPrepare(pointer, series, answer) =>
      if pointer.None? then Reply(w, INVALID_ARGUMENT)
      else if !WriterAt(w, pointer) then Reply(w, WRONG_HANDLE)
      else if PoisonedAt(w, pointer) then Reply(w, POISONED_WRITER)
      else if !series.Given() then Reply(w, INVALID_ARGUMENT)
      else Reply(Asked(w, pointer.value, Prepared(answer)), StatusOf(answer))
    case DoCheckpoint(pointer, disk, answer) =>
      if pointer.None? then Reply(w, INVALID_ARGUMENT)
      else if !WriterAt(w, pointer) then Reply(w, WRONG_HANDLE)
      else if PoisonedAt(w, pointer) then Reply(w, POISONED_WRITER)
      else Reply(SetState(Asked(w, pointer.value, Checkpointed(disk, answer)), pointer.value, Writer(answer.Some?)), StatusOf(answer))
    case DoRefresh(pointer, answer) =>
      if pointer.None? then Reply(w, INVALID_ARGUMENT)
      else if !ReaderAt(w, pointer) then Reply(w, WRONG_HANDLE)
      else Reply(Asked(w, pointer.value, Refreshed(answer)), StatusOf(answer))
    case DoCursorCreate(pointer, series, answer, place) => Creates(w, pointer, series, answer, place)
    case DoCursorNext(pointer, cursor, buffers, capacity, answer) => Advances(w, pointer, cursor, buffers, capacity, answer)
    case DoCursorDestroy(cursor) =>
      Reply(if cursor.None? then w else w.(cursors := w.cursors - {cursor.value}, creators := w.creators - {cursor.value}), OK)
    case DoClose(pointer, answer) => Closes(w, pointer, answer)
  }

  predicate AsksWriter(request: Request) { request.DoAppend? || request.DoPrepare? || request.DoCheckpoint? }

  predicate AsksReader(request: Request) { request.DoRefresh? || request.DoCursorCreate? || request.DoCursorNext? }

  method ServeWriter(library: Library, request: Request) returns (status: int)
    requires library.Valid() && Permitted(request, library.handles, library.cursors) && AsksWriter(request)
    requires Tracked(library.State())
    modifies library
    ensures library.Valid()
    ensures Reply(library.State(), status) == Replies(old(library.State()), request)
  {
    hide LogsOk, TokensOk, OwnCursors, Token;
    match request {
      case DoAppend(pointer, series, timestamps, values, count, answer) =>
        status := library.Append(pointer, series, timestamps, values, count, answer);
      case DoPrepare(pointer, series, answer) => status := library.PrepareAppend(pointer, series, answer);
      case DoCheckpoint(pointer, disk, answer) => status := library.CheckpointWithDurability(pointer, disk, answer);
    }
  }

  method ServeReader(library: Library, request: Request) returns (status: int)
    requires library.Valid() && Permitted(request, library.handles, library.cursors) && AsksReader(request)
    requires Tracked(library.State())
    modifies library
    ensures library.Valid()
    ensures Reply(library.State(), status) == Replies(old(library.State()), request)
  {
    hide LogsOk, TokensOk, OwnCursors, Token;
    var made;
    match request {
      case DoRefresh(pointer, answer) => status := library.Refresh(pointer, true, answer);
      case DoCursorCreate(pointer, series, answer, place) =>
        status, made := library.CursorStateCreate(pointer, series, true, answer, place);
      case DoCursorNext(pointer, cursor, buffers, capacity, answer) =>
        status := library.CursorStateNext(pointer, cursor, true, buffers, capacity, answer);
    }
  }

  method ServeOpenWriter(library: Library, request: Request) returns (status: int)
    requires library.Valid() && Permitted(request, library.handles, library.cursors) && request.DoOpenWriter?
    requires Tracked(library.State())
    modifies library
    ensures library.Valid()
    ensures Reply(library.State(), status) == Replies(old(library.State()), request)
  {
    hide LogsOk, TokensOk, OwnCursors, Token;
    var made;
    status, made := library.OpenWriter(true, request.path, request.codec, request.answer, request.place);
  }

  method ServeOpenReader(library: Library, request: Request) returns (status: int)
    requires library.Valid() && Permitted(request, library.handles, library.cursors) && request.DoOpenReader?
    requires Tracked(library.State())
    modifies library
    ensures library.Valid()
    ensures Reply(library.State(), status) == Replies(old(library.State()), request)
  {
    hide LogsOk, TokensOk, OwnCursors, Token;
    var made;
    status, made := library.OpenReader(true, request.path, request.answer, request.place);
  }

  method Serve(library: Library, request: Request) returns (status: int)
    requires library.Valid() && Permitted(request, library.handles, library.cursors)
    modifies library
    ensures library.Valid()
    ensures old(Tracked(library.State())) && Reply(library.State(), status) == Replies(old(library.State()), request)
  {
    StateTracked(library);
    hide LogsOk, TokensOk, OwnCursors, Token;
    if AsksWriter(request) {
      status := ServeWriter(library, request);
      return;
    }
    if AsksReader(request) {
      status := ServeReader(library, request);
      return;
    }
    status := OK;
    match request {
      case DoOpenWriter(_, _, _, _) => status := ServeOpenWriter(library, request);
      case DoOpenReader(_, _, _) => status := ServeOpenReader(library, request);
      case DoCursorDestroy(cursor) => library.CursorStateDestroy(cursor);
      case DoClose(pointer, answer) => status := library.Close(pointer, answer);
    }
  }

  /** Every live handle has a log and every live cursor a creator. */
  ghost predicate Tracked(w: World) {
    && (forall a :: a in w.handles ==> w.handles[a].native < |w.logs|)
    && (forall c :: c in w.cursors ==> c in w.creators)
  }

  lemma StateTracked(library: Library)
    requires library.Valid()
    ensures Tracked(library.State())
  {
    hide HandleOk, Replay, Token, OwnCursors;
  }

  datatype History = History(world: World, statuses: seq<Option<int>>)

  /** The requests one after another from an empty library; one that is not permitted is skipped and has no status. */
  ghost function ServeAll(requests: seq<Request>): (h: History)
    ensures |h.statuses| == |requests|
  {
    if requests == [] then History(World(map[], map[], map[], [], []), [])
    else
      var before, last := ServeAll(requests[..|requests| - 1]), requests[|requests| - 1];
      if Permitted(last, before.world.handles, before.world.cursors) && Tracked(before.world) then
        var reply := Replies(before.world, last);
        History(reply.world, before.statuses + [Some(reply.status)])
      else History(before.world, before.statuses + [None])
  }

  lemma ServeLast(requests: seq<Request>, k: nat)
    requires k < |requests|
    ensures var before, last := ServeAll(requests[..k]), requests[k];
            ServeAll(requests[..k + 1]) ==
            if Permitted(last, before.world.handles, before.world.cursors) && Tracked(before.world) then
              History(Replies(before.world, last).world, before.statuses + [Some(Replies(before.world, last).status)])
            else History(before.world, before.statuses + [None])
  {
    assert requests[..k + 1][..k] == requests[..k];
  }

  /** Whatever a request does, every live handle still has a log and every live cursor a creator. */
  lemma TrackedNext(w: World, request: Request)
    requires Tracked(w) && Permitted(request, w.handles, w.cursors)
    ensures Tracked(Replies(w, request).world)
  {
    hide StatusOf, Token;
  }

  lemma {:induction false} TrackedAlways(requests: seq<Request>)
    ensures Tracked(ServeAll(requests).world)
    decreases |requests|
  {
    hide Tracked, Replies, Permitted;
    if requests == [] {
      ServeNone(requests);
      assert Tracked(World(map[], map[], map[], [], [])) by { NothingTracked(); }
    } else {
      var k := |requests| - 1;
      TrackedAlways(requests[..k]);
      ServeLast(requests, k);
      assert requests[..k + 1] == requests;
      var before := ServeAll(requests[..k]).world;
      if Permitted(requests[k], before.handles, before.cursors) {
        TrackedNext(before, requests[k]);
      }
    }
  }

  lemma NothingTracked()
    ensures Tracked(World(map[], map[], map[], [], []))
  {
  }

  lemma {:induction false} StatusKept(requests: seq<Request>, k: nat, i: nat)
    requires i < k <= |requests|
    ensures ServeAll(requests[..k]).statuses[i] == ServeAll(requests[..i + 1]).statuses[i]
    decreases k
  {
    hide Tracked, Replies, Permitted, ServeAll;
    if i + 1 < k {
      StatusKept(requests, k - 1, i);
      ServeLast(requests, k - 1);
    }
  }

  /** A call is answered exactly when its caller meets the obligations at that moment: no other is skipped. */
  lemma NoneSkipped(requests: seq<Request>, i: nat)
    requires i < |requests|
    ensures var now := ServeAll(requests[..i]).world;
            ServeAll(requests).statuses[i].Some? <==> Obeys(requests[i], now.handles.Keys, now.cursors.Keys)
  {
    hide Tracked, Replies, Permitted, ServeAll, Obeys;
    StatusKept(requests, |requests|, i);
    assert requests[..|requests|] == requests;
    ServeLast(requests, i);
    TrackedAlways(requests[..i]);
    PermittedMeans(requests[i], ServeAll(requests[..i]).world.handles, ServeAll(requests[..i]).world.cursors);
  }

  lemma LogsOrderly(handles: map<Address, Handle>, logs: seq<seq<Event>>)
    requires LogsOk(handles, logs)
    ensures forall n :: 0 <= n < |logs| ==> Orderly(logs[n])
    ensures handles == map[] ==> forall n :: 0 <= n < |logs| ==> EndedOnce(logs[n])
  {
    hide Replay, Orderly, EndedOnce;
    forall n | 0 <= n < |logs|
      ensures Orderly(logs[n]) && (handles == map[] ==> EndedOnce(logs[n]))
    {
      ReplayMeans(logs[n]);
      if Replay(logs[n]) != Some(Ended) {
        assert Held(handles, n);
      }
    }
  }

  /** Where a library stands that has closed some of the handles it was left with. */
  ghost predicate Closing(end: World, now: World, closing: Option<Error>) {
    && |now.logs| == |end.logs|
    && (forall a :: a in now.handles ==> a in end.handles && now.handles[a] == end.handles[a])
    && (forall a :: a in end.handles && end.handles[a].native < |end.logs| ==>
          var n := end.handles[a].native;
          now.logs[n] == end.logs[n] + if a in now.handles then [] else [EndOf(end.handles[a].state, closing)])
    && (forall n :: 0 <= n < |end.logs| && !Held(end.handles, n) ==> now.logs[n] == end.logs[n])
  }

  lemma ClosingNone(w: World, closing: Option<Error>)
    ensures Closing(w, w, closing)
  {
    assert forall n :: 0 <= n < |w.logs| ==> w.logs[n] + [] == w.logs[n];
  }

  lemma ClosingNext(end: World, now: World, a: Address, closing: Option<Error>)
    requires Closing(end, now, closing) && a in now.handles && now.handles[a].native < |end.logs|
    requires forall b, d :: b in end.handles && d in end.handles && b != d ==> end.handles[b].native != end.handles[d].native
    ensures Closing(end, Closes(now, Some(a), closing).world, closing)
  {
    var next := Closes(now, Some(a), closing).world;
    var n := now.handles[a].native;
    assert end.logs[n] + [] == end.logs[n];
    forall m | 0 <= m < |end.logs| && !Held(end.handles, m)
      ensures next.logs[m] == end.logs[m]
    {
      Holds(end.handles, a);
    }
  }

  lemma NativesDiffer(library: Library)
    requires library.Valid()
    ensures forall b, d :: b in library.handles && d in library.handles && b != d ==>
              library.handles[b].native != library.handles[d].native
  {
    hide HandleOk, TokensOk, OwnCursors, Token;
  }

  /**
   Any run of calls, each answered as told on values, then a close of every handle left, which gives each
   object its one last event. After poison an appender is only ever aborted, every appender and reader is
   ended exactly once, and, up to 2^64 handles, no cursor is presented to another reader than its own, however
   addresses were reused.
   */
  method Run(requests: seq<Request>, closing: Option<Error>) returns (library: Library, statuses: seq<Option<int>>)
    ensures library.handles == map[]
    ensures statuses == ServeAll(requests).statuses
    ensures Closing(ServeAll(requests).world, library.State(), closing)
    ensures forall n :: 0 <= n < |library.logs| ==> Orderly(library.logs[n]) && EndedOnce(library.logs[n])
    ensures |library.owners| <= TOKEN_COUNT ==> OwnCursors(library.logs)
  {
    hide LogsOk, TokensOk, OwnCursors, Orderly, EndedOnce, Token, Replies, ServeAll, Closing, Permitted;
    library := new Library();
    statuses := [];
    ServeNone(requests[..0]);
    for i := 0 to |requests|
      invariant library.Valid() && fresh(library)
      invariant ServeAll(requests[..i]) == History(library.State(), statuses)
    {
      ServeLast(requests, i);
      StateTracked(library);
      if Permitted(requests[i], library.handles, library.cursors) {
        var status := Serve(library, requests[i]);
        statuses := statuses + [Some(status)];
      } else {
        statuses := statuses + [None];
      }
    }
    assert requests[..|requests|] == requests;
    ghost var end := library.State();
    ClosingNone(end, closing);
    NativesDiffer(library);
    while library.handles != map[]
      invariant library.Valid() && fresh(library)
      invariant Closing(end, library.State(), closing)
      decreases |library.handles|
    {
      var a :| a in library.handles;
      ghost var now := library.State();
      StateTracked(library);
      SameLength(end, now, closing);
      ClosingNext(end, now, a, closing);
      var status := library.Close(Some(a), closing);
      assert library.State() == Closes(now, Some(a), closing).world;
    }
    LogsOrderly(library.handles, library.logs);
  }

  lemma ServeNone(requests: seq<Request>)
    requires requests == []
    ensures ServeAll(requests) == History(World(map[], map[], map[], [], []), [])
  {
  }

  lemma SameLength(end: World, now: World, closing: Option<Error>)
    requires Closing(end, now, closing)
    ensures |now.logs| == |end.logs|
  {
  }
}

/**
 What a script of drawn faults makes of an operation, told from the script alone: which calls finish,
 whether a root is published, and what a root write cut short leaves behind.
 */
module Scripts {
  import opened Options
  import opened Objects
  import opened Encodings
  import opened Storage
  import opened Engine
  import opened Images
  import opened Appender
  import opened Checkpoints
  import opened Oracle
  import opened Generations
  import opened Simulation
  import opened Agreement

  /** The choice lets the call finish. */
  predicate Harmless(action: Action, choice: Choice) {
    match action
    case Write(item, _) => choice.NoFault? || (choice.Short? && SizeOf(item) == 1)
    case SyncFile => !choice.Crash?
  }

  /** The choice drawn by call number `n`; an exhausted script injects nothing. */
  function NthDraw(script: seq<Choice>, n: nat): Choice {
    if n < |script| then script[n] else NoFault
  }

  /** The script lets all the calls finish. */
  predicate Faultless(script: seq<Choice>, actions: seq<Action>) {
    forall k :: 0 <= k < |actions| ==> Harmless(actions[k], NthDraw(script, k))
  }

  lemma DoFollowsDraw(c: Codec, s: Store, action: Action)
    requires s.faultsEnabled
    ensures var o := Do(c, s, action);
            (o.ok <==> Harmless(action, Draw(s))) && o.store.faultsEnabled && o.store.script == Rest(s)
  {
    hide Put;
  }

  lemma FaultlessLast(script: seq<Choice>, rest: seq<Action>, last: Action)
    ensures Faultless(script, rest + [last]) <==> Faultless(script, rest) && Harmless(last, NthDraw(script, |rest|))
  {
    hide Harmless, NthDraw;
    var actions := rest + [last];
    assert actions[|rest|] == last;
    assert forall k :: 0 <= k < |rest| ==> actions[k] == rest[k];
  }

  /** The calls finish exactly when the script lets each finish, and use one choice each. */
  lemma {:induction false} ExecFollowsScript(c: Codec, s: Store, actions: seq<Action>)
    requires s.faultsEnabled
    ensures var o := Exec(c, s, actions);
            && (o.ok <==> Faultless(s.script, actions))
            && o.store.faultsEnabled
            && (o.ok ==> o.store.script == if |actions| <= |s.script| then s.script[|actions|..] else [])
  {
    hide Do, Harmless, Faultless;
    if actions == [] {
      assert Faultless(s.script, []) by { NothingIsFaultless(s.script); }
    } else {
      var rest, last := actions[..|actions| - 1], actions[|actions| - 1];
      assert actions == rest + [last];
      ExecFollowsScript(c, s, rest);
      FaultlessLast(s.script, rest, last);
      var o := Exec(c, s, rest);
      if o.ok {
        DoFollowsDraw(c, o.store, last);
      }
    }
  }

  lemma NothingIsFaultless(script: seq<Choice>)
    ensures Faultless(script, [])
  {
  }

  /** After calls that finish, the next draw is the script's next choice. */
  lemma NextDrawn(c: Codec, s: Store, actions: seq<Action>)
    requires s.faultsEnabled && Exec(c, s, actions).ok
    ensures Draw(Exec(c, s, actions).store) == NthDraw(s.script, |actions|)
  {
    hide Exec, Faultless;
    ExecFollowsScript(c, s, actions);
  }

  // ---- The root write of an operation ----

  /** The operation has points to publish. */
  predicate MayPublish(s: Sim, op: Op) { s.writer.dirty && (op.Checkpoint? || op.Reopen?) }

  /** The operation syncs before and after the root. */
  predicate Durably(op: Op) { op.Checkpoint? && op.sync }

  /** All calls ahead of the root write finish. */
  predicate ReachesRoot(s: Sim, op: Op)
    requires HasRoot(s.writer)
  {
    MayPublish(s, op) && Faultless(s.store.script, BeforeRoot(s.writer, Durably(op), op.layout))
  }

  function RootDraw(s: Sim, op: Op): Choice
    requires HasRoot(s.writer) && MayPublish(s, op)
  {
    NthDraw(s.store.script, |BeforeRoot(s.writer, Durably(op), op.layout)|)
  }

  /** The root write finishes too. */
  predicate Publishes(s: Sim, op: Op)
    requires HasRoot(s.writer)
  {
    ReachesRoot(s, op) && RootDraw(s, op).NoFault?
  }

  /** The newest root whose write the engine was told had finished. */
  function Newest(s: Sim, op: Op): (r: Object)
    requires HasRoot(s.writer)
  {
    if Publishes(s, op) then PublishedRoot(s.writer, op.layout) else s.writer.root
  }

  /**
   The root write is cut short, and the slot's old bytes complete it to the new root. The engine is told
   the write failed, and the root stands.
   */
  predicate RootCompleted(c: Codec, s: Sim, op: Op)
    requires HasRoot(s.writer)
  {
    && |s.store.dirty| >= BLOCK_SIZE && ReachesRoot(s, op)
    && CompletedWrite(c, s.store.dirty, PublishedRoot(s.writer, op.layout), RootDraw(s, op))
  }

  /** The root write is cut short, and the slot's old bytes complete it to a root never meant for it. */
  predicate RootForged(c: Codec, s: Sim, op: Op)
    requires HasRoot(s.writer)
  {
    && |s.store.dirty| >= BLOCK_SIZE && ReachesRoot(s, op)
    && ForgedWrite(c, s.store.dirty, PublishedRoot(s.writer, op.layout), RootDraw(s, op))
  }

  /** The root is written, and the sync after it meets a process crash. */
  predicate PostRootProcessCrash(s: Sim, op: Op)
    requires HasRoot(s.writer)
  {
    && Durably(op) && Publishes(s, op)
    && NthDraw(s.store.script, |ThroughRoot(s.writer, true, op.layout)|) == Choice.Crash(false)
  }

  /** A stale root in the slot is already, byte for byte, the one to be published. */
  predicate NextStood(c: Codec, s: Sim, op: Op)
    requires HasRoot(s.writer)
  {
    && |s.store.dirty| >= BLOCK_SIZE && MayPublish(s, op)
    && var next := PublishedRoot(s.writer, op.layout);
       DecodeSlot(c, s.store.dirty, SlotOf(next.generation)) == Some(next)
  }

  /** Told from the script or from the calls made, it is the same. */
  lemma RootIsScripted(c: Codec, s: Sim, op: Op, store: Store)
    requires HasRoot(s.writer) && MayPublish(s, op) && store.faultsEnabled
    requires store.script == s.store.script && store.dirty == s.store.dirty
    requires CheckpointReady(c, store, s.writer) && |s.store.dirty| >= BLOCK_SIZE
    ensures var w, sync := s.writer, Durably(op);
            && (Exec(c, store, ThroughRoot(w, sync, op.layout)).ok <==> Publishes(s, op))
            && (ForgesRoot(c, store, w, sync, op.layout) <==> RootForged(c, s, op))
            && (CompletesRoot(c, store, w, sync, op.layout) <==> RootCompleted(c, s, op))
  {
    hide Carries, Succeeds, FewerRoots, TailStands, Forges, WriterOk, Exec, Faultless, BeforeRoot, PublishedRoot, Do, Unpublished;
    var before := BeforeRoot(s.writer, Durably(op), op.layout);
    ExecFollowsScript(c, store, before);
    ExecLast(c, store, before, RootWrite(s.writer, op.layout));
    ObjectsThenSync(c, store, s.writer, Durably(op), op.layout);
    var o := Exec(c, store, before);
    if o.ok {
      NextDrawn(c, store, before);
      DoFollowsDraw(c, o.store, RootWrite(s.writer, op.layout));
      var next := PublishedRoot(s.writer, op.layout);
      var draw := RootDraw(s, op);
      if StoredShort(draw).Some? {
        TearIsLocal(c, store.dirty, o.store.dirty, next, StoredShort(draw).value);
      }
    }
  }
}

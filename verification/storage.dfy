/**
 The simulator's storage: a volatile and a durable byte image, and injected faults.

 The fault generator is replaced by a script of choices, one drawn before each write and each sync;
 the theorems hold for every script.
 */
module Storage {
  import opened Options
  import opened Objects
  import opened Encodings

  datatype Fault = ProcessCrash | PowerLoss | ShortWrite | WriteFailure | Truncation

  datatype Choice = NoFault | Crash(power: bool) | FailWrite | Short(amount: nat)

  datatype Store = Store(
    dirty: seq<Byte>,
    durable: seq<Byte>,
    faultsEnabled: bool,
    script: seq<Choice>,
    lastFault: Option<Fault>,
    faultOnSync: bool,
    publishedBeforeSyncFault: bool,
    priorGenerationBecameDurable: bool,
    lastCompletedWriteOffset: nat)

  datatype Outcome = Outcome(store: Store, ok: bool)

  function Max(a: nat, b: nat): nat { if a < b then b else a }

  /** The image after `bytes` are stored at `offset`; a gap past the old end reads as zero. */
  function Put(image: seq<Byte>, bytes: seq<Byte>, offset: nat): (r: seq<Byte>)
    ensures |r| == Max(|image|, offset + |bytes|)
    ensures forall p :: 0 <= p < |r| ==>
      r[p] == if offset <= p < offset + |bytes| then bytes[p - offset] else if p < |image| then image[p] else 0
  {
    var end := offset + |bytes|;
    var grown := if end > |image| then image + seq(end - |image|, _ => 0) else image;
    grown[..offset] + bytes + grown[end..]
  }

  function Draw(s: Store): Choice {
    if s.faultsEnabled && s.script != [] then s.script[0] else NoFault
  }

  function Rest(s: Store): seq<Choice> {
    if s.faultsEnabled && s.script != [] then s.script[1..] else s.script
  }

  function CrashKind(power: bool): Fault { if power then PowerLoss else ProcessCrash }

  /** How many bytes a short write of `length` bytes stores: at least one, never all. */
  function ShortAmount(k: nat, length: nat): (amount: nat)
    requires length > 1
    ensures 1 <= amount < length
  {
    1 + k % (length - 1)
  }

  function CleanFlags(s: Store): Store {
    s.(lastFault := None, faultOnSync := false, publishedBeforeSyncFault := false)
  }

  function BeforeWrite(s: Store, bytes: seq<Byte>, offset: nat): Outcome {
    var s1 := CleanFlags(s).(script := Rest(s));
    match Draw(s)
    case Crash(power) => Outcome(s1.(lastFault := Some(CrashKind(power))), false)
    case FailWrite => Outcome(s1.(lastFault := Some(WriteFailure)), false)
    case Short(k) =>
      if |bytes| > 1 then
        var amount := ShortAmount(k, |bytes|);
        Outcome(s1.(dirty := Put(s.dirty, bytes[..amount], offset), lastFault := Some(ShortWrite)), false)
      else Outcome(s1, true)
    case NoFault => Outcome(s1, true)
  }

  function PwriteAll(s: Store, bytes: seq<Byte>, offset: nat): Outcome {
    var before := BeforeWrite(s, bytes, offset);
    if !before.ok then before
    else
      var s1 := before.store;
      Outcome(s1.(dirty := Put(s1.dirty, bytes, offset),
                  lastCompletedWriteOffset := offset,
                  priorGenerationBecameDurable := offset < BLOCK_SIZE && s1.priorGenerationBecameDurable),
              true)
  }

  function Sync(s: Store): Outcome {
    var s1 := CleanFlags(s).(script := Rest(s));
    match Draw(s)
    case Crash(power) =>
      Outcome(s1.(lastFault := Some(CrashKind(power)),
                  faultOnSync := true,
                  publishedBeforeSyncFault := s.lastCompletedWriteOffset < BLOCK_SIZE),
              false)
    case _ =>
      Outcome(s1.(durable := s.dirty,
                  priorGenerationBecameDurable := s.lastCompletedWriteOffset >= BLOCK_SIZE),
              true)
  }

  function CrashStore(s: Store, power: bool): Store {
    s.(dirty := if power then s.durable else s.dirty, lastFault := None, priorGenerationBecameDurable := false)
  }

  function TruncateStore(s: Store, size: nat): Store {
    s.(dirty := Cut(s.dirty, size), durable := Cut(s.durable, size), lastFault := Some(Truncation))
  }

  // ---- What each call records ----

  /** A fault is drawn only while faults are enabled and the script lasts. */
  ghost predicate Draws(s: Store, choice: Choice) {
    s.faultsEnabled && s.script != [] && s.script[0] == choice
  }

  ghost predicate Taken(before: Store, after: Store) {
    after.script == (if before.faultsEnabled && before.script != [] then before.script[1..] else before.script)
    && after.faultsEnabled == before.faultsEnabled
  }

  /** A write reports the fault drawn, forgets the sync before it, and below the first block keeps the durable mark. */
  lemma WriteFlags(s: Store, bytes: seq<Byte>, offset: nat)
    ensures var o := PwriteAll(s, bytes, offset);
            && Taken(s, o.store) && !o.store.faultOnSync && !o.store.publishedBeforeSyncFault
            && (o.store.lastFault == Some(PowerLoss) <==> Draws(s, Crash(true)))
            && (o.store.lastFault == Some(ProcessCrash) <==> Draws(s, Crash(false)))
            && (o.store.lastFault == Some(WriteFailure) <==> Draws(s, FailWrite))
            && (o.store.lastFault == Some(ShortWrite) <==> |bytes| >= 2 && exists k :: Draws(s, Short(k)))
            && (o.ok <==> o.store.lastFault == None) && o.store.lastFault != Some(Truncation)
            && o.store.lastCompletedWriteOffset == (if o.ok then offset else s.lastCompletedWriteOffset)
            && (o.store.priorGenerationBecameDurable <==> s.priorGenerationBecameDurable && (!o.ok || offset < 65536))
  {
    hide Put, ShortAmount;
    if s.faultsEnabled && s.script != [] && s.script[0].Short? {
      assert Draws(s, Short(s.script[0].amount));
    }
  }

  /** A sync fails only by a crash, and says then whether a root was the last thing written; one that completes says whether objects were. */
  lemma SyncFlags(s: Store)
    ensures var o := Sync(s);
            && Taken(s, o.store) && o.store.dirty == s.dirty && o.store.durable == (if o.ok then s.dirty else s.durable)
            && (o.store.lastFault == Some(PowerLoss) <==> Draws(s, Crash(true)))
            && (o.store.lastFault == Some(ProcessCrash) <==> Draws(s, Crash(false)))
            && (o.ok <==> o.store.lastFault == None) && (o.store.faultOnSync <==> !o.ok)
            && (o.store.publishedBeforeSyncFault <==> !o.ok && s.lastCompletedWriteOffset < 65536)
            && (o.store.priorGenerationBecameDurable <==>
                  if o.ok then s.lastCompletedWriteOffset >= 65536 else s.priorGenerationBecameDurable)
            && o.store.lastCompletedWriteOffset == s.lastCompletedWriteOffset
  {
  }

  /** A crash and a truncation draw nothing; a crash forgets the fault and the mark, a truncation records itself. */
  lemma CrashFlags(s: Store, power: bool, size: nat)
    ensures var crashed, cut := CrashStore(s, power), TruncateStore(s, size);
            && crashed == s.(dirty := crashed.dirty, lastFault := None, priorGenerationBecameDurable := false)
            && crashed.dirty == (if power then s.durable else s.dirty)
            && cut == s.(dirty := cut.dirty, durable := cut.durable, lastFault := Some(Truncation))
            && cut.dirty <= s.dirty && |cut.dirty| == (if size < |s.dirty| then size else |s.dirty|)
            && cut.durable <= s.durable && |cut.durable| == (if size < |s.durable| then size else |s.durable|)
  {
  }

  // ---- Crash semantics over every sequence of storage calls ----

  datatype Io = Pwrite(bytes: seq<Byte>, offset: nat) | SyncAll | Truncate(size: nat) | CrashNow(power: bool)

  function Perform(s: Store, io: Io): Store {
    match io
    case Pwrite(bytes, offset) => PwriteAll(s, bytes, offset).store
    case SyncAll => Sync(s).store
    case Truncate(size) => TruncateStore(s, size)
    case CrashNow(power) => CrashStore(s, power)
  }

  function PerformAll(s: Store, ios: seq<Io>): Store {
    if ios == [] then s else Perform(PerformAll(s, ios[..|ios| - 1]), ios[|ios| - 1])
  }

  /** The number of calls up to and including the last completed sync; zero when none completed. */
  function LastSync(s: Store, ios: seq<Io>): (n: nat)
    ensures n <= |ios|
  {
    if ios == [] then 0
    else
      var rest := ios[..|ios| - 1];
      if ios[|ios| - 1].SyncAll? && Sync(PerformAll(s, rest)).ok then |ios| else LastSync(s, rest)
  }

  /** `size` is no larger than any truncation among the calls, and is one of them unless it is `limit`. */
  ghost predicate IsSmallestCut(ios: seq<Io>, limit: nat, size: nat) {
    && size <= limit
    && (forall i :: 0 <= i < |ios| && ios[i].Truncate? ==> size <= ios[i].size)
    && (size == limit || exists i :: 0 <= i < |ios| && ios[i] == Truncate(size))
  }

  function SmallestCut(ios: seq<Io>, limit: nat): (size: nat)
    ensures IsSmallestCut(ios, limit, size)
  {
    if ios == [] then limit
    else
      var rest := SmallestCut(ios[..|ios| - 1], limit);
      var last := ios[|ios| - 1];
      assert rest == limit || exists i :: 0 <= i < |ios| - 1 && ios[..|ios| - 1][i] == ios[i] == Truncate(rest);
      if last.Truncate? && last.size < rest then last.size else rest
  }

  /** One call moves the durable image only by a completed sync or a truncation. */
  lemma DurableAfterCall(s: Store, io: Io)
    ensures Perform(s, io).durable ==
            if io.SyncAll? && Sync(s).ok then s.dirty
            else if io.Truncate? then Cut(s.durable, io.size)
            else s.durable
    ensures io.SyncAll? ==> Perform(s, io).dirty == s.dirty
  {
  }

  lemma SmallestCutLast(ios: seq<Io>, last: Io, limit: nat)
    ensures SmallestCut(ios + [last], limit) ==
            var rest := SmallestCut(ios, limit);
            if last.Truncate? && last.size < rest then last.size else rest
  {
    assert (ios + [last])[..|ios|] == ios;
  }

  /**
   Whatever calls and faults follow, the durable image is the volatile image as it stood at the last
   completed sync, cut to the smallest truncation since.
   */
  lemma {:induction false} DurableIsLastSync(s: Store, ios: seq<Io>)
    requires s.durable == s.dirty
    ensures var n := LastSync(s, ios);
            var synced := PerformAll(s, ios[..n]).dirty;
            PerformAll(s, ios).durable == Cut(synced, SmallestCut(ios[n..], |synced|))
  {
    hide Perform, Sync, IsSmallestCut;
    if ios == [] {
      assert LastSync(s, ios) == 0 && ios[..0] == ios && ios[0..] == ios;
    } else {
      var rest, last := ios[..|ios| - 1], ios[|ios| - 1];
      DurableIsLastSync(s, rest);
      DurableAfterCall(PerformAll(s, rest), last);
      var n := LastSync(s, ios);
      if n == |ios| {
        assert ios[..n] == ios && ios[n..] == [];
      } else {
        assert rest[..n] == ios[..n] && rest[n..] + [last] == ios[n..];
        SmallestCutLast(rest[n..], last, |PerformAll(s, ios[..n]).dirty|);
      }
    }
  }

  /** Power loss brings back exactly the durable image; a process crash loses no byte. */
  lemma PowerLossRestoresDurable(s: Store, ios: seq<Io>)
    requires s.durable == s.dirty
    ensures var n := LastSync(s, ios);
            var synced := PerformAll(s, ios[..n]).dirty;
            PerformAll(s, ios + [CrashNow(true)]).dirty == Cut(synced, SmallestCut(ios[n..], |synced|))
    ensures PerformAll(s, ios + [CrashNow(false)]).dirty == PerformAll(s, ios).dirty
  {
    DurableIsLastSync(s, ios);
    forall power: bool
      ensures PerformAll(s, ios + [CrashNow(power)]) == CrashStore(PerformAll(s, ios), power)
    {
      assert (ios + [CrashNow(power)])[..|ios|] == ios;
    }
  }

  /**
   A write either stores all its bytes, or nothing, or a nonempty proper prefix of them; bytes outside
   that prefix keep their value, and a gap before it reads as zero. The durable image never moves.
   */
  lemma WriteEffect(s: Store, bytes: seq<Byte>, offset: nat)
    ensures var o := PwriteAll(s, bytes, offset);
            var short := o.store.lastFault == Some(ShortWrite);
            && o.store.durable == s.durable
            && (o.ok <==> o.store.lastFault == None)
            && (!o.ok && !short ==> o.store.dirty == s.dirty)
            && (o.ok || short ==>
                  exists amount: nat :: amount <= |bytes| && (o.ok ==> amount == |bytes|) && (short ==> 1 <= amount < |bytes|) &&
                    StoredPrefix(s.dirty, o.store.dirty, bytes, offset, amount))
  {
    var o := PwriteAll(s, bytes, offset);
    if o.ok {
      assert StoredPrefix(s.dirty, o.store.dirty, bytes, offset, |bytes|);
    } else if o.store.lastFault == Some(ShortWrite) {
      var amount := ShortAmount(Draw(s).amount, |bytes|);
      assert StoredPrefix(s.dirty, o.store.dirty, bytes, offset, amount);
    }
  }

  ghost predicate StoredPrefix(before: seq<Byte>, after: seq<Byte>, bytes: seq<Byte>, offset: nat, amount: nat) {
    && amount <= |bytes|
    && |after| == Max(|before|, offset + amount)
    && forall p :: 0 <= p < |after| ==>
        if offset <= p < offset + amount then after[p] == bytes[p - offset]
        else if p < |before| then after[p] == before[p]
        else p < offset && after[p] == 0
  }
}

/**
 How a format-v7 file is opened: four rotating root slots, the checks on each candidate root, and the
 choice of the newest complete generation. The main results say which root that is: in any image, the
 newest one standing with its manifest and its predecessor; in an image that carries a known chain of
 generations, the newest of the chain, unless a retained root beyond it stands again.
 */
module Engine {
  import opened Options
  import opened Objects
  import opened Encodings

  function SlotOf(generation: nat): (slot: nat)
    requires generation >= 1
    ensures slot < SLOT_COUNT
  {
    (generation - 1) % SLOT_COUNT
  }

  lemma NearbySlotsDiffer(a: nat, b: nat)
    requires 1 <= a < b < a + SLOT_COUNT
    ensures SlotOf(a) != SlotOf(b)
  {
  }

  lemma SlotsRepeat(a: nat)
    requires 1 <= a
    ensures SlotOf(a) == SlotOf(a + SLOT_COUNT)
  {
  }

  function SlotOffset(slot: nat): nat { SLOT_BASE + slot * SLOT_SIZE }

  predicate InSlot(p: nat, slot: nat) { SlotOffset(slot) <= p < SlotOffset(slot) + SLOT_SIZE }

  /** The control block outside the root slots. */
  predicate InHeader(p: nat) {
    p < SLOT_BASE || SLOT_BASE + SLOT_COUNT * SLOT_SIZE <= p < BLOCK_SIZE
  }

  predicate HeaderIntact(c: Codec, image: seq<Byte>)
    requires |image| >= BLOCK_SIZE
  {
    forall p :: 0 <= p < BLOCK_SIZE && InHeader(p) ==> image[p] == c.encode(Control)[p]
  }

  /** What decoding a root checks besides its identity. */
  predicate RootDecodes(o: Object) {
    && o.Root?
    && o.generation >= 1
    && o.manifest.Manifest?
    && o.manifestOffset >= BLOCK_SIZE
    && o.manifestOffset + SizeOf(o.manifest) <= o.committed
  }

  function SlotBytes(image: seq<Byte>, slot: nat): (bytes: seq<Byte>)
    requires |image| >= BLOCK_SIZE && slot < SLOT_COUNT
    ensures |bytes| == SLOT_SIZE
  {
    image[SlotOffset(slot)..SlotOffset(slot) + SLOT_SIZE]
  }

  function DecodeSlot(c: Codec, image: seq<Byte>, slot: nat): (r: Option<Object>)
    requires |image| >= BLOCK_SIZE && slot < SLOT_COUNT
    ensures r.Some? ==> RootDecodes(r.value) && IntactAt(c, image, SlotOffset(slot), r.value)
  {
    var r := c.decodeRoot(SlotBytes(image, slot));
    if r.Some? && RootDecodes(r.value) then r else None
  }

  lemma DecodeIntact(c: Codec, image: seq<Byte>, slot: nat, o: Object)
    requires |image| >= BLOCK_SIZE && slot < SLOT_COUNT
    requires RootDecodes(o) && IntactAt(c, image, SlotOffset(slot), o)
    ensures DecodeSlot(c, image, slot) == Some(o)
  {
    assert SlotBytes(image, slot) == c.encode(o);
  }

  /** A root is a candidate only when its extent fits the file and ends with its manifest. */
  function Candidate(c: Codec, image: seq<Byte>, slot: nat): (r: Option<Object>)
    requires |image| >= BLOCK_SIZE && slot < SLOT_COUNT
    ensures r.Some? ==> RootDecodes(r.value)
  {
    var decoded := DecodeSlot(c, image, slot);
    if decoded.Some? && decoded.value.committed <= |image| &&
       decoded.value.manifestOffset + SizeOf(decoded.value.manifest) == decoded.value.committed
    then decoded else None
  }

  predicate CandidateList(list: seq<Option<Object>>) {
    && |list| == SLOT_COUNT
    && forall k :: 0 <= k < SLOT_COUNT && list[k].Some? ==> RootDecodes(list[k].value)
  }

  function Candidates(c: Codec, image: seq<Byte>): (list: seq<Option<Object>>)
    requires |image| >= BLOCK_SIZE
    ensures CandidateList(list)
    ensures forall k :: 0 <= k < SLOT_COUNT ==> list[k] == Candidate(c, image, k)
  {
    seq(SLOT_COUNT, k requires 0 <= k < SLOT_COUNT => Candidate(c, image, k))
  }

  /** The first slot of highest generation among the first `n`. */
  function BestSlot(list: seq<Option<Object>>, n: nat): (best: Option<nat>)
    requires CandidateList(list) && n <= SLOT_COUNT
    ensures best.None? ==> forall k :: 0 <= k < n ==> list[k].None?
    ensures best.Some? ==> best.value < n && list[best.value].Some?
    ensures best.Some? ==> forall k :: 0 <= k < n && list[k].Some? ==>
              list[k].value.generation <= list[best.value].value.generation
  {
    if n == 0 then None
    else
      var best := BestSlot(list, n - 1);
      if list[n - 1].Some? && (best.None? || list[n - 1].value.generation > list[best.value].value.generation)
      then Some(n - 1) else best
  }

  /** The first candidate of the given generation at or after slot `k`. */
  function FindGeneration(list: seq<Option<Object>>, generation: nat, k: nat): (r: Option<Object>)
    requires CandidateList(list) && k <= SLOT_COUNT
    ensures r.Some? ==> r.value.Root? && r.value.generation == generation && exists i :: k <= i < SLOT_COUNT && list[i] == r
    ensures r.None? ==> forall i :: k <= i < SLOT_COUNT && list[i].Some? ==> list[i].value.generation != generation
    decreases SLOT_COUNT - k
  {
    if k == SLOT_COUNT then None
    else if list[k].Some? && list[k].value.generation == generation then list[k]
    else FindGeneration(list, generation, k + 1)
  }

  /** The predecessor must match when it is retained; only the oldest retained root may lack one. */
  predicate ValidPredecessor(list: seq<Option<Object>>, r: Object)
    requires CandidateList(list) && RootDecodes(r)
  {
    if r.generation == 1 then r.previous.None?
    else
      var found := FindGeneration(list, r.generation - 1, 0);
      if found.Some? then r.previous == found
      else forall k :: 0 <= k < SLOT_COUNT && list[k].Some? ==> list[k].value.generation >= r.generation
  }

  predicate ManifestLoads(c: Codec, image: seq<Byte>, r: Object)
    requires RootDecodes(r)
  {
    ReadsAs(c, image, r.manifestOffset, r.manifest) && r.manifest.generation == r.generation
  }

  function Count(list: seq<Option<Object>>): nat {
    if list == [] then 0 else Count(list[..|list| - 1]) + if list[|list| - 1].Some? then 1 else 0
  }

  lemma {:induction false} CountDrops(list: seq<Option<Object>>, k: nat)
    requires k < |list| && list[k].Some?
    ensures Count(list[k := None]) == Count(list) - 1
  {
    var n := |list| - 1;
    if k == n {
      assert list[k := None][..n] == list[..n];
    } else {
      assert list[k := None][..n] == list[..n][k := None];
      CountDrops(list[..n], k);
    }
  }

  /** Try candidates from the newest down, dropping each that fails a check. */
  function Load(c: Codec, image: seq<Byte>, list: seq<Option<Object>>): (r: Option<Object>)
    requires CandidateList(list)
    ensures r.Some? ==> r in list && RootDecodes(r.value) && ManifestLoads(c, image, r.value)
    decreases Count(list)
  {
    var best := BestSlot(list, SLOT_COUNT);
    if best.None? then None
    else
      var k := best.value;
      var r := list[k].value;
      if ValidPredecessor(list, r) && ManifestLoads(c, image, r) then Some(r)
      else
        CountDrops(list, k);
        Load(c, image, list[k := None])
  }

  /** The root a newly opened writer or reader adopts, or None when opening fails. */
  function Open(c: Codec, image: seq<Byte>): (r: Option<Object>)
    ensures r.Some? ==> RootDecodes(r.value) && ManifestLoads(c, image, r.value)
    ensures r.Some? ==> |image| >= BLOCK_SIZE && exists k :: 0 <= k < SLOT_COUNT && Candidate(c, image, k) == r
  {
    if |image| < BLOCK_SIZE || !HeaderIntact(c, image) then None
    else Load(c, image, Candidates(c, image))
  }

  // ---- The layout in numbers, and the checks one by one ----

  lemma LayoutNumbers()
    ensures BLOCK_SIZE == 65536 && SLOT_COUNT == 4 && SLOT_SIZE == 4096 && SLOT_BASE == 4096
  {
  }

  /** The first generation's root stands at 4096, each next one a slot further, and after 16384 comes 4096 again. */
  lemma SlotsTurn(generation: nat)
    requires generation >= 1
    ensures SlotOffset(SlotOf(1)) == 4096
    ensures SlotOffset(SlotOf(generation + 1)) ==
            if SlotOffset(SlotOf(generation)) == 16384 then 4096 else SlotOffset(SlotOf(generation)) + 4096
  {
  }

  lemma BytePlaces(p: nat, slot: nat)
    requires p < 65536 && slot < 4
    ensures InSlot(p, slot) <==> 4096 * (slot + 1) <= p < 4096 * (slot + 2)
    ensures InHeader(p) <==> p < 4096 || p >= 20480
    ensures InHeader(p) <==> !exists slot :: 0 <= slot < 4 && InSlot(p, slot)
  {
    if 4096 <= p < 20480 {
      assert InSlot(p, p / 4096 - 1);
    }
  }

  /** The control block must stand whole on both sides of the slots. */
  lemma HeaderMeans(c: Codec, image: seq<Byte>)
    requires |image| >= 65536
    ensures |c.encode(Control)| == 65536
    ensures HeaderIntact(c, image) <==>
              image[..4096] == c.encode(Control)[..4096] && image[20480..65536] == c.encode(Control)[20480..]
  {
    var control := c.encode(Control);
    if image[..4096] == control[..4096] && image[20480..65536] == control[20480..] {
      forall p | 0 <= p < 65536 && InHeader(p)
        ensures image[p] == control[p]
      {
        if p < 4096 {
          assert image[p] == image[..4096][p] == control[..4096][p];
        } else {
          assert image[p] == image[20480..65536][p - 20480] == control[20480..][p - 20480];
        }
      }
    }
  }

  /** Exactly which roots a slot makes candidates. */
  lemma CandidateMeans(c: Codec, image: seq<Byte>, slot: nat, o: Object)
    requires |image| >= 65536 && slot < 4
    ensures Candidate(c, image, slot) == Some(o) <==>
              && c.decodeRoot(image[4096 * (slot + 1)..4096 * (slot + 2)]) == Some(o)
              && o.Root? && o.generation >= 1 && o.manifest.Manifest? && o.manifestOffset >= 65536
              && o.manifestOffset + SizeOf(o.manifest) == o.committed <= |image|
    ensures DecodeSlot(c, image, slot) == Some(o) <==>
              && c.decodeRoot(image[4096 * (slot + 1)..4096 * (slot + 2)]) == Some(o)
              && o.Root? && o.generation >= 1 && o.manifest.Manifest? && o.manifestOffset >= 65536
              && o.manifestOffset + SizeOf(o.manifest) <= o.committed
  {
    assert SlotOffset(slot) == 4096 * (slot + 1);
  }

  /** Of equally new candidates the first is tried. */
  lemma {:induction false} BestFirst(list: seq<Option<Object>>, n: nat)
    requires CandidateList(list) && n <= SLOT_COUNT && BestSlot(list, n).Some?
    ensures forall k :: 0 <= k < BestSlot(list, n).value && list[k].Some? ==>
              list[k].value.generation < list[BestSlot(list, n).value].value.generation
  {
    if n > 0 && BestSlot(list, n - 1).Some? {
      BestFirst(list, n - 1);
    }
  }

  /** A manifest loads if and only if its bytes are all there and it is of the root's own generation. */
  lemma ManifestMeans(c: Codec, image: seq<Byte>, r: Object)
    requires RootDecodes(r)
    ensures ManifestLoads(c, image, r) <==>
              && r.manifestOffset + SizeOf(r.manifest) <= |image| && r.manifest.generation == r.generation
              && image[r.manifestOffset..r.manifestOffset + SizeOf(r.manifest)] == c.encode(r.manifest)
  {
  }

  /** A file too short for its control block, or with a damaged one, is not opened. */
  lemma OpenRefuses(c: Codec, image: seq<Byte>)
    requires |image| < 65536 || !HeaderIntact(c, image)
    ensures Open(c, image).None?
  {
  }

  // ---- The chain of generations behind a root ----

  ghost predicate WellFormedRoot(r: Object)
    decreases r
  {
    && RootDecodes(r)
    && r.manifestOffset + SizeOf(r.manifest) == r.committed
    && r.manifest.generation == r.generation
    && (r.previous.None? <==> r.generation == 1)
    && (forall k :: 0 <= k < |r.manifest.pages| ==>
          r.manifest.pages[k].item.Page? && r.manifest.pages[k].offset >= BLOCK_SIZE &&
          r.manifest.pages[k].offset + SizeOf(r.manifest.pages[k].item) <= r.manifestOffset)
    && (r.previous.Some? ==>
          && WellFormedRoot(r.previous.value)
          && r.previous.value.generation + 1 == r.generation
          && r.previous.value.committed < r.committed
          && r.previous.value.manifest.pages <= r.manifest.pages)
  }

  /** The generation `distance` steps before `r`. */
  ghost function Ancestor(r: Object, distance: nat): (a: Object)
    requires WellFormedRoot(r) && distance < r.generation
    ensures WellFormedRoot(a) && a.generation == r.generation - distance && a.committed <= r.committed
    ensures distance > 0 ==> a.committed < r.committed
    ensures a.manifest.pages <= r.manifest.pages
    decreases distance
  {
    if distance == 0 then r else Ancestor(r.previous.value, distance - 1)
  }

  ghost predicate Descends(r: Object, x: Object)
    requires WellFormedRoot(r)
  {
    x.Root? && 1 <= x.generation <= r.generation && Ancestor(r, r.generation - x.generation) == x
  }

  lemma {:induction false} AncestorOfAncestor(r: Object, a: nat, b: nat)
    requires WellFormedRoot(r) && a + b < r.generation
    ensures Ancestor(Ancestor(r, a), b) == Ancestor(r, a + b)
    decreases a
  {
    if a > 0 {
      AncestorOfAncestor(r.previous.value, a - 1, b);
    }
  }

  // ---- What it means for an image to hold a root ----

  ghost predicate GraphIntact(c: Codec, image: seq<Byte>, r: Object)
    requires RootDecodes(r)
  {
    && IntactAt(c, image, r.manifestOffset, r.manifest)
    && forall k :: 0 <= k < |r.manifest.pages| ==> IntactAt(c, image, r.manifest.pages[k].offset, r.manifest.pages[k].item)
  }

  /** The graphs of `r` and of every generation before it stand whole. */
  ghost predicate ChainIntact(c: Codec, image: seq<Byte>, r: Object)
    requires WellFormedRoot(r)
    decreases r
  {
    GraphIntact(c, image, r) && (r.previous.Some? ==> ChainIntact(c, image, r.previous.value))
  }

  /** Every retained root stands in the slot of its generation. */
  ghost predicate SlotsOwn(c: Codec, image: seq<Byte>)
    requires |image| >= BLOCK_SIZE
  {
    forall slot :: 0 <= slot < SLOT_COUNT && DecodeSlot(c, image, slot).Some? ==>
      SlotOf(DecodeSlot(c, image, slot).value.generation) == slot
  }

  /** A retained root is a recent ancestor of `r`, or newer than `r`: what a truncation or a torn write left. */
  ghost predicate SlotExplained(c: Codec, image: seq<Byte>, r: Object, slot: nat)
    requires |image| >= BLOCK_SIZE && slot < SLOT_COUNT && WellFormedRoot(r)
  {
    var decoded := DecodeSlot(c, image, slot);
    decoded.Some? ==>
      var x := decoded.value;
      && SlotOf(x.generation) == slot
      && (x.generation <= r.generation ==> r.generation - x.generation < SLOT_COUNT && Descends(r, x))
  }

  ghost predicate Retains(c: Codec, image: seq<Byte>, r: Object, distance: nat)
    requires |image| >= BLOCK_SIZE && WellFormedRoot(r)
  {
    && distance < r.generation
    && DecodeSlot(c, image, SlotOf(r.generation - distance)) == Some(Ancestor(r, distance))
  }

  ghost predicate NoGap(c: Codec, image: seq<Byte>, r: Object)
    requires |image| >= BLOCK_SIZE && WellFormedRoot(r)
  {
    && (Retains(c, image, r, 2) ==> Retains(c, image, r, 1))
    && (Retains(c, image, r, 3) ==> Retains(c, image, r, 2))
  }

  /**
   The image carries `r`: `r` stands whole in its slot, every graph up to its own is intact, every slot is explained,
   and the retained ancestors leave no gap.
   */
  ghost predicate Carries(c: Codec, image: seq<Byte>, r: Object) {
    && |image| >= BLOCK_SIZE
    && HeaderIntact(c, image)
    && WellFormedRoot(r)
    && r.committed <= |image|
    && ChainIntact(c, image, r)
    && Retains(c, image, r, 0)
    && (forall slot :: 0 <= slot < SLOT_COUNT ==> SlotExplained(c, image, r, slot))
    && NoGap(c, image, r)
  }

  // ---- Which root opening chooses ----

  /** The predecessor of `x` is the retained root of the generation before, or nothing older is retained. */
  ghost predicate Follows(c: Codec, image: seq<Byte>, x: Object)
    requires |image| >= BLOCK_SIZE && RootDecodes(x)
  {
    if x.generation == 1 then x.previous.None?
    else
      var p := Candidate(c, image, SlotOf(x.generation - 1));
      if p.Some? && p.value.generation == x.generation - 1 then x.previous == p
      else forall k :: 0 <= k < SLOT_COUNT && Candidate(c, image, k).Some? ==>
             Candidate(c, image, k).value.generation >= x.generation
  }

  /** The slot's root fits the file, its whole manifest stands, and it follows its predecessor. */
  ghost predicate Standing(c: Codec, image: seq<Byte>, slot: nat)
    requires |image| >= BLOCK_SIZE && slot < SLOT_COUNT
    ensures Standing(c, image, slot) ==> Candidate(c, image, slot).Some?
  {
    var x := Candidate(c, image, slot);
    x.Some? && ManifestLoads(c, image, x.value) && Follows(c, image, x.value)
  }

  /** A standing root is newer than `generation`. */
  ghost predicate Overtaken(c: Codec, image: seq<Byte>, generation: nat)
    requires |image| >= BLOCK_SIZE
  {
    exists k :: 0 <= k < SLOT_COUNT && Standing(c, image, k) && Candidate(c, image, k).value.generation > generation
  }

  /** No retained root is newer than `generation`, whether it stands or not. */
  ghost predicate NoneNewer(c: Codec, image: seq<Byte>, generation: nat)
    requires |image| >= BLOCK_SIZE
  {
    forall k :: 0 <= k < SLOT_COUNT && DecodeSlot(c, image, k).Some? ==> DecodeSlot(c, image, k).value.generation <= generation
  }

  lemma NoneNewerStands(c: Codec, image: seq<Byte>, generation: nat)
    requires |image| >= BLOCK_SIZE && NoneNewer(c, image, generation)
    ensures !Overtaken(c, image, generation)
  {
    hide DecodeSlot, ManifestLoads, Follows;
  }

  /** The candidates no newer than `generation`. */
  ghost predicate UpTo(c: Codec, image: seq<Byte>, list: seq<Option<Object>>, generation: nat)
    requires |image| >= BLOCK_SIZE
  {
    && CandidateList(list)
    && forall k :: 0 <= k < SLOT_COUNT ==>
        var x := Candidate(c, image, k);
        list[k] == if x.Some? && x.value.generation <= generation then x else None
  }

  lemma CandidateOwn(c: Codec, image: seq<Byte>, slot: nat)
    requires |image| >= BLOCK_SIZE && slot < SLOT_COUNT && SlotsOwn(c, image)
    ensures var x := Candidate(c, image, slot); x.Some? ==> SlotOf(x.value.generation) == slot
  {
  }

  /** For the newest candidate left, the engine's search for the predecessor finds what the image retains. */
  lemma ValidIsFollows(c: Codec, image: seq<Byte>, list: seq<Option<Object>>, generation: nat, slot: nat)
    requires |image| >= BLOCK_SIZE && SlotsOwn(c, image) && UpTo(c, image, list, generation)
    requires BestSlot(list, SLOT_COUNT) == Some(slot)
    ensures ValidPredecessor(list, list[slot].value) <==> Follows(c, image, list[slot].value)
  {
    hide Candidate, SlotsOwn, BestSlot, FindGeneration;
    var x := list[slot].value;
    if x.generation > 1 {
      var found := FindGeneration(list, x.generation - 1, 0);
      var mine := SlotOf(x.generation - 1);
      if found.Some? {
        var i :| 0 <= i < SLOT_COUNT && list[i] == found;
        CandidateOwn(c, image, i);
        assert i == mine;
      } else {
        assert list[mine].Some? ==> list[mine].value.generation != x.generation - 1;
      }
    }
  }

  /** Dropping the newest candidate leaves those of older generations. */
  lemma DropNewest(c: Codec, image: seq<Byte>, list: seq<Option<Object>>, generation: nat, slot: nat)
    requires |image| >= BLOCK_SIZE && SlotsOwn(c, image) && UpTo(c, image, list, generation)
    requires BestSlot(list, SLOT_COUNT) == Some(slot)
    ensures UpTo(c, image, list[slot := None], list[slot].value.generation - 1)
  {
    hide DecodeSlot;
    var x := list[slot].value;
    forall k | 0 <= k < SLOT_COUNT
      ensures var y := Candidate(c, image, k);
              list[slot := None][k] == if y.Some? && y.value.generation <= x.generation - 1 then y else None
    {
      if k != slot && list[k].Some? {
        assert SlotOf(list[k].value.generation) == k && SlotOf(x.generation) == slot;
      }
    }
  }

  /** Loading returns the newest standing root among those left. */
  lemma {:induction false} LoadNewest(c: Codec, image: seq<Byte>, list: seq<Option<Object>>, generation: nat)
    requires |image| >= BLOCK_SIZE && SlotsOwn(c, image) && UpTo(c, image, list, generation)
    ensures var r := Load(c, image, list);
            && (forall k :: 0 <= k < SLOT_COUNT && Standing(c, image, k) && Candidate(c, image, k).value.generation <= generation ==>
                  r.Some? && Candidate(c, image, k).value.generation <= r.value.generation)
            && (r.Some? ==> exists k :: 0 <= k < SLOT_COUNT && Standing(c, image, k) && Candidate(c, image, k) == r)
    decreases Count(list)
  {
    hide DecodeSlot, Follows, ManifestLoads, ValidPredecessor;
    var best := BestSlot(list, SLOT_COUNT);
    if best.Some? {
      var k := best.value;
      ValidIsFollows(c, image, list, generation, k);
      if ValidPredecessor(list, list[k].value) && ManifestLoads(c, image, list[k].value) {
        assert Standing(c, image, k);
      } else {
        CountDrops(list, k);
        DropNewest(c, image, list, generation, k);
        LoadNewest(c, image, list[k := None], list[k].value.generation - 1);
      }
    }
  }

  /**
   Opening adopts the newest standing root, and fails only when none stands: whatever order the slots
   are in, and whichever newer candidates fail their checks.
   */
  lemma OpenNewest(c: Codec, image: seq<Byte>)
    requires |image| >= BLOCK_SIZE && HeaderIntact(c, image) && SlotsOwn(c, image)
    ensures var r := Open(c, image);
            && (forall k :: 0 <= k < SLOT_COUNT && Standing(c, image, k) ==>
                  r.Some? && Candidate(c, image, k).value.generation <= r.value.generation)
            && (r.Some? ==> exists k :: 0 <= k < SLOT_COUNT && Standing(c, image, k) && Candidate(c, image, k) == r)
  {
    hide DecodeSlot, Follows, ManifestLoads;
    var list := Candidates(c, image);
    var best := BestSlot(list, SLOT_COUNT);
    LoadNewest(c, image, list, if best.Some? then list[best.value].value.generation else 0);
  }

  lemma RetainedIsCandidate(c: Codec, image: seq<Byte>, r: Object, distance: nat)
    requires Carries(c, image, r) && Retains(c, image, r, distance)
    ensures Candidate(c, image, SlotOf(r.generation - distance)) == Some(Ancestor(r, distance))
  {
  }

  /** A retained root at or below the carried generation is the ancestor its generation names. */
  lemma RetainedByGeneration(c: Codec, image: seq<Byte>, r: Object, slot: nat)
    requires |image| >= BLOCK_SIZE && slot < SLOT_COUNT && WellFormedRoot(r)
    requires SlotExplained(c, image, r, slot) && DecodeSlot(c, image, slot).Some?
    requires DecodeSlot(c, image, slot).value.generation <= r.generation
    ensures var x := DecodeSlot(c, image, slot).value;
            r.generation - x.generation < SLOT_COUNT && Retains(c, image, r, r.generation - x.generation)
  {
  }

  /** Retention has no gap: any retained older root comes with the direct predecessor. */
  lemma OlderNeedsPredecessor(c: Codec, image: seq<Byte>, r: Object, slot: nat)
    requires |image| >= BLOCK_SIZE && slot < SLOT_COUNT && WellFormedRoot(r)
    requires SlotExplained(c, image, r, slot) && NoGap(c, image, r)
    requires var x := DecodeSlot(c, image, slot); x.Some? && x.value.generation < r.generation
    ensures Retains(c, image, r, 1)
  {
    hide DecodeSlot, SlotOf, Descends, Ancestor, Retains, SlotExplained;
    RetainedByGeneration(c, image, r, slot);
    var distance := r.generation - DecodeSlot(c, image, slot).value.generation;
    assert distance == 1 || distance == 2 || distance == 3;
  }

  /** The carried root follows its predecessor. */
  lemma CarriedFollows(c: Codec, image: seq<Byte>, r: Object)
    requires Carries(c, image, r)
    ensures Follows(c, image, r)
  {
    hide DecodeSlot, ChainIntact;
    if r.generation > 1 {
      var mine := SlotOf(r.generation - 1);
      var p := Candidate(c, image, mine);
      assert SlotExplained(c, image, r, mine);
      if p.Some? && p.value.generation == r.generation - 1 {
        assert p.value == Ancestor(r, 1) == r.previous.value;
      } else {
        forall k | 0 <= k < SLOT_COUNT && Candidate(c, image, k).Some?
          ensures Candidate(c, image, k).value.generation >= r.generation
        {
          if Candidate(c, image, k).value.generation < r.generation {
            assert SlotExplained(c, image, r, k);
            OlderNeedsPredecessor(c, image, r, k);
            RetainedIsCandidate(c, image, r, 1);
          }
        }
      }
    }
  }

  lemma CarriedStands(c: Codec, image: seq<Byte>, r: Object)
    requires Carries(c, image, r)
    ensures SlotsOwn(c, image)
    ensures Standing(c, image, SlotOf(r.generation)) && Candidate(c, image, SlotOf(r.generation)) == Some(r)
  {
    hide DecodeSlot, Follows;
    CarriedFollows(c, image, r);
    RetainedIsCandidate(c, image, r, 0);
    forall slot | 0 <= slot < SLOT_COUNT && DecodeSlot(c, image, slot).Some?
      ensures SlotOf(DecodeSlot(c, image, slot).value.generation) == slot
    {
      assert SlotExplained(c, image, r, slot);
    }
  }

  /**
   Opening an image that carries `r` always succeeds, and adopts `r` exactly when no standing root is
   newer: past torn, stale, truncated and incomplete roots alike.
   */
  lemma OpenSelects(c: Codec, image: seq<Byte>, r: Object)
    requires Carries(c, image, r)
    ensures Open(c, image).Some?
    ensures Open(c, image) == Some(r) <==> !Overtaken(c, image, r.generation)
    ensures Overtaken(c, image, r.generation) ==> Open(c, image).value.generation > r.generation
  {
    hide DecodeSlot, Standing, ChainIntact, Open;
    CarriedStands(c, image, r);
    OpenNewest(c, image);
    var mine := SlotOf(r.generation);
    var k :| 0 <= k < SLOT_COUNT && Standing(c, image, k) && Candidate(c, image, k) == Open(c, image);
    if Open(c, image).value.generation == r.generation {
      assert k == mine;
    }
  }

  /** The image carries `r` and opens to it. */
  ghost predicate Holds(c: Codec, image: seq<Byte>, r: Object) {
    Carries(c, image, r) && !Overtaken(c, image, r.generation)
  }
}

/**
 How the root an image carries changes as the image is extended, truncated and published to.
 These are the steps every simulated run is made of.
 */
module Images {
  import opened Options
  import opened Objects
  import opened Encodings
  import opened Storage
  import opened Engine

  lemma SamePrefixDecodes(c: Codec, a: seq<Byte>, b: seq<Byte>, slot: nat)
    requires |a| >= BLOCK_SIZE && |b| >= BLOCK_SIZE && slot < SLOT_COUNT
    requires forall p :: 0 <= p < BLOCK_SIZE && InSlot(p, slot) ==> a[p] == b[p]
    ensures DecodeSlot(c, a, slot) == DecodeSlot(c, b, slot)
  {
    assert SlotBytes(a, slot) == SlotBytes(b, slot);
  }

  /** Roots decode alike in two images that agree on the control block, so they retain alike. */
  lemma SameSlotsRetain(c: Codec, a: seq<Byte>, b: seq<Byte>, r: Object)
    requires |a| >= BLOCK_SIZE && |b| >= BLOCK_SIZE && WellFormedRoot(r)
    requires forall slot :: 0 <= slot < SLOT_COUNT ==> DecodeSlot(c, a, slot) == DecodeSlot(c, b, slot)
    ensures forall distance: nat :: Retains(c, a, r, distance) <==> Retains(c, b, r, distance)
  {
  }

  lemma SameControlDecodes(c: Codec, a: seq<Byte>, b: seq<Byte>)
    requires |a| >= BLOCK_SIZE && |b| >= BLOCK_SIZE && a[..BLOCK_SIZE] == b[..BLOCK_SIZE]
    ensures forall slot :: 0 <= slot < SLOT_COUNT ==> DecodeSlot(c, a, slot) == DecodeSlot(c, b, slot)
    ensures HeaderIntact(c, a) <==> HeaderIntact(c, b)
  {
    forall p | 0 <= p < BLOCK_SIZE
      ensures a[p] == b[p]
    {
      assert a[p] == a[..BLOCK_SIZE][p] && b[p] == b[..BLOCK_SIZE][p];
    }
    forall slot | 0 <= slot < SLOT_COUNT
      ensures DecodeSlot(c, a, slot) == DecodeSlot(c, b, slot)
    {
      SamePrefixDecodes(c, a, b, slot);
    }
  }

  lemma SameExplained(c: Codec, a: seq<Byte>, b: seq<Byte>, r: Object)
    requires |a| >= BLOCK_SIZE && |b| >= BLOCK_SIZE && WellFormedRoot(r)
    requires forall slot :: 0 <= slot < SLOT_COUNT ==> DecodeSlot(c, a, slot) == DecodeSlot(c, b, slot)
    ensures forall slot :: 0 <= slot < SLOT_COUNT ==> (SlotExplained(c, a, r, slot) <==> SlotExplained(c, b, r, slot))
  {
    hide DecodeSlot, Descends, SlotOf;
  }

  /** Graphs live between the control block and the committed extent. */
  lemma {:induction false} SameExtentIntact(c: Codec, a: seq<Byte>, b: seq<Byte>, r: Object)
    requires WellFormedRoot(r) && ChainIntact(c, a, r)
    requires r.committed <= |b| && r.committed <= |a|
    requires forall p :: BLOCK_SIZE <= p < r.committed ==> a[p] == b[p]
    ensures ChainIntact(c, b, r)
    decreases r
  {
    forall k | 0 <= k < |r.manifest.pages|
      ensures IntactAt(c, b, r.manifest.pages[k].offset, r.manifest.pages[k].item)
    {
      assert IntactAt(c, a, r.manifest.pages[k].offset, r.manifest.pages[k].item);
    }
    if r.previous.Some? {
      SameExtentIntact(c, a, b, r.previous.value);
    }
  }

  /** Appending bytes never changes the carried root: torn appends, gaps and garbage included. */
  lemma CarriesAfterExtension(c: Codec, before: seq<Byte>, after: seq<Byte>, r: Object)
    requires Carries(c, before, r) && before <= after
    ensures Carries(c, after, r)
  {
    hide DecodeSlot, SlotExplained, Retains, HeaderIntact, ChainIntact;
    assert before[..BLOCK_SIZE] == after[..BLOCK_SIZE];
    SameControlDecodes(c, before, after);
    SameSlotsRetain(c, before, after, r);
    SameExplained(c, before, after, r);
    SameExtentIntact(c, before, after, r);
  }

  /** Truncating beyond the carried extent keeps the carried root. */
  lemma CarriesAfterCut(c: Codec, image: seq<Byte>, size: nat, r: Object)
    requires Carries(c, image, r) && BLOCK_SIZE <= size <= |image| && r.committed <= size
    ensures Carries(c, image[..size], r)
  {
    hide DecodeSlot, SlotExplained, Retains, HeaderIntact, ChainIntact;
    var after := image[..size];
    assert image[..BLOCK_SIZE] == after[..BLOCK_SIZE];
    SameControlDecodes(c, image, after);
    SameSlotsRetain(c, image, after, r);
    SameExplained(c, image, after, r);
    SameExtentIntact(c, image, after, r);
  }

  lemma PredecessorOf(r: Object)
    requires WellFormedRoot(r) && r.previous.Some?
    ensures r.Root? && r.previous.value.Root? && WellFormedRoot(r.previous.value)
    ensures 1 <= r.previous.value.generation == r.generation - 1
  {
  }

  lemma AncestorShift(r: Object, distance: nat)
    requires WellFormedRoot(r) && distance + 1 < r.generation
    ensures r.previous.Some? && WellFormedRoot(r.previous.value)
    ensures Ancestor(r, distance + 1) == Ancestor(r.previous.value, distance)
  {
  }

  lemma RetainsShift(c: Codec, image: seq<Byte>, r: Object, distance: nat)
    requires |image| >= BLOCK_SIZE && WellFormedRoot(r) && r.previous.Some?
    ensures Retains(c, image, r, distance + 1) <==> Retains(c, image, r.previous.value, distance)
  {
    hide DecodeSlot, SlotOf, Ancestor, WellFormedRoot;
    PredecessorOf(r);
    if distance + 1 < r.generation {
      AncestorShift(r, distance);
    }
  }

  lemma DescendsShift(r: Object, x: Object)
    requires WellFormedRoot(r) && r.previous.Some? && x.Root? && x.generation < r.generation
    ensures Descends(r, x) <==> Descends(r.previous.value, x)
  {
    hide Ancestor, WellFormedRoot;
    PredecessorOf(r);
    if x.generation >= 1 {
      AncestorShift(r, r.generation - x.generation - 1);
    }
  }

  /** A slot explained by `r` is explained by its predecessor. */
  lemma ExplainedByPredecessor(c: Codec, image: seq<Byte>, r: Object, slot: nat)
    requires |image| >= BLOCK_SIZE && WellFormedRoot(r) && r.previous.Some? && slot < SLOT_COUNT
    requires SlotExplained(c, image, r, slot)
    ensures SlotExplained(c, image, r.previous.value, slot)
  {
    hide DecodeSlot;
    var decoded := DecodeSlot(c, image, slot);
    if decoded.Some? && decoded.value.generation < r.generation {
      DescendsShift(r, decoded.value);
    }
  }

  lemma NoGapForPredecessor(c: Codec, image: seq<Byte>, r: Object)
    requires |image| >= BLOCK_SIZE && WellFormedRoot(r) && r.previous.Some?
    requires NoGap(c, image, r) && Retains(c, image, r, 0)
    ensures NoGap(c, image, r.previous.value)
  {
    hide DecodeSlot;
    RetainsShift(c, image, r, 1);
    RetainsShift(c, image, r, 2);
    var previous := r.previous.value;
    if 3 < previous.generation {
      SlotsRepeat(previous.generation - 3);
      assert DecodeSlot(c, image, SlotOf(previous.generation - 3)) == Some(r);
      assert Ancestor(previous, 3).generation != r.generation;
    }
    assert !Retains(c, image, previous, 3);
  }

  /** Truncating below the carried extent leaves the image carrying the predecessor, if its root is retained. */
  lemma CarriesPredecessorAfterCut(c: Codec, image: seq<Byte>, size: nat, r: Object)
    requires Carries(c, image, r) && BLOCK_SIZE <= size <= |image| && size < r.committed
    requires Retains(c, image, r, 1) && r.previous.value.committed <= size
    ensures Carries(c, image[..size], r.previous.value)
  {
    hide DecodeSlot, HeaderIntact, SlotExplained, SlotOf;
    var after, previous := image[..size], r.previous.value;
    assert image[..BLOCK_SIZE] == after[..BLOCK_SIZE];
    SameControlDecodes(c, image, after);
    NoGapForPredecessor(c, image, r);
    RetainsShift(c, image, r, 0);
    SameSlotsRetain(c, image, after, previous);
    SameExtentIntact(c, image, after, previous);
    SameExplained(c, image, after, previous);
    forall slot | 0 <= slot < SLOT_COUNT
      ensures SlotExplained(c, after, previous, slot)
    {
      ExplainedByPredecessor(c, image, r, slot);
    }
  }

  lemma CandidateExplained(c: Codec, image: seq<Byte>, r: Object, slot: nat)
    requires Carries(c, image, r) && slot < SLOT_COUNT && Candidate(c, image, slot).Some?
    ensures Candidate(c, image, slot).value.generation == r.generation ==> Candidate(c, image, slot) == Some(r)
    ensures Candidate(c, image, slot).value.generation < r.generation ==> Retains(c, image, r, 1)
  {
    hide DecodeSlot, ChainIntact;
    assert SlotExplained(c, image, r, slot);
    if Candidate(c, image, slot).value.generation < r.generation {
      OlderNeedsPredecessor(c, image, r, slot);
    }
  }

  // ---- A truncation lets no newer root stand up that did not stand before ----

  lemma CutCandidate(c: Codec, image: seq<Byte>, size: nat, slot: nat)
    requires BLOCK_SIZE <= size <= |image| && slot < SLOT_COUNT
    ensures DecodeSlot(c, image[..size], slot) == DecodeSlot(c, image, slot)
    ensures Candidate(c, image[..size], slot) ==
            var x := Candidate(c, image, slot); if x.Some? && x.value.committed <= size then x else None
    ensures var x := Candidate(c, image[..size], slot);
            x.Some? && ManifestLoads(c, image[..size], x.value) ==> ManifestLoads(c, image, x.value)
  {
    SamePrefixDecodes(c, image[..size], image, slot);
    hide DecodeSlot;
    var x := Candidate(c, image[..size], slot);
    if x.Some? && ManifestLoads(c, image[..size], x.value) {
      assert IntactAt(c, image[..size], x.value.manifestOffset, x.value.manifest);
    }
  }

  /** A root that stands in the cut image above some older candidate stood before the cut. */
  lemma StoodBeforeCut(c: Codec, image: seq<Byte>, size: nat, slot: nat, older: nat)
    requires BLOCK_SIZE <= size <= |image| && slot < SLOT_COUNT && older < SLOT_COUNT
    requires Standing(c, image[..size], slot) && Candidate(c, image[..size], older).Some?
    requires Candidate(c, image[..size], older).value.generation < Candidate(c, image[..size], slot).value.generation
    ensures Standing(c, image, slot) && Candidate(c, image, slot) == Candidate(c, image[..size], slot)
  {
    hide DecodeSlot, Candidate, ManifestLoads, SlotOf;
    CutCandidate(c, image, size, slot);
    var x := Candidate(c, image[..size], slot).value;
    CutCandidate(c, image, size, SlotOf(x.generation - 1));
  }

  lemma NotOvertakenAfterCut(c: Codec, image: seq<Byte>, size: nat, r: Object)
    requires Holds(c, image, r) && BLOCK_SIZE <= size <= |image| && r.committed <= size
    ensures !Overtaken(c, image[..size], r.generation)
  {
    hide DecodeSlot, Standing, Carries;
    CarriedStands(c, image, r);
    var mine := SlotOf(r.generation);
    CutCandidate(c, image, size, mine);
    forall k | 0 <= k < SLOT_COUNT && Standing(c, image[..size], k)
      ensures Candidate(c, image[..size], k).value.generation <= r.generation
    {
      if Candidate(c, image[..size], k).value.generation > r.generation {
        StoodBeforeCut(c, image, size, k, mine);
      }
    }
  }

  lemma PredecessorNotOvertaken(c: Codec, image: seq<Byte>, size: nat, r: Object)
    requires Holds(c, image, r) && BLOCK_SIZE <= size <= |image| && size < r.committed
    requires Retains(c, image, r, 1) && r.previous.value.committed <= size
    ensures !Overtaken(c, image[..size], r.generation - 1)
  {
    hide DecodeSlot, Standing, ChainIntact, HeaderIntact, NoGap, Descends;
    var mine := SlotOf(r.generation - 1);
    RetainedIsCandidate(c, image, r, 1);
    CutCandidate(c, image, size, mine);
    forall k | 0 <= k < SLOT_COUNT && Standing(c, image[..size], k)
      ensures Candidate(c, image[..size], k).value.generation <= r.generation - 1
    {
      if Candidate(c, image[..size], k).value.generation > r.generation {
        StoodBeforeCut(c, image, size, k, mine);
      } else if Candidate(c, image[..size], k).value.generation == r.generation {
        CutCandidate(c, image, size, k);
        CandidateExplained(c, image, r, k);
      }
    }
  }

  /** When the carried extent is cut and the predecessor is gone, only a newer root can still be opened. */
  lemma OpenAfterCut(c: Codec, image: seq<Byte>, size: nat, r: Object)
    requires Carries(c, image, r) && BLOCK_SIZE <= size <= |image| && size < r.committed
    requires Open(c, image[..size]).Some? && !Retains(c, image, r, 1)
    ensures Overtaken(c, image[..size], r.generation) && Open(c, image[..size]).value.generation > r.generation
  {
    hide DecodeSlot, Standing, ChainIntact, Open, Candidate;
    var after := image[..size];
    assert image[..BLOCK_SIZE] == after[..BLOCK_SIZE];
    SameControlDecodes(c, image, after);
    CarriedStands(c, image, r);
    assert SlotsOwn(c, after);
    OpenNewest(c, after);
    var k :| 0 <= k < SLOT_COUNT && Standing(c, after, k) && Candidate(c, after, k) == Open(c, after);
    CutCandidate(c, image, size, k);
    CandidateExplained(c, image, r, k);
  }

  // ---- Publishing a root ----

  /** `next` may follow `r`: its graph is already whole in the image. */
  ghost predicate Succeeds(c: Codec, image: seq<Byte>, r: Object, next: Object) {
    && WellFormedRoot(next)
    && next.previous == Some(r)
    && next.committed <= |image|
    && ChainIntact(c, image, next)
  }

  lemma OtherSlotsKept(c: Codec, image: seq<Byte>, bytes: seq<Byte>, slot: nat)
    requires |image| >= BLOCK_SIZE && slot < SLOT_COUNT && |bytes| <= SLOT_SIZE
    ensures var after := Put(image, bytes, SlotOffset(slot));
            && |after| == |image|
            && (HeaderIntact(c, image) ==> HeaderIntact(c, after))
            && (forall p :: BLOCK_SIZE <= p < |image| ==> after[p] == image[p])
            && (forall k :: 0 <= k < SLOT_COUNT && k != slot ==> DecodeSlot(c, after, k) == DecodeSlot(c, image, k))
  {
    var after := Put(image, bytes, SlotOffset(slot));
    forall k | 0 <= k < SLOT_COUNT && k != slot
      ensures DecodeSlot(c, after, k) == DecodeSlot(c, image, k)
    {
      SamePrefixDecodes(c, after, image, k);
    }
  }

  lemma ExplainedAfterPublish(c: Codec, image: seq<Byte>, after: seq<Byte>, r: Object, next: Object, slot: nat)
    requires |image| >= BLOCK_SIZE && |after| == |image| && slot < SLOT_COUNT
    requires WellFormedRoot(next) && next.previous == Some(r)
    requires SlotExplained(c, image, r, slot) && slot != SlotOf(next.generation)
    requires DecodeSlot(c, after, slot) == DecodeSlot(c, image, slot)
    ensures SlotExplained(c, after, next, slot)
  {
    hide DecodeSlot, Descends, SlotOf;
    if DecodeSlot(c, image, slot).Some? {
      var x := DecodeSlot(c, image, slot).value;
      if x.generation <= r.generation {
        DescendsShift(next, x);
        SlotsRepeat(x.generation);
      }
    }
  }

  /** Publishing leaves the three slots behind the new root alone. */
  lemma SlotBehind(c: Codec, image: seq<Byte>, after: seq<Byte>, generation: nat, distance: nat)
    requires |image| >= BLOCK_SIZE && |after| >= BLOCK_SIZE && 1 <= distance <= 3 && distance < generation
    requires forall k :: 0 <= k < SLOT_COUNT && k != SlotOf(generation) ==> DecodeSlot(c, after, k) == DecodeSlot(c, image, k)
    ensures DecodeSlot(c, after, SlotOf(generation - distance)) == DecodeSlot(c, image, SlotOf(generation - distance))
  {
    hide DecodeSlot;
    NearbySlotsDiffer(generation - distance, generation);
  }

  lemma RetainsAfterPublish(c: Codec, image: seq<Byte>, after: seq<Byte>, r: Object, next: Object, distance: nat)
    requires |image| >= BLOCK_SIZE && |after| >= BLOCK_SIZE && distance <= 2
    requires WellFormedRoot(next) && next.previous == Some(r) && WellFormedRoot(r)
    requires distance < r.generation ==>
               DecodeSlot(c, after, SlotOf(r.generation - distance)) == DecodeSlot(c, image, SlotOf(r.generation - distance))
    ensures Retains(c, after, next, distance + 1) <==> Retains(c, image, r, distance)
  {
    hide DecodeSlot, SlotOf;
    RetainsShift(c, after, next, distance);
  }

  lemma NoGapAfterPublish(c: Codec, image: seq<Byte>, after: seq<Byte>, r: Object, next: Object)
    requires |image| >= BLOCK_SIZE && |after| >= BLOCK_SIZE
    requires WellFormedRoot(next) && next.previous == Some(r) && WellFormedRoot(r)
    requires forall k :: 0 <= k < SLOT_COUNT && k != SlotOf(next.generation) ==> DecodeSlot(c, after, k) == DecodeSlot(c, image, k)
    requires Retains(c, image, r, 0) && NoGap(c, image, r)
    requires r.Root? && next.Root? && next.generation == r.generation + 1 >= 2
    ensures NoGap(c, after, next)
    ensures Retains(c, after, next, 1)
  {
    hide Retains, DecodeSlot, SlotOf, Ancestor, WellFormedRoot;
    SlotBehind(c, image, after, next.generation, 1);
    if next.generation > 2 {
      SlotBehind(c, image, after, next.generation, 2);
    }
    if next.generation > 3 {
      SlotBehind(c, image, after, next.generation, 3);
    }
    RetainsAfterPublish(c, image, after, r, next, 0);
    RetainsAfterPublish(c, image, after, r, next, 1);
    RetainsAfterPublish(c, image, after, r, next, 2);
  }

  /** A complete root write moves the image to the next generation. */
  lemma CarriesAfterPublish(c: Codec, image: seq<Byte>, r: Object, next: Object)
    requires Carries(c, image, r) && Succeeds(c, image, r, next)
    ensures var after := Put(image, c.encode(next), SlotOffset(SlotOf(next.generation)));
            Carries(c, after, next) && Retains(c, after, next, 1)
  {
    hide SlotExplained, NoGap, HeaderIntact, Put, DecodeSlot;
    var slot := SlotOf(next.generation);
    var after := Put(image, c.encode(next), SlotOffset(slot));
    OtherSlotsKept(c, image, c.encode(next), slot);
    NoGapAfterPublish(c, image, after, r, next);
    PublishedDecodes(c, image, next);
    SameExtentIntact(c, image, after, next);
    forall k | 0 <= k < SLOT_COUNT
      ensures SlotExplained(c, after, next, k)
    {
      if k != slot {
        ExplainedAfterPublish(c, image, after, r, next, k);
      } else {
        ExplainsItself(c, after, next);
      }
    }
  }

  lemma ExplainsItself(c: Codec, image: seq<Byte>, r: Object)
    requires |image| >= BLOCK_SIZE && WellFormedRoot(r) && DecodeSlot(c, image, SlotOf(r.generation)) == Some(r)
    ensures SlotExplained(c, image, r, SlotOf(r.generation))
  {
  }

  lemma PublishedDecodes(c: Codec, image: seq<Byte>, next: Object)
    requires |image| >= BLOCK_SIZE && RootDecodes(next)
    ensures var slot := SlotOf(next.generation);
            DecodeSlot(c, Put(image, c.encode(next), SlotOffset(slot)), slot) == Some(next)
  {
    var slot := SlotOf(next.generation);
    DecodeIntact(c, Put(image, c.encode(next), SlotOffset(slot)), slot, next);
  }

  // ---- A root write cut short ----

  /** The image after only the first `amount` bytes of a root were stored. */
  function Torn(c: Codec, image: seq<Byte>, next: Object, amount: nat): (after: seq<Byte>)
    requires next.Root? && next.generation >= 1 && amount <= SLOT_SIZE
    ensures |image| >= BLOCK_SIZE ==> |after| == |image|
  {
    Put(image, c.encode(next)[..amount], SlotOffset(SlotOf(next.generation)))
  }

  /** The bytes of the slot that the short write leaves are already those of `next`. */
  predicate TailStands(c: Codec, image: seq<Byte>, next: Object, amount: nat)
    requires |image| >= BLOCK_SIZE && next.Root? && next.generation >= 1 && amount <= SLOT_SIZE
  {
    SlotBytes(image, SlotOf(next.generation))[amount..] == c.encode(next)[amount..]
  }

  function TornRoot(c: Codec, image: seq<Byte>, next: Object, amount: nat): Option<Object>
    requires |image| >= BLOCK_SIZE && next.Root? && next.generation >= 1 && amount <= SLOT_SIZE
  {
    DecodeSlot(c, Torn(c, image, next, amount), SlotOf(next.generation))
  }

  lemma TornBytes(c: Codec, image: seq<Byte>, next: Object, amount: nat)
    requires |image| >= BLOCK_SIZE && next.Root? && next.generation >= 1 && amount <= SLOT_SIZE
    ensures var slot := SlotOf(next.generation);
            SlotBytes(Torn(c, image, next, amount), slot) == c.encode(next)[..amount] + SlotBytes(image, slot)[amount..]
  {
  }

  /**
   What a root write cut short leaves in its slot: the new root exactly when the bytes it did not store
   already stood there; and the root that was there before only if nothing changed.
   */
  lemma TornSlotDecodes(c: Codec, image: seq<Byte>, next: Object, amount: nat)
    requires |image| >= BLOCK_SIZE && RootDecodes(next) && amount <= SLOT_SIZE
    ensures TornRoot(c, image, next, amount) == Some(next) <==> TailStands(c, image, next, amount)
    ensures var before := DecodeSlot(c, image, SlotOf(next.generation));
            before.Some? && TornRoot(c, image, next, amount) == before ==> Torn(c, image, next, amount) == image
  {
    var slot := SlotOf(next.generation);
    var after := Torn(c, image, next, amount);
    TornBytes(c, image, next, amount);
    assert c.encode(next) == c.encode(next)[..amount] + c.encode(next)[amount..];
    assert SlotBytes(after, slot)[amount..] == SlotBytes(image, slot)[amount..];
    assert TailStands(c, image, next, amount) ==> SlotBytes(after, slot) == c.encode(next);
    var before := DecodeSlot(c, image, slot);
    if before.Some? && TornRoot(c, image, next, amount) == before {
      SlotDecidesImage(image, after, slot);
    }
  }

  lemma SlotDecidesImage(a: seq<Byte>, b: seq<Byte>, slot: nat)
    requires |a| == |b| >= BLOCK_SIZE && slot < SLOT_COUNT && SlotBytes(a, slot) == SlotBytes(b, slot)
    requires forall p :: 0 <= p < |a| && !InSlot(p, slot) ==> a[p] == b[p]
    ensures a == b
  {
    forall p | 0 <= p < |a|
      ensures a[p] == b[p]
    {
      if InSlot(p, slot) {
        assert a[p] == SlotBytes(a, slot)[p - SlotOffset(slot)];
        assert b[p] == SlotBytes(b, slot)[p - SlotOffset(slot)];
      }
    }
  }

  /**
   The short write completes a root that is neither the one being written nor the one that stood there,
   nor any other that could have been meant for this slot since. Its identity covers every one of its
   bytes, so it would take two roots with one identity.
   */
  predicate Forges(c: Codec, image: seq<Byte>, next: Object, amount: nat)
    requires |image| >= BLOCK_SIZE && next.Root? && next.generation >= 1 && amount <= SLOT_SIZE
  {
    var slot := SlotOf(next.generation);
    var y := TornRoot(c, image, next, amount);
    && y.Some? && y != DecodeSlot(c, image, slot)
    && !(y.value.generation >= next.generation && SlotOf(y.value.generation) == slot)
  }

  lemma SlotElsewhere(c: Codec, image: seq<Byte>, after: seq<Byte>, generation: nat, distance: nat)
    requires |image| >= BLOCK_SIZE && |after| >= BLOCK_SIZE && distance <= 2 && distance < generation
    requires forall k :: 0 <= k < SLOT_COUNT && k != SlotOf(generation + 1) ==> DecodeSlot(c, after, k) == DecodeSlot(c, image, k)
    ensures DecodeSlot(c, after, SlotOf(generation - distance)) == DecodeSlot(c, image, SlotOf(generation - distance))
  {
    hide DecodeSlot;
    NearbySlotsDiffer(generation - distance, generation + 1);
  }

  /** A change to the oldest slot that brings back no old root opens no gap. */
  lemma NoGapWithoutOldest(c: Codec, image: seq<Byte>, after: seq<Byte>, r: Object)
    requires |image| >= BLOCK_SIZE && |after| >= BLOCK_SIZE && WellFormedRoot(r) && NoGap(c, image, r)
    requires forall k :: 0 <= k < SLOT_COUNT && k != SlotOf(r.generation + 1) ==> DecodeSlot(c, after, k) == DecodeSlot(c, image, k)
    requires var y := DecodeSlot(c, after, SlotOf(r.generation + 1));
             y.None? || y == DecodeSlot(c, image, SlotOf(r.generation + 1)) || y.value.generation > r.generation
    ensures NoGap(c, after, r)
    ensures Retains(c, after, r, 0) <==> Retains(c, image, r, 0)
  {
    hide DecodeSlot;
    SlotElsewhere(c, image, after, r.generation, 0);
    if r.generation > 1 {
      SlotElsewhere(c, image, after, r.generation, 1);
    }
    if r.generation > 2 {
      SlotElsewhere(c, image, after, r.generation, 2);
    }
    if r.generation > 3 {
      SlotsRepeat(r.generation - 3);
    }
    assert Retains(c, after, r, 3) ==> Retains(c, image, r, 3);
  }

  /** A torn root write never changes the carried root: it touches one slot, and leaves no older root there. */
  lemma CarriesAfterTornPublish(c: Codec, image: seq<Byte>, r: Object, next: Object, amount: nat)
    requires Carries(c, image, r) && Succeeds(c, image, r, next) && amount <= SLOT_SIZE && !Forges(c, image, next, amount)
    ensures Carries(c, Torn(c, image, next, amount), r)
  {
    hide SlotOf, HeaderIntact, Put, NoGap, DecodeSlot, Descends, ChainIntact, Retains;
    var slot := SlotOf(next.generation);
    var after := Torn(c, image, next, amount);
    OtherSlotsKept(c, image, c.encode(next)[..amount], slot);
    SameExtentIntact(c, image, after, r);
    NoGapWithoutOldest(c, image, after, r);
    forall k | 0 <= k < SLOT_COUNT
      ensures SlotExplained(c, after, r, k)
    {
      assert SlotExplained(c, image, r, k);
    }
  }

  /** If the short write completes the new root after all, that root stands, newer than the carried one. */
  lemma CompletedOvertakes(c: Codec, image: seq<Byte>, r: Object, next: Object)
    requires Carries(c, image, r) && Succeeds(c, image, r, next)
    requires DecodeSlot(c, image, SlotOf(next.generation)) == Some(next)
    ensures Overtaken(c, image, r.generation)
  {
    hide DecodeSlot;
    RetainedIsCandidate(c, image, r, 0);
    var slot := SlotOf(next.generation);
    assert Candidate(c, image, slot) == Some(next);
    assert Standing(c, image, slot);
  }

  /** An image that already shows `next` in its slot carries it: writing it would change nothing. */
  lemma CarriesWhatStands(c: Codec, image: seq<Byte>, r: Object, next: Object)
    requires Carries(c, image, r) && Succeeds(c, image, r, next)
    requires DecodeSlot(c, image, SlotOf(next.generation)) == Some(next)
    ensures Put(image, c.encode(next), SlotOffset(SlotOf(next.generation))) == image
    ensures Carries(c, image, next)
  {
    CarriesAfterPublish(c, image, r, next);
  }
}

/** One descriptor ring of the Synopsys GMAC as it lies in memory: descriptor
    words, the parallel skb list, the driver's indices and cached descriptor
    pointers, and the DMA engine's own position.

    A ring pointer is modelled by its offset from the ring base. */
module SynDescRing {
  import opened Wrappers
  import opened RingIndex
  import opened SynDmaDesc
  import opened SlotRing

  type Skb = nat

  /** What a slot in use stands for: its skb, what its descriptor tells the DMA
      engine, and the bits the DMA engine reported. */
  datatype Item = Item(skb: Skb, frame: Frame, report: bv32)

  datatype DescRing = DescRing(
    desc: seq<Desc>,
    skb: seq<Option<Skb>>,
    busy: nat,         // rx_busy / tx_busy
    next: nat,         // rx_next / tx_next
    busyDesc: nat,     // rx_busy_desc / tx_busy_desc
    nextDesc: nat,     // rx_next_desc / tx_next_desc
    count: nat,        // busy_rx_desc / busy_tx_desc
    dma: nat)          // descriptor the DMA engine will look at next

  // -------------------------------------------------- meaning of the words

  function SlotOf(kind: Kind, d: Desc, s: Option<Skb>): Slot<Item> {
    match s
    case None => Free
    case Some(skb) =>
      var item := Item(skb, FrameOf(kind, d), Report(kind, d.status));
      if OwnedByDma(d) then Dma(item) else Done(item)
  }

  predicate SlotWf(kind: Kind, d: Desc, s: Option<Skb>, last: bool) {
    if s.None? then Idle(kind, d, last) else InUse(kind, d, last)
  }

  predicate Sized(r: DescRing) {
    && |r.desc| == |r.skb| == RING_SIZE
    && r.busy < RING_SIZE && r.next < RING_SIZE && r.dma < RING_SIZE
    && r.busyDesc == r.busy
    && r.nextDesc == r.next
  }

  ghost predicate Wf(kind: Kind, r: DescRing) {
    && Sized(r)
    && forall i {:trigger SlotOk(kind, r, i)} :: 0 <= i < RING_SIZE ==> SlotOk(kind, r, i)
  }

  predicate SlotOk(kind: Kind, r: DescRing, i: nat)
    requires Sized(r) && i < RING_SIZE
  {
    SlotWf(kind, r.desc[i], r.skb[i], i == RING_SIZE - 1)
  }

  function Slots(kind: Kind, r: DescRing): (v: Ring<Item>)
    requires Sized(r)
  {
    Ring(seq(RING_SIZE, i requires 0 <= i < RING_SIZE => SlotOf(kind, r.desc[i], r.skb[i])),
         r.busy, r.next, r.count, r.dma)
  }

  /** The index part of the invariant. */
  predicate Indexed(r: DescRing) {
    Sized(r) && r.count <= RING_SIZE && r.next == Idx(r.busy, r.count)
  }

  /** The ring invariant.  Its slot-by-slot part sits behind a quantifier that
      only `Unfold` instantiates, so that proofs about whole devices do not
      carry it around opened. */
  ghost predicate Inv(kind: Kind, r: DescRing) {
    && Indexed(r)
    && forall u: bool {:trigger Opened(kind, r, u)} ::
         Opened(kind, r, u) ==> Wf(kind, r) && SlotRing.Inv(Slots(kind, r))
  }

  predicate Opened(kind: Kind, r: DescRing, u: bool) { true }

  lemma Unfold(kind: Kind, r: DescRing)
    requires Inv(kind, r)
    ensures Wf(kind, r) && SlotRing.Inv(Slots(kind, r))
  {
    assert Opened(kind, r, true);
  }

  /** The ring window, oldest slot first. */
  function Window(kind: Kind, r: DescRing): (q: seq<Slot<Item>>)
    requires Indexed(r)
    ensures |q| == r.count
  {
    Queue(Slots(kind, r))
  }

  // ------------------------------------------------------- ring operations

  function InitialRing(kind: Kind): DescRing {
    DescRing(seq(RING_SIZE, i => Initial(kind, i == RING_SIZE - 1)),
             seq(RING_SIZE, _ => None), 0, 0, 0, 0, 0, 0)
  }

  /** `syn_dp_set_rx_qptr`, or `syn_dp_set_tx_qptr` with the count update of
      its caller. */
  function SetQptr(kind: Kind, r: DescRing, buffer: bv32, len: bv32, offload: bool, skb: Skb): DescRing
    requires Sized(r)
  {
    r.(desc := r.desc[r.nextDesc := Armed(kind, r.desc[r.nextDesc], buffer, len, offload)],
       skb := r.skb[r.next := Some(skb)],
       next := Succ(r.next), nextDesc := Succ(r.next), count := r.count + 1)
  }

  /** `syn_dp_reset_rx_qptr` and `syn_dp_reset_tx_qptr`. */
  function ResetQptr(kind: Kind, r: DescRing): DescRing
    requires Sized(r) && r.count > 0
  {
    r.(desc := r.desc[r.busyDesc := Cleared(kind, r.desc[r.busyDesc])],
       skb := r.skb[r.busy := None],
       busy := Succ(r.busy), busyDesc := Succ(r.busy), count := r.count - 1)
  }

  /** One step of the DMA engine.  It looks only at descriptor words: a
      descriptor it does not own stops it, and after a descriptor that carries
      the end-of-ring bit it returns to the ring base. */
  function DmaStep(kind: Kind, r: DescRing, w: Writeback): DescRing {
    if r.dma < |r.desc| && OwnedByDma(r.desc[r.dma]) then
      var d := r.desc[r.dma];
      r.(desc := r.desc[r.dma := WrittenBack(kind, d, w)],
         dma := if EndOfRing(kind, d) then 0 else r.dma + 1)
    else
      r
  }

  /** The four BUG_ON conditions of `syn_dp_set_rx_qptr`, negated. */
  predicate NoBugOnSet(r: DescRing) {
    && r.count < RING_SIZE
    && r.nextDesc == r.next
    && r.nextDesc < |r.desc|
    && IsEmpty(r.desc[r.nextDesc])
    && !OwnedByDma(r.desc[r.nextDesc])
  }

  // ------------------------------------------- the words obey the ring rules

  /** Writing one slot keeps the ring well formed if the new slot is. */
  lemma WfUpdate(kind: Kind, r: DescRing, r': DescRing, i: nat)
    requires Wf(kind, r) && Sized(r') && i < RING_SIZE && SlotOk(kind, r', i)
    requires forall j :: 0 <= j < RING_SIZE && j != i ==> r'.desc[j] == r.desc[j] && r'.skb[j] == r.skb[j]
    ensures Wf(kind, r')
  {
    forall j | 0 <= j < RING_SIZE ensures SlotOk(kind, r', j) {
      if j != i {
        assert SlotOk(kind, r, j);
      }
    }
  }

  lemma InitialRingInv(kind: Kind)
    ensures Inv(kind, InitialRing(kind))
    ensures Window(kind, InitialRing(kind)) == []
  {
    InitialIsIdle(kind, true);
    InitialIsIdle(kind, false);
  }

  /** Exactly the last descriptor carries the end-of-ring bit. */
  lemma EndOfRingOnlyLast(kind: Kind, r: DescRing, i: nat)
    requires Wf(kind, r) && i < RING_SIZE
    ensures EndOfRing(kind, r.desc[i]) <==> i == RING_SIZE - 1
  {
    assert SlotOk(kind, r, i);
    if r.skb[i].None? {
      IdleIsAvailable(kind, r.desc[i], i == RING_SIZE - 1);
    }
  }

  lemma OwnedIffDma(kind: Kind, r: DescRing, i: nat)
    requires Wf(kind, r) && i < RING_SIZE
    ensures OwnedByDma(r.desc[i]) <==> Slots(kind, r).slots[i].Dma?
  {
    assert SlotOk(kind, r, i);
    if r.skb[i].None? {
      IdleIsAvailable(kind, r.desc[i], i == RING_SIZE - 1);
    }
  }

  /** Arming the next descriptor posts its slot. */
  lemma SetQptrIsPost(kind: Kind, r: DescRing, buffer: bv32, len: bv32, offload: bool, skb: Skb)
    requires Wf(kind, r) && r.skb[r.next].None?
    ensures IsEmpty(r.desc[r.next]) && !OwnedByDma(r.desc[r.next])
    ensures var r', item := SetQptr(kind, r, buffer, len, offload, skb), Item(skb, Asked(kind, buffer, len, offload), 0);
            SlotOk(kind, r', r.next) && Slots(kind, r') == Post(Slots(kind, r), item)
  {
    var last := r.next == RING_SIZE - 1;
    assert SlotOk(kind, r, r.next);
    IdleIsAvailable(kind, r.desc[r.next], last);
    ArmHandsOver(kind, r.desc[r.next], buffer, len, offload, last);
  }

  lemma SetQptrPosts(kind: Kind, r: DescRing, buffer: bv32, len: bv32, offload: bool, skb: Skb)
    requires Inv(kind, r) && r.count < RING_SIZE
    ensures NoBugOnSet(r) && r.skb[r.next].None?
    ensures var r' := SetQptr(kind, r, buffer, len, offload, skb);
            && Inv(kind, r')
            && Window(kind, r') == Window(kind, r) + [Dma(Item(skb, Asked(kind, buffer, len, offload), 0))]
  {
    Unfold(kind, r);
    var v := Slots(kind, r);
    PostAppends(v, Item(skb, Asked(kind, buffer, len, offload), 0));
    assert v.slots[r.next] == SlotOf(kind, r.desc[r.next], r.skb[r.next]);
    SetQptrIsPost(kind, r, buffer, len, offload, skb);
    WfUpdate(kind, r, SetQptr(kind, r, buffer, len, offload, skb), r.next);
  }

  lemma ResetQptrReclaims(kind: Kind, r: DescRing)
    requires Inv(kind, r) && r.count > 0 && !OwnedByDma(r.desc[r.busy])
    ensures r.skb[r.busy].Some?
    ensures var d := r.desc[r.busy];
            Window(kind, r)[0] == Done(Item(r.skb[r.busy].value, FrameOf(kind, d), Report(kind, d.status)))
    ensures Inv(kind, ResetQptr(kind, r))
    ensures Window(kind, ResetQptr(kind, r)) == Window(kind, r)[1..]
  {
    Unfold(kind, r);
    var v := Slots(kind, r);
    OwnedIffDma(kind, r, r.busy);
    assert Queue(v)[0] == v.slots[r.busy];
    ReclaimPops(v);
    assert SlotOk(kind, r, r.busy);
    ClearReleases(kind, r.desc[r.busy], r.busy == RING_SIZE - 1);
    assert Slots(kind, ResetQptr(kind, r)) == Reclaim(v);
    WfUpdate(kind, r, ResetQptr(kind, r), r.busy);
  }

  lemma WindowInOrder(kind: Kind, r: DescRing)
    requires Inv(kind, r)
    ensures InOrder(Window(kind, r))
  {
    Unfold(kind, r);
  }

  /** Writing back the descriptor the DMA engine owns writes back its slot. */
  lemma DmaStepIsWriteBack(kind: Kind, r: DescRing, w: Writeback)
    requires Wf(kind, r) && OwnedByDma(r.desc[r.dma])
    ensures var r', v := DmaStep(kind, r, w), Slots(kind, r);
            && v.slots[r.dma].Dma? && Sized(r') && SlotOk(kind, r', r.dma)
            && Slots(kind, r') == WriteBack(v, v.slots[r.dma].item.(report := Report(kind, w.status)))
  {
    OwnedIffDma(kind, r, r.dma);
    EndOfRingOnlyLast(kind, r, r.dma);
    assert SlotOk(kind, r, r.dma);
    WriteBackReturns(kind, r.desc[r.dma], w, r.dma == RING_SIZE - 1);
  }

  /** The DMA engine reading descriptor words completes exactly the oldest
      slot it owns, or does nothing when there is none. */
  lemma DmaStepCompletesOldest(kind: Kind, r: DescRing, w: Writeback)
    requires Inv(kind, r)
    ensures Inv(kind, DmaStep(kind, r, w))
    ensures var q, c := Window(kind, r), Completed(Window(kind, r));
            Window(kind, DmaStep(kind, r, w)) ==
            if c < |q| && q[c].Dma? then q[c := Done(q[c].item.(report := Report(kind, w.status)))] else q
  {
    Unfold(kind, r);
    var v := Slots(kind, r);
    OwnedIffDma(kind, r, r.dma);
    DmaIdleIffDrained(v);
    if OwnedByDma(r.desc[r.dma]) {
      DmaStepIsWriteBack(kind, r, w);
      WriteBackCompletesOldest(v, v.slots[r.dma].item.(report := Report(kind, w.status)));
      WfUpdate(kind, r, DmaStep(kind, r, w), r.dma);
    }
  }
}

/** What holds in every run of the Synopsys data plane, spelled out on
    descriptor memory, driver indices, counters and outputs. */
module SynRuns {
  import opened Wrappers
  import opened WordValue
  import opened RingIndex
  import opened SynDmaDesc
  import opened SlotRing
  import opened SynDescRing
  import opened SynStats
  import opened SynFifo
  import opened SynDevice

  /** The state after a run from set-up. */
  function After(es: seq<Event>): (d: Dev)
    ensures DevInv(d)
  {
    DevRun(SetUp(), es)
  }

  // -------------------------------------------------------- ring discipline

  /** Ring discipline on the raw fields: indices, cached pointers, one skb per
      window slot, and slots outside the window empty, without skb and not
      owned by the DMA engine. */
  ghost predicate Disciplined(r: DescRing) {
    && |r.desc| == RING_SIZE && |r.skb| == RING_SIZE
    && r.busy < RING_SIZE
    && r.count <= RING_SIZE
    && r.next == (r.busy + r.count) % RING_SIZE
    && r.busyDesc == r.busy && r.nextDesc == r.next
    && r.next < RING_SIZE && r.dma < RING_SIZE
    && forall i :: 0 <= i < RING_SIZE ==> SlotDisciplined(r, i)
  }

  /** Ownership along the window is a completed prefix and an owned suffix,
      and the DMA engine stands where the suffix begins. */
  ghost predicate OwnershipSplit(r: DescRing, done: nat)
    requires Disciplined(r)
  {
    && done <= r.count
    && r.dma == (r.busy + done) % RING_SIZE
    && forall k :: 0 <= k < r.count ==> (OwnedByDma(r.desc[Idx(r.busy, k)]) <==> done <= k)
  }

  predicate SlotDisciplined(r: DescRing, i: nat)
    requires Sized(r) && i < RING_SIZE
  {
    if Off(r.busy, i) < r.count then r.skb[i].Some?
    else r.skb[i].None? && IsEmpty(r.desc[i]) && !OwnedByDma(r.desc[i])
  }

  lemma InvSlot(kind: Kind, r: DescRing, i: nat)
    requires Wf(kind, r) && SlotRing.Inv(Slots(kind, r)) && i < RING_SIZE
    ensures SlotDisciplined(r, i)
  {
    var v, q := Slots(kind, r), Window(kind, r);
    var k := Off(r.busy, i);
    assert SlotOk(kind, r, i) && v.slots[i] == SlotOf(kind, r.desc[i], r.skb[i]);
    if k < r.count {
      assert q[k] == v.slots[i];
      assert q[k].Done? || q[k].Dma?;
    } else {
      IdleIsAvailable(kind, r.desc[i], i == RING_SIZE - 1);
    }
  }

  lemma InvIsDisciplined(kind: Kind, r: DescRing)
    requires SynDescRing.Inv(kind, r)
    ensures Disciplined(r)
  {
    Unfold(kind, r);
    IdxIsModulo(r.busy, r.count);
    forall i | 0 <= i < RING_SIZE
      ensures SlotDisciplined(r, i)
    {
      InvSlot(kind, r, i);
    }
  }

  lemma WindowSlotOwned(kind: Kind, r: DescRing, k: nat)
    requires SynDescRing.Inv(kind, r) && k < r.count
    ensures OwnedByDma(r.desc[Idx(r.busy, k)]) <==> Completed(Window(kind, r)) <= k
  {
    Unfold(kind, r);
    OwnedIffDma(kind, r, Idx(r.busy, k));
    assert Window(kind, r)[k] == Slots(kind, r).slots[Idx(r.busy, k)];
  }

  lemma DmaAtBoundary(kind: Kind, r: DescRing)
    requires SynDescRing.Inv(kind, r)
    ensures r.dma == (r.busy + Completed(Window(kind, r))) % RING_SIZE
  {
    Unfold(kind, r);
    IdxIsModulo(r.busy, Completed(Window(kind, r)));
  }

  lemma InvSplitsOwnership(kind: Kind, r: DescRing)
    requires SynDescRing.Inv(kind, r)
    ensures Disciplined(r) && OwnershipSplit(r, Completed(Window(kind, r)))
  {
    InvIsDisciplined(kind, r);
    forall k | 0 <= k < r.count
      ensures OwnedByDma(r.desc[Idx(r.busy, k)]) <==> Completed(Window(kind, r)) <= k
    {
      WindowSlotOwned(kind, r, k);
    }
    DmaAtBoundary(kind, r);
  }

  /** In every run both rings keep the discipline and the ownership split. */
  lemma EveryRunDisciplined(es: seq<Event>)
    ensures var d := After(es);
            && Disciplined(d.rx) && Disciplined(d.tx)
            && (exists done :: OwnershipSplit(d.rx, done))
            && (exists done :: OwnershipSplit(d.tx, done))
  {
    var d := After(es);
    InvSplitsOwnership(Rx, d.rx);
    InvSplitsOwnership(Tx, d.tx);
  }

  /** In every run exactly the last descriptor of each ring carries its
      end-of-ring bit. */
  lemma EveryRunMarksRingEnd(es: seq<Event>, i: nat)
    requires i < RING_SIZE
    ensures var d := After(es);
            && |d.rx.desc| == RING_SIZE && |d.tx.desc| == RING_SIZE
            && (d.rx.desc[i].length & RX_END_OF_RING != 0 <==> i == RING_SIZE - 1)
            && (d.tx.desc[i].status & TX_END_OF_RING != 0 <==> i == RING_SIZE - 1)
  {
    var d := After(es);
    Unfold(Rx, d.rx);
    Unfold(Tx, d.tx);
    EndOfRingOnlyLast(Rx, d.rx, i);
    EndOfRingOnlyLast(Tx, d.tx, i);
  }

  /** None of the ring BUG_ONs can fire: a refill turn, the locked enqueue of
      an admitted skb, and the release of a completed head all find what they
      insist on. */
  lemma EveryRunBugFree(es: seq<Event>)
    ensures var d := After(es);
            && (d.rx.count < RING_SIZE ==> NoBugOnSet(d.rx))
            && (d.pending.Some? ==> NoBugOnSet(d.tx))
            && Sized(d.rx) && (Reapable(d.rx) ==> d.rx.skb[d.rx.busy].Some?)
            && Sized(d.tx) && (Reapable(d.tx) ==> d.tx.skb[d.tx.busy].Some?)
  {
    var d := After(es);
    if d.rx.count < RING_SIZE {
      SetQptrPosts(Rx, d.rx, 0, 0, false, 0);
    }
    if d.pending.Some? {
      SetQptrPosts(Tx, d.tx, 0, 0, false, 0);
    }
    ReapRingPops(Rx, d.rx);
    ReapRingPops(Tx, d.tx);
  }

  // ---------------------------------------------------- first in, first out

  function OutSkbs(out: seq<RxOutcome>): (s: seq<Skb>)
    ensures |s| == |out|
  {
    seq(|out|, k requires 0 <= k < |out| => out[k].skb)
  }

  function BufferSkbs(reqs: seq<RxReq>): (s: seq<Skb>)
    ensures |s| == |reqs|
  {
    seq(|reqs|, k requires 0 <= k < |reqs| => reqs[k].skb)
  }

  function ReqSkbs(reqs: seq<TxReq>): (s: seq<Skb>)
    ensures |s| == |reqs|
  {
    seq(|reqs|, k requires 0 <= k < |reqs| => reqs[k].skb)
  }

  function RingSkbs(r: DescRing): (s: seq<Skb>)
    requires Disciplined(r)
  {
    seq(r.count, k requires 0 <= k < r.count =>
      assert SlotDisciplined(r, Idx(r.busy, k)); r.skb[Idx(r.busy, k)].value)
  }

  /** The buffers a run handed to the receive DMA, in order. */
  function RxPosted(es: seq<Event>): seq<RxReq> { SynFifo.Run(EMPTY, es).rxPosted }

  /** The requests a run handed to the transmit DMA, in order. */
  function TxPosted(es: seq<Event>): seq<TxReq> { SynFifo.Run(EMPTY, es).txPosted }

  /** From history `h` to `h'` the buffers `rx` were handed to the receive DMA and the
      requests `tx` to the transmit DMA.  This sits behind a quantifier that only
      `HandedIff` instantiates, so that driver routines carry it unopened. */
  ghost predicate Handed(h: seq<Event>, h': seq<Event>, rx: seq<RxReq>, tx: seq<TxReq>) {
    forall u: bool {:trigger Compared(h, h', u)} ::
      Compared(h, h', u) ==> RxPosted(h') == RxPosted(h) + rx && TxPosted(h') == TxPosted(h) + tx
  }

  predicate Compared(h: seq<Event>, h': seq<Event>, u: bool) { true }

  lemma HandedIff(h: seq<Event>, h': seq<Event>, rx: seq<RxReq>, tx: seq<TxReq>)
    ensures Handed(h, h', rx, tx) <==> RxPosted(h') == RxPosted(h) + rx && TxPosted(h') == TxPosted(h) + tx
  {
    assert Compared(h, h', true);
  }

  lemma HandedOn(h0: seq<Event>, h1: seq<Event>, h2: seq<Event>, rx: seq<RxReq>, tx: seq<TxReq>)
    requires Handed(h0, h1, [], []) && Handed(h1, h2, rx, tx)
    ensures Handed(h0, h2, rx, tx)
  {
    HandedIff(h0, h1, [], []);
    HandedIff(h1, h2, rx, tx);
  }

  predicate HandsNothing(e: Event) { !e.RefillPost? && !e.TxCommit? }

  lemma {:induction false} QuietRun(s: Spec, es: seq<Event>)
    requires forall k :: 0 <= k < |es| ==> HandsNothing(es[k])
    ensures SynFifo.Run(s, es).rxPosted == s.rxPosted && SynFifo.Run(s, es).txPosted == s.txPosted
  {
    if es != [] {
      QuietRun(s, es[..|es| - 1]);
      QuietStep(SynFifo.Run(s, es[..|es| - 1]), es[|es| - 1]);
    }
  }

  lemma QuietStep(s: Spec, e: Event)
    requires HandsNothing(e)
    ensures SynFifo.Step(s, e).rxPosted == s.rxPosted && SynFifo.Step(s, e).txPosted == s.txPosted
  {
  }

  /** Only refills and enqueues hand anything over. */
  lemma QuietHands(h: seq<Event>, es: seq<Event>)
    requires forall k :: 0 <= k < |es| ==> HandsNothing(es[k])
    ensures Handed(h, h + es, [], [])
  {
    RunOn(EMPTY, h, es);
    QuietRun(SynFifo.Run(EMPTY, h), es);
  }

  lemma RxLedger(r: DescRing, out: seq<RxOutcome>, posted: seq<RxReq>, done: seq<Item>)
    requires SynDescRing.Inv(Rx, r)
    requires RxOutputs(out, done) && RxOrder(posted, done, Window(Rx, r))
    ensures Disciplined(r) && BufferSkbs(posted) == OutSkbs(out) + RingSkbs(r)
  {
    RingSkbsAreQueued(Rx, r);
    forall k | 0 <= k < |posted| ensures posted[k].skb == (OutSkbs(out) + RingSkbs(r))[k] {
      if k < |out| {
        assert Holds(done[k], posted[k]);
      } else {
        var j := k - |out|;
        assert Holds(Window(Rx, r)[j].item, posted[|done| + j]) && Window(Rx, r)[j].item.skb == RingSkbs(r)[j];
      }
    }
  }

  lemma TxLedger(r: DescRing, freed: seq<Skb>, posted: seq<TxReq>, done: seq<Item>)
    requires SynDescRing.Inv(Tx, r)
    requires TxOutputs(freed, done) && TxOrder(posted, done, Window(Tx, r))
    ensures Disciplined(r) && ReqSkbs(posted) == freed + RingSkbs(r)
  {
    RingSkbsAreQueued(Tx, r);
    forall k | 0 <= k < |posted| ensures posted[k].skb == (freed + RingSkbs(r))[k] {
      if k < |freed| {
        assert Carries(done[k], posted[k]);
      } else {
        var j := k - |freed|;
        assert Carries(Window(Tx, r)[j].item, posted[|done| + j]) && Window(Tx, r)[j].item.skb == RingSkbs(r)[j];
      }
    }
  }

  /** Every skb handed to the receive ring is, at its own place in the order
      of hand-over, either already passed up or freed (once) or still in the
      ring. */
  lemma EveryRunRxInOrder(es: seq<Event>)
    ensures var d := After(es);
            && Disciplined(d.rx)
            && BufferSkbs(RxPosted(es)) == OutSkbs(d.rxOut) + RingSkbs(d.rx)
  {
    var d, s := After(es), SynFifo.Run(EMPTY, es);
    EveryRunIsFifo(es);
    RxLedger(d.rx, d.rxOut, s.rxPosted, s.rxDone);
  }

  lemma RingSkbsAreQueued(kind: Kind, r: DescRing)
    requires SynDescRing.Inv(kind, r)
    ensures Disciplined(r)
    ensures forall k :: 0 <= k < r.count ==>
              !Window(kind, r)[k].Free? && RingSkbs(r)[k] == Window(kind, r)[k].item.skb
  {
    InvIsDisciplined(kind, r);
    Unfold(kind, r);
    var v, q := Slots(kind, r), Window(kind, r);
    forall k | 0 <= k < r.count ensures !q[k].Free? && RingSkbs(r)[k] == q[k].item.skb {
      assert q[k] == v.slots[Idx(r.busy, k)];
    }
  }

  /** The transmit side in the same way: skbs are freed in the order in which
      they were enqueued, each once, and the rest is in the ring. */
  lemma EveryRunTxInOrder(es: seq<Event>)
    ensures var d := After(es);
            && Disciplined(d.tx)
            && ReqSkbs(TxPosted(es)) == d.txFreed + RingSkbs(d.tx)
  {
    var d, s := After(es), SynFifo.Run(EMPTY, es);
    EveryRunIsFifo(es);
    TxLedger(d.tx, d.txFreed, s.txPosted, s.txDone);
  }

  // ------------------------------------------------- what the DMA is told

  lemma SlotFrame(kind: Kind, r: DescRing, k: nat)
    requires SynDescRing.Inv(kind, r) && k < r.count
    ensures !Window(kind, r)[k].Free? && Window(kind, r)[k].item.frame == FrameOf(kind, r.desc[Idx(r.busy, k)])
  {
    RingSkbsAreQueued(kind, r);
    Unfold(kind, r);
    assert Window(kind, r)[k] == Slots(kind, r).slots[Idx(r.busy, k)];
  }

  lemma RxFramesAsked(es: seq<Event>, k: nat)
    requires k < After(es).rx.count
    ensures var d := After(es);
            && |d.rxOut| + k < |RxPosted(es)|
            && FrameOf(Rx, d.rx.desc[Idx(d.rx.busy, k)]) == Asked(Rx, RxPosted(es)[|d.rxOut| + k].buffer, 1978, false)
  {
    var d, s := After(es), SynFifo.Run(EMPTY, es);
    EveryRunIsFifo(es);
    SlotFrame(Rx, d.rx, k);
    assert Holds(Window(Rx, d.rx)[k].item, s.rxPosted[|s.rxDone| + k]);
  }

  /** In every run the descriptor of each buffer the receive DMA holds names the
      address that was mapped for it and room for 1978 bytes, in one buffer. */
  lemma EveryRunRxAddresses(es: seq<Event>, k: nat)
    requires k < After(es).rx.count
    ensures var d := After(es);
            && |d.rxOut| + k < |RxPosted(es)|
            && var desc, req := d.rx.desc[Idx(d.rx.busy, k)], RxPosted(es)[|d.rxOut| + k];
            && desc.buffer1 == req.buffer && desc.data1 == 0
            && Size1(desc.length) == 1978 && Size2(desc.length) == 0
  {
    var d := After(es);
    RxFramesAsked(es, k);
    AskedWords(Rx, d.rx.desc[Idx(d.rx.busy, k)], RxPosted(es)[|d.rxOut| + k].buffer, 1978, false);
  }

  lemma TxFramesAsked(es: seq<Event>, k: nat)
    requires k < After(es).tx.count
    ensures var d := After(es);
            && |d.txFreed| + k < |TxPosted(es)|
            && var req := TxPosted(es)[|d.txFreed| + k];
            FrameOf(Tx, d.tx.desc[Idx(d.tx.busy, k)]) == Asked(Tx, req.buffer, req.len, req.offload)
  {
    var d, s := After(es), SynFifo.Run(EMPTY, es);
    EveryRunIsFifo(es);
    SlotFrame(Tx, d.tx, k);
    assert Carries(Window(Tx, d.tx)[k].item, s.txPosted[|s.txDone| + k]);
  }

  /** In every run the descriptor of each request the transmit DMA holds names the
      address of its data: up to 8191 bytes in the first buffer, the rest right
      behind it in the second; one whole frame, an interrupt on completion, and
      checksum offload exactly if asked for. */
  lemma EveryRunTxAddresses(es: seq<Event>, k: nat)
    requires k < After(es).tx.count
    ensures var d := After(es);
            && |d.txFreed| + k < |TxPosted(es)|
            && var desc, req := d.tx.desc[Idx(d.tx.busy, k)], TxPosted(es)[|d.txFreed| + k];
            && desc.buffer1 == req.buffer && desc.data1 == SecondAddress(req.buffer, req.len)
            && Size1(desc.length) == FirstBytes(req.len) && Size2(desc.length) == SecondBytes(req.len)
            && ControlOf(desc.status) == if req.offload then 0x70C0_0000 else 0x7000_0000
  {
    var d := After(es);
    TxFramesAsked(es, k);
    var req := TxPosted(es)[|d.txFreed| + k];
    AskedWords(Tx, d.tx.desc[Idx(d.tx.busy, k)], req.buffer, req.len, req.offload);
  }

  // ------------------------------------------------------------ conservation

  /** Skbs the refill loop allocated in a run. */
  function Allocated(es: seq<Event>): multiset<Skb> {
    multiset(BufferSkbs(RxPosted(es))) + multiset(SynFifo.Run(EMPTY, es).rxUnmapped)
  }

  function PassedUp(out: seq<RxOutcome>): multiset<Skb> {
    if out == [] then multiset{}
    else
      var o := out[|out| - 1];
      PassedUp(out[..|out| - 1]) + if o.Delivered? then multiset{o.skb} else multiset{}
  }

  function FreedOnError(out: seq<RxOutcome>): multiset<Skb> {
    if out == [] then multiset{}
    else
      var o := out[|out| - 1];
      FreedOnError(out[..|out| - 1]) + if o.Dropped? then multiset{o.skb} else multiset{}
  }

  lemma {:induction false} OutcomesPartition(out: seq<RxOutcome>)
    ensures multiset(OutSkbs(out)) == PassedUp(out) + FreedOnError(out)
  {
    if out != [] {
      var init, o := out[..|out| - 1], out[|out| - 1];
      OutcomesPartition(init);
      assert OutSkbs(out) == OutSkbs(init) + [o.skb];
    }
  }

  /** Nothing is lost and nothing appears: at every reachable state the skbs
      allocated for receive are those in the ring, those passed up, and those
      freed because of a bad frame or a failed mapping. */
  lemma EveryRunConservesRx(es: seq<Event>)
    ensures var d := After(es);
            && Disciplined(d.rx)
            && Allocated(es) == multiset(RingSkbs(d.rx)) + PassedUp(d.rxOut) + FreedOnError(d.rxOut)
                                + multiset(d.rxUnmapped)
  {
    var d := After(es);
    EveryRunRxInOrder(es);
    EveryRunIsFifo(es);
    OutcomesPartition(d.rxOut);
  }

  /** Over every run the counters are exact counts of the descriptors taken
      back; transmitted bytes are the first-buffer bytes of the error-free
      frames among the requests completed so far. */
  lemma EveryRunCounts(es: seq<Event>)
    ensures var d, s := After(es), SynFifo.Run(EMPTY, es);
            && d.rxStats.packets + d.rxStats.errors == |d.rxOut|
            && d.txStats.packets + d.txStats.errors == |d.txFreed|
            && (forall k :: 0 <= k < |d.rxStats.causes| ==> d.rxStats.causes[k] <= d.rxStats.errors)
            && (forall k :: 0 <= k < |d.txStats.causes| ==> d.txStats.causes[k] <= d.txStats.errors)
            && RxTally(d.rxStats, s.rxDone)
            && TxTally(d.txStats, s.txDone)
            && |s.txDone| == |d.txFreed| <= |s.txPosted|
            && (forall k :: 0 <= k < |s.txDone| ==> Carries(s.txDone[k], s.txPosted[k]))
  {
    var d, s := After(es), SynFifo.Run(EMPTY, es);
    EveryRunIsFifo(es);
    RxCountersConserve(d.rxStats, s.rxDone);
    TxCountersConserve(d.txStats, s.txDone);
  }

  // -------------------------------------------------- outcomes and counters

  function DeliveredCount(out: seq<RxOutcome>): nat {
    if out == [] then 0 else DeliveredCount(out[..|out| - 1]) + if out[|out| - 1].Delivered? then 1 else 0
  }

  function DroppedCount(out: seq<RxOutcome>): nat {
    if out == [] then 0 else DroppedCount(out[..|out| - 1]) + if out[|out| - 1].Dropped? then 1 else 0
  }

  function DeliveredBytes(out: seq<RxOutcome>): int {
    if out == [] then 0
    else DeliveredBytes(out[..|out| - 1]) + if out[|out| - 1].Delivered? then out[|out| - 1].bytes else 0
  }

  lemma {:induction false} OutcomesTally(out: seq<RxOutcome>, done: seq<Item>)
    requires RxOutputs(out, done)
    ensures DeliveredCount(out) == Sum(done, RxGood) && DroppedCount(out) == Sum(done, RxBad)
    ensures DeliveredBytes(out) == Sum(done, RxPayload)
  {
    if out != [] {
      var n := |out| - 1;
      OutcomesTally(out[..n], done[..n]);
      assert out[n] == Due(done[n]);
    }
  }

  /** In every run the packets counted are the frames passed up, the bytes
      counted are theirs, and the errors counted are the frames freed. */
  lemma EveryRunOutcomesCounted(es: seq<Event>)
    ensures var d := After(es);
            && d.rxStats.packets == DeliveredCount(d.rxOut)
            && d.rxStats.errors == DroppedCount(d.rxOut)
            && d.rxStats.bytes == DeliveredBytes(d.rxOut)
  {
    var d, s := After(es), SynFifo.Run(EMPTY, es);
    EveryRunIsFifo(es);
    OutcomesTally(d.rxOut, s.rxDone);
  }

  /** Bytes of the requests completed without error, 8191 at most of each. */
  function SentBytes(done: seq<Item>, posted: seq<TxReq>): nat
    requires |done| <= |posted|
  {
    if done == [] then 0
    else
      var n := |done| - 1;
      var len := Value(posted[n].len);
      SentBytes(done[..n], posted)
      + if done[n].report & 0x8000 != 0 then 0 else if len > 8191 then 8191 else len
  }

  lemma {:induction false} SentBytesTally(done: seq<Item>, posted: seq<TxReq>)
    requires |done| <= |posted| && forall k :: 0 <= k < |done| ==> Carries(done[k], posted[k])
    ensures Sum(done, TxPayload) == SentBytes(done, posted)
  {
    if done != [] {
      var n := |done| - 1;
      SentBytesTally(done[..n], posted);
      assert Carries(done[n], posted[n]);
      ValueCut(posted[n].len);
    }
  }

  /** In every run tx_bytes is the sum of the lengths of the requests completed
      without error, each cut at what its first buffer can hold. */
  lemma EveryRunSentBytes(es: seq<Event>)
    ensures var d, s := After(es), SynFifo.Run(EMPTY, es);
            && |s.txDone| == |d.txFreed| <= |TxPosted(es)|
            && d.txStats.bytes == SentBytes(s.txDone, TxPosted(es))
  {
    var d, s := After(es), SynFifo.Run(EMPTY, es);
    EveryRunIsFifo(es);
    SentBytesTally(s.txDone, s.txPosted);
  }

  lemma AdmissionStays(d: Dev, e: Event)
    requires DevInv(d) && d.pending.Some? && !e.TxCommit?
    ensures DevStep(d, e).pending == d.pending
  {
  }

  /** The unlocked room check: once a transmitter has been admitted, no step
      but its own enqueue ends the admission, and there is room all along. */
  lemma {:induction false} AdmissionKeepsRoom(d: Dev, rest: seq<Event>)
    requires DevInv(d) && d.pending.Some?
    requires TxCommit !in rest
    ensures DevRun(d, rest).pending == d.pending
    ensures DevRun(d, rest).tx.count < RING_SIZE
  {
    if rest != [] {
      AdmissionKeepsRoom(d, rest[..|rest| - 1]);
      AdmissionStays(DevRun(d, rest[..|rest| - 1]), rest[|rest| - 1]);
    }
  }
}

/** The Synopsys data plane of one port as the driver keeps it: mutable
    descriptor arrays, skb lists, indices and counters, updated in place by the
    driver routines and by the DMA engine.

    Each routine is proved to perform exactly the steps of `SynDevice` its
    contract names and appends them to `history`; that the object is what the
    run `history` makes of the device after set-up is part of `Valid`.  So what
    `SynRuns` says of runs holds of the object after any sequence of calls:
    see `KeepsOrder`, `Conserves` and `Counts`.  The BUG_ONs of the driver
    appear as assertions. */
module SynDataPlane {
  import opened Wrappers
  import opened WordValue
  import opened RingIndex
  import opened SynDmaDesc
  import opened SlotRing
  import opened SynDescRing
  import opened SynStats
  import opened SynFifo
  import opened SynDevice
  import opened SynDrain
  import SynRuns

  lemma ClearedByItself(x: bv32)
    ensures x & !x == 0
  {
  }

  /** What one step hands to either DMA. */
  function RxHanded(d: Dev, e: Event): seq<RxReq> {
    if e.RefillPost? && d.rx.count < RING_SIZE then [RxReq(e.refilled, e.buffer)] else []
  }

  function TxHanded(d: Dev, e: Event): seq<TxReq> {
    if e.TxCommit? && d.pending.Some? then [d.pending.value] else []
  }

  lemma StepHands(h: seq<Event>, d: Dev, e: Event)
    requires Runs(SetUp(), h, d) && DevInv(d)
    ensures SynRuns.Handed(h, h + [e], RxHanded(d, e), TxHanded(d, e))
  {
    QueuedAfter(h, d);
    RunLast(EMPTY, h, e);
    SpecHands(SynFifo.Run(EMPTY, h), d, e);
  }

  lemma SpecHands(s: Spec, d: Dev, e: Event)
    requires |s.rx| == d.rx.count && s.pending == d.pending
    ensures SynFifo.Step(s, e).rxPosted == s.rxPosted + RxHanded(d, e)
    ensures SynFifo.Step(s, e).txPosted == s.txPosted + TxHanded(d, e)
  {
    if SynRuns.HandsNothing(e) {
      SynRuns.QuietStep(s, e);
    }
  }

  lemma Regroup(h: seq<Event>, a: seq<Event>, b: seq<Event>, c: seq<Event>)
    ensures h + (a + b + c) == h + a + b + c
  {
  }

  /** What a poll does from device `d` and history `h`: the completed prefix of the
      transmit ring taken back (to `d1`), the receive loop within its budget (to
      `d2`), the refill; together one run, which hands over what the refill could
      map and nothing to transmit. */
  ghost predicate Polled(d: Dev, d1: Dev, d2: Dev, d3: Dev, h: seq<Event>, h': seq<Event>,
                         budget: int, allocs: seq<Alloc>)
  {
    && Parts(d, d1, d2, d3, budget, allocs)
    && Runs(d, PollTrace(d, budget, allocs), d3)
    && h' == h + PollTrace(d, budget, allocs)
    && SynRuns.Handed(h, h', PostsOf(RefillTrace(allocs, RING_SIZE - d2.rx.count)), [])
  }

  ghost predicate Parts(d: Dev, d1: Dev, d2: Dev, d3: Dev, budget: int, allocs: seq<Alloc>) {
    && DevInv(d) && DevInv(d1) && DevInv(d2) && d1.rx == d.rx
    && Runs(d, Repeat(TxReap, Completed(Window(Tx, d.tx))), d1)
    && Runs(d1, Repeat(RxReap, RxRemoved(Window(Rx, d1.rx), budget)), d2)
    && d2.rx.count == d1.rx.count - RxRemoved(Window(Rx, d1.rx), budget)
    && Runs(d2, RefillTrace(allocs, RING_SIZE - d2.rx.count), d3)
  }

  lemma PollComposes(d: Dev, d1: Dev, d2: Dev, d3: Dev, h: seq<Event>, h': seq<Event>, budget: int, allocs: seq<Alloc>)
    requires Parts(d, d1, d2, d3, budget, allocs) && Runs(SetUp(), h, d)
    requires h' == h + Repeat(TxReap, Completed(Window(Tx, d.tx))) + Repeat(RxReap, RxRemoved(Window(Rx, d1.rx), budget))
                   + RefillTrace(allocs, RING_SIZE - d2.rx.count)
    ensures Polled(d, d1, d2, d3, h, h', budget, allocs)
  {
    var a := Repeat(TxReap, Completed(Window(Tx, d.tx)));
    var b := Repeat(RxReap, RxRemoved(Window(Rx, d1.rx), budget));
    var c := RefillTrace(allocs, RING_SIZE - d2.rx.count);
    RunsOn(d, a, d1, b, d2);
    RunsOn(d, a + b, d2, c, d3);
    assert PollTrace(d, budget, allocs) == a + b + c;
    Regroup(h, a, b, c);
    RefillHands(h, a + b, d, d2, allocs);
  }

  /** Turns that hand nothing over, then a refill. */
  lemma RefillHands(h: seq<Event>, es: seq<Event>, d: Dev, d2: Dev, allocs: seq<Alloc>)
    requires Runs(SetUp(), h, d) && Runs(d, es, d2) && DevInv(d2)
    requires forall k :: 0 <= k < |es| ==> SynRuns.HandsNothing(es[k])
    ensures var c := RefillTrace(allocs, RING_SIZE - d2.rx.count); SynRuns.Handed(h, h + (es + c), PostsOf(c), [])
  {
    var c := RefillTrace(allocs, RING_SIZE - d2.rx.count);
    RunsOn(SetUp(), h, d, es, d2);
    SynRuns.QuietHands(h, es);
    QueuedAfter(h + es, d2);
    TraceHandsOver(h + es, allocs, RING_SIZE - d2.rx.count);
    Rejoin(h, es, c);
    SynRuns.HandedOn(h, h + es, h + es + c, PostsOf(c), []);
  }

  lemma Rejoin(h: seq<Event>, a: seq<Event>, b: seq<Event>)
    ensures h + (a + b) == h + a + b
  {
  }

  class DpInfo {
    const rxDesc: array<Desc>
    const rxSkb: array<Option<Skb>>
    var rxBusy: nat
    var rxNext: nat
    var rxBusyDesc: nat
    var rxNextDesc: nat
    var busyRxDesc: nat

    const txDesc: array<Desc>
    const txSkb: array<Option<Skb>>
    var txBusy: nat
    var txNext: nat
    var txBusyDesc: nat
    var txNextDesc: nat
    var busyTxDesc: nat

    var rxStats: RxStats
    var txStats: TxStats

    // Outputs of the driver, in order.
    var rxOut: seq<RxOutcome>
    var rxUnmapped: seq<Skb>
    var txFreed: seq<Skb>

    // The transmitter between its room check and its enqueue.
    var pending: Option<TxReq>

    // The DMA engine's position in each ring.
    var rxDma: nat
    var txDma: nat

    // Status register and interrupt enable of the DMA, and the NAPI schedule bit.
    var dmaStatus: bv32
    var irqEnabled: bool
    var napiScheduled: bool

    // Every step taken on the object since ring set-up.
    ghost var history: seq<Event>

    ghost predicate Separate() {
      rxDesc != txDesc && rxSkb != txSkb
    }

    function RxRing(): DescRing
      reads this`rxBusy, this`rxNext, this`rxBusyDesc, this`rxNextDesc, this`busyRxDesc, this`rxDma
      reads rxDesc, rxSkb
    {
      DescRing(rxDesc[..], rxSkb[..], rxBusy, rxNext, rxBusyDesc, rxNextDesc, busyRxDesc, rxDma)
    }

    function TxRing(): DescRing
      reads this`txBusy, this`txNext, this`txBusyDesc, this`txNextDesc, this`busyTxDesc, this`txDma
      reads txDesc, txSkb
    {
      DescRing(txDesc[..], txSkb[..], txBusy, txNext, txBusyDesc, txNextDesc, busyTxDesc, txDma)
    }

    function View(): Dev
      reads this`rxBusy, this`rxNext, this`rxBusyDesc, this`rxNextDesc, this`busyRxDesc, this`rxDma
      reads this`txBusy, this`txNext, this`txBusyDesc, this`txNextDesc, this`busyTxDesc, this`txDma
      reads this`pending, this`rxStats, this`txStats, this`rxOut, this`rxUnmapped, this`txFreed
      reads rxDesc, rxSkb, txDesc, txSkb
    {
      Dev(RxRing(), TxRing(), pending, rxStats, txStats, rxOut, rxUnmapped, txFreed)
    }

    ghost predicate Valid()
      reads this`rxBusy, this`rxNext, this`rxBusyDesc, this`rxNextDesc, this`busyRxDesc, this`rxDma
      reads this`txBusy, this`txNext, this`txBusyDesc, this`txNextDesc, this`busyTxDesc, this`txDma
      reads this`pending, this`rxStats, this`txStats, this`rxOut, this`rxUnmapped, this`txFreed
      reads rxDesc, rxSkb, txDesc, txSkb, this`history
    {
      Separate() && DevInv(View()) && Runs(SetUp(), history, View())
    }

    /** Puts a step just taken, from `d`, on record. */
    ghost method Log(d: Dev, e: Event)
      requires Separate() && DevInv(d) && Runs(SetUp(), history, d) && View() == DevStep(d, e)
      modifies this`history
      ensures Valid() && history == old(history) + [e]
      ensures SynRuns.Handed(old(history), history, RxHanded(d, e), TxHanded(d, e))
    {
      StepHands(history, d, e);
      RunsNext(SetUp(), history, d, e);
      history := history + [e];
    }

    /** `syn_dp_setup_rx_desc_queue` and `syn_dp_setup_tx_desc_queue`: zeroed
        descriptors with the end-of-ring bit in the last one. */
    constructor ()
      ensures Separate() && View() == SetUp()
      ensures Valid() && history == []
      ensures irqEnabled && !napiScheduled && dmaStatus == 0
      ensures fresh(rxDesc) && fresh(rxSkb) && fresh(txDesc) && fresh(txSkb)
    {
      rxDesc := new Desc[RING_SIZE](i => Initial(Rx, i == RING_SIZE - 1));
      rxSkb := new Option<Skb>[RING_SIZE](_ => None);
      txDesc := new Desc[RING_SIZE](i => Initial(Tx, i == RING_SIZE - 1));
      txSkb := new Option<Skb>[RING_SIZE](_ => None);
      rxBusy, rxNext, rxBusyDesc, rxNextDesc, busyRxDesc, rxDma := 0, 0, 0, 0, 0, 0;
      txBusy, txNext, txBusyDesc, txNextDesc, busyTxDesc, txDma := 0, 0, 0, 0, 0, 0;
      rxStats, txStats := NO_RX, NO_TX;
      rxOut, rxUnmapped, txFreed, pending := [], [], [], None;
      dmaStatus, irqEnabled, napiScheduled, history := 0, true, false, [];
      new;
      assert RxRing() == InitialRing(Rx);
      assert TxRing() == InitialRing(Tx);
      assert View() == SetUp();
      RunsIff(SetUp(), [], SetUp());
    }

    // ------------------------------------------------------ receive ring

    /** `syn_dp_reset_rx_qptr`. */
    method ResetRxQptr()
      requires Separate() && Sized(RxRing()) && busyRxDesc > 0
      modifies this`rxBusy, this`rxBusyDesc, this`busyRxDesc, rxDesc, rxSkb
      ensures RxRing() == ResetQptr(Rx, old(RxRing()))
      ensures TxRing() == old(TxRing())
    {
      var rxnext, desc := rxBusy, rxBusyDesc;
      assert desc == rxnext;  // BUG_ON(rxdesc != (rx_desc + rxnext))
      MaskStep(rxnext);
      rxBusy := BitAnd(rxnext + 1, RING_SIZE - 1);
      rxBusyDesc := rxBusy;

      rxSkb[rxnext] := None;
      var d := rxDesc[desc];
      rxDesc[desc] := d.(status := 0, length := d.length & RX_END_OF_RING,
                         buffer1 := 0, data1 := 0, reserved1 := 0);
      busyRxDesc := busyRxDesc - 1;
    }

    /** The descriptor words of `syn_dp_set_rx_qptr`, in the order written. */
    static method ArmRx(desc: Desc, buffer: bv32, len: bv32) returns (d: Desc)
      ensures d == RxArmed(desc, buffer, len)
    {
      d := desc.(length := PackLength(desc.length, len));
      d := d.(buffer1 := buffer);
      d := d.(data1 := SecondBuffer(buffer, len));
      d := d.(extstatus := 0, timestampLow := 0, timestampHigh := 0);
      d := d.(status := OWN_BY_DMA);
    }

    /** `syn_dp_set_rx_qptr`. */
    method SetRxQptr(buffer: bv32, len: bv32, skb: Skb)
      requires Separate() && SynDescRing.Inv(Rx, RxRing()) && busyRxDesc < RING_SIZE
      modifies this`rxNext, this`rxNextDesc, this`busyRxDesc, rxDesc, rxSkb
      ensures RxRing() == SetQptr(Rx, old(RxRing()), buffer, len, false, skb)
      ensures TxRing() == old(TxRing())
    {
      var rxnext, desc := rxNext, rxNextDesc;
      SetQptrPosts(Rx, RxRing(), buffer, len, false, skb);
      assert busyRxDesc < RING_SIZE;         // BUG_ON(busy_rx_desc >= rx_desc_count)
      assert desc == rxnext;                 // BUG_ON(rxdesc != (rx_desc + rxnext))
      assert IsEmpty(rxDesc[desc]);          // BUG_ON(!syn_dp_gmac_is_desc_empty(rxdesc))
      assert !OwnedByDma(rxDesc[desc]);      // BUG_ON(syn_dp_gmac_is_desc_owned_by_dma(rxdesc))

      var d := ArmRx(rxDesc[desc], buffer, len);
      rxDesc[desc] := d;
      rxSkb[rxnext] := Some(skb);

      MaskStep(rxnext);
      rxNext := BitAnd(rxnext + 1, RING_SIZE - 1);
      rxNextDesc := rxNext;
      busyRxDesc := busyRxDesc + 1;
    }

    /** A turn of `syn_dp_rx_refill` with an skb it could map. */
    method RefillMapped(skb: Skb, buffer: bv32)
      requires Valid() && busyRxDesc < RING_SIZE
      modifies this`rxNext, this`rxNextDesc, this`busyRxDesc, this`history, rxDesc, rxSkb
      ensures Valid() && View() == DevStep(old(View()), RefillPost(skb, buffer))
      ensures history == old(history) + [RefillPost(skb, buffer)]
      ensures SynRuns.Handed(old(history), history, [RxReq(skb, buffer)], [])
      ensures busyRxDesc == old(busyRxDesc) + 1
    {
      ghost var d := View();
      SetRxQptr(buffer, MINI_JUMBO_FRAME_MTU, skb);
      assert View() == Refill(d, skb, buffer);
      RefillDispatch(d, skb, buffer);
      Log(d, RefillPost(skb, buffer));
    }

    /** A turn of `syn_dp_rx_refill` whose mapping failed. */
    method RefillFreed(skb: Skb)
      requires Valid() && busyRxDesc < RING_SIZE
      modifies this`rxUnmapped, this`history
      ensures Valid() && View() == DevStep(old(View()), RefillUnmapped(skb))
      ensures history == old(history) + [RefillUnmapped(skb)]
      ensures SynRuns.Handed(old(history), history, [], [])
    {
      ghost var d := View();
      UnmappedDispatch(d, skb);
      rxUnmapped := rxUnmapped + [skb];
      Log(d, RefillUnmapped(skb));
    }

    /** `syn_dp_rx_refill`.  What the allocator and the mapping answer in each
        turn is given by `allocs`; past its end there is no more memory. */
    method RxRefill(allocs: seq<Alloc>)
      requires Valid()
      modifies this`rxNext, this`rxNextDesc, this`busyRxDesc, this`rxUnmapped, this`history, rxDesc, rxSkb
      ensures Valid()
      ensures var d := old(View()); Runs(d, RefillTrace(allocs, RING_SIZE - d.rx.count), View())
      ensures history == old(history) + RefillTrace(allocs, RING_SIZE - old(busyRxDesc))
      ensures SynRuns.Handed(old(history), history, PostsOf(RefillTrace(allocs, RING_SIZE - old(busyRxDesc))), [])
    {
      var emptyCount := RING_SIZE - busyRxDesc;
      QueuedAfter(history, View());
      TraceHandsOver(history, allocs, emptyCount);
      var i := 0;
      ghost var d0, trace := View(), [];
      RefillBegins(allocs, emptyCount, d0, history);
      while i < emptyCount
        invariant 0 <= i <= emptyCount && i <= |allocs|
        invariant Valid()
        invariant busyRxDesc == RING_SIZE - emptyCount + i
        invariant Refilling(allocs, emptyCount, i, trace, d0, old(history), View(), history)
      {
        if i == |allocs| || allocs[i].NoSkb? {
          break;
        }
        if allocs[i].Unmapped? {
          RefillFails(allocs, emptyCount, i, trace, d0, old(history), View(), history);
          RefillFreed(allocs[i].skb);
          return;
        }
        RefillNext(allocs, emptyCount, i, trace, d0, old(history), View(), history);
        RefillMapped(allocs[i].skb, allocs[i].buffer);
        trace := trace + [RefillEvent(allocs[i])];
        i := i + 1;
      }
      RefillStops(allocs, emptyCount, i, trace, d0, old(history), View(), history);
    }

    /** One turn of the loop of `syn_dp_rx`, at a head the DMA gave back. */
    method RxOne()
      requires Valid() && Reapable(RxRing())
      modifies this`rxBusy, this`rxBusyDesc, this`busyRxDesc, this`rxStats, this`rxOut, this`history, rxDesc, rxSkb
      ensures Valid() && View() == DevStep(old(View()), RxReap)
      ensures history == old(history) + [RxReap]
      ensures SynRuns.Handed(old(history), history, [], [])
    {
      ghost var d := View();
      RxStepIsTurn(d);
      var status := rxDesc[rxBusyDesc].status;
      var skb := rxSkb[rxBusy].value;
      RxAccount(status, skb);
      ResetRxQptr();
      assert View() == RxTurn(d);
      Log(d, RxReap);
    }

    /** The counters and the outcome of one received frame. */
    method RxAccount(status: bv32, skb: Skb)
      requires |rxStats.causes| == |RX_CAUSES|
      modifies this`rxStats, this`rxOut
      ensures rxStats == CountRx(old(rxStats), status)
      ensures rxOut == old(rxOut) + [OutcomeOf(skb, status)]
      ensures rxOut == old(rxOut) + [if GoodFrame(status) then Delivered(skb, Payload(status)) else Dropped(skb)]
    {
      RxValidIff(status);
      RxBytesIs(status);
      if RxValid(status) {
        rxStats := rxStats.(packets := rxStats.packets + 1, bytes := rxStats.bytes + RxBytes(status));
        rxOut := rxOut + [Delivered(skb, RxBytes(status))];
      } else {
        rxStats := rxStats.(errors := rxStats.errors + 1);
        rxOut := rxOut + [Dropped(skb)];
        if status & ANY_RX_CAUSE != 0 {
          rxStats := rxStats.(causes := AddCauses(rxStats.causes, RX_CAUSES, status));
        }
      }
    }

    /** Turn number `n` of a receive loop that began at device `d0` and history
        `h0`: taken exactly while completed slots are left. */
    method RxTurnOf(ghost d0: Dev, ghost h0: seq<Event>, ghost n: nat) returns (taken: bool)
      requires Valid() && Turned(d0, h0, RxReap, n, View(), history) && n <= Completed(Window(Rx, d0.rx))
      requires n < d0.rx.count
      modifies this`rxBusy, this`rxBusyDesc, this`busyRxDesc, this`rxStats, this`rxOut, this`history, rxDesc, rxSkb
      ensures Valid() && (taken <==> n < Completed(Window(Rx, d0.rx)))
      ensures Turned(d0, h0, RxReap, if taken then n + 1 else n, View(), history)
    {
      RxHeadAfter(d0, h0, n, View(), history);
      if OwnedByDma(rxDesc[rxBusyDesc]) {
        return false;
      }
      TurnedNext(d0, h0, RxReap, n, View(), history);
      RxOne();
      return true;
    }

    /** The loop of `syn_dp_rx` with allowance `allowed`, on a ring that is not
        empty: `n` turns, ended by a slot the DMA engine owns or by the
        allowance. */
    method RxLoop(allowed: int, ghost q: seq<Slot<Item>>) returns (busy: int, ghost n: nat)
      requires Valid() && q == Window(Rx, RxRing()) && q != [] && allowed <= |q|
      modifies this`rxBusy, this`rxBusyDesc, this`busyRxDesc, this`rxStats, this`rxOut, this`history, rxDesc, rxSkb
      ensures Valid() && Turned(old(View()), old(history), RxReap, n, View(), history)
      ensures n <= Completed(q) && busy == allowed - n && busyRxDesc == old(busyRxDesc) - n
      ensures n == Completed(q) || (n >= 1 && busy <= 0)
      ensures n <= 1 || busy >= 0
    {
      ghost var d0 := View();
      busy, n := allowed, 0;
      TurnedNone(d0, history, RxReap);
      var more := true;
      while more
        invariant Valid() && Turned(d0, old(history), RxReap, n, View(), history)
        invariant n <= Completed(q) && busy == allowed - n
        invariant if more then n < |q| && (n == 0 || busy > 0) else n == Completed(q) || (n >= 1 && busy <= 0)
        invariant n <= 1 || busy >= 0
        decreases more, Completed(q) - n
      {
        more := RxTurnOf(d0, old(history), n);
        if more {
          n := n + 1;
          busy := busy - 1;
          more := busy > 0;
        }
      }
      RxHeadAfter(d0, old(history), n, View(), history);
    }

    /** `syn_dp_rx`, for every budget: what it takes back and what it returns. */
    method Receive(budget: int) returns (work: int)
      requires Valid()
      modifies this`rxBusy, this`rxBusyDesc, this`busyRxDesc, this`rxStats, this`rxOut, this`history, rxDesc, rxSkb
      ensures Valid()
      ensures var d := old(View());
              Runs(d, Repeat(RxReap, RxRemoved(Window(Rx, d.rx), budget)), View())
      ensures var d := old(View());
              history == old(history) + Repeat(RxReap, RxRemoved(Window(Rx, d.rx), budget))
      ensures SynRuns.Handed(old(history), history, [], [])
      ensures var d := old(View());
              && busyRxDesc == d.rx.count - RxRemoved(Window(Rx, d.rx), budget)
              && work == RxWork(Window(Rx, d.rx), budget)
    {
      ghost var q := Window(Rx, RxRing());
      SynRuns.QuietHands(history, Repeat(RxReap, RxRemoved(q, budget)));
      if busyRxDesc == 0 {
        TurnedNone(View(), history, RxReap);
        TurnedIff(View(), history, RxReap, 0, View(), history);
        assert RxRemoved(q, budget) == 0 && RxWork(q, budget) == 0;
        return 0;
      }
      var busy, n := RxLoop(if busyRxDesc > budget then budget else busyRxDesc, q);
      RxLoopEnd(q, budget, n, busy);
      TurnedIff(old(View()), old(history), RxReap, n, View(), history);
      return budget - busy;
    }

    // ----------------------------------------------------- transmit ring

    /** `syn_dp_reset_tx_qptr`. */
    method ResetTxQptr()
      requires Separate() && Sized(TxRing()) && busyTxDesc > 0
      modifies this`txBusy, this`txBusyDesc, this`busyTxDesc, txDesc, txSkb
      ensures TxRing() == ResetQptr(Tx, old(TxRing()))
      ensures RxRing() == old(RxRing())
    {
      var txover, desc := txBusy, txBusyDesc;
      assert desc == txover;  // BUG_ON(txdesc != (tx_desc + txover))
      MaskStep(txover);
      txBusy := BitAnd(txover + 1, RING_SIZE - 1);
      txBusyDesc := txBusy;

      txSkb[txover] := None;
      var d := txDesc[desc];
      txDesc[desc] := d.(status := d.status & TX_END_OF_RING, length := 0,
                         buffer1 := 0, data1 := 0, reserved1 := 0);
      busyTxDesc := busyTxDesc - 1;
    }

    /** The descriptor words of `syn_dp_set_tx_qptr`, in the order written. */
    static method ArmTx(desc: Desc, req: TxReq) returns (d: Desc)
      ensures d == TxArmed(desc, req.buffer, req.len, req.offload)
    {
      var length := PackLength(desc.length, req.len);
      var status := desc.status | (TX_LAST | TX_FIRST | TX_INT_ENABLE);
      var data1 := SecondBuffer(req.buffer, req.len);
      if req.offload {
        status := TcpPseudoChecksum(status);
      }
      status := status | OWN_BY_DMA;
      assert status == TxArmedWord(desc.status, req.offload);
      d := desc.(length := length, status := status, buffer1 := req.buffer, data1 := data1);
    }

    /** `syn_dp_set_tx_qptr` as `syn_dp_tx_desc_queue` calls it, with the busy
        count update that follows under the same lock. */
    method SetTxQptr(req: TxReq)
      requires Separate() && SynDescRing.Inv(Tx, TxRing()) && busyTxDesc < RING_SIZE
      modifies this`txNext, this`txNextDesc, this`busyTxDesc, txDesc, txSkb
      ensures TxRing() == SetQptr(Tx, old(TxRing()), req.buffer, req.len, req.offload, req.skb)
      ensures RxRing() == old(RxRing())
    {
      var txnext, desc := txNext, txNextDesc;
      SetQptrPosts(Tx, TxRing(), req.buffer, req.len, req.offload, req.skb);
      assert busyTxDesc <= RING_SIZE;        // BUG_ON(busy_tx_desc > tx_desc_count)
      assert desc == txnext;                 // BUG_ON(txdesc != (tx_desc + txnext))
      assert IsEmpty(txDesc[desc]);          // BUG_ON(!syn_dp_gmac_is_desc_empty(txdesc))
      assert !OwnedByDma(txDesc[desc]);      // BUG_ON(syn_dp_gmac_is_desc_owned_by_dma(txdesc))

      var d := ArmTx(txDesc[desc], req);
      txDesc[desc] := d;
      txSkb[txnext] := Some(req.skb);

      MaskStep(txnext);
      txNext := BitAnd(txnext + 1, RING_SIZE - 1);
      txNextDesc := txNext;
      busyTxDesc := busyTxDesc + 1;
    }

    /** The unlocked first half of `syn_dp_tx`: room check, then mapping (which
        answered `req.buffer`). */
    method AdmitTx(req: TxReq) returns (ok: bool)
      requires Valid() && pending.None?
      modifies this`pending, this`history
      ensures Valid() && View() == DevStep(old(View()), TxAdmit(req))
      ensures history == old(history) + [TxAdmit(req)]
      ensures SynRuns.Handed(old(history), history, [], [])
      ensures ok <==> busyTxDesc < RING_SIZE
      ensures pending == if ok then Some(req) else None
    {
      ghost var d := View();
      AdmitDispatch(d, req);
      ok := RING_SIZE as int - busyTxDesc >= 1;
      if ok {
        pending := Some(req);
      }
      Log(d, TxAdmit(req));
    }

    /** `syn_dp_tx_desc_queue` for the admitted request. */
    method QueueTx()
      requires Valid() && pending.Some?
      modifies this`pending, this`txNext, this`txNextDesc, this`busyTxDesc, this`history, txDesc, txSkb
      ensures Valid() && View() == DevStep(old(View()), TxCommit)
      ensures history == old(history) + [TxCommit]
      ensures SynRuns.Handed(old(history), history, [], [old(pending.value)])
    {
      ghost var d := View();
      CommitDispatch(d);
      SetTxQptr(pending.value);
      pending := None;
      assert View() == Commit(d);
      Log(d, TxCommit);
    }

    /** `syn_dp_tx` without interference: -1 when the ring is full or the
        buffer could not be mapped, and then nothing has changed. */
    method Transmit(skb: Skb, len: bv32, offload: bool, mapped: Option<bv32>) returns (ret: int)
      requires Valid() && pending.None?
      modifies this`pending, this`txNext, this`txNextDesc, this`busyTxDesc, this`history, txDesc, txSkb
      ensures Valid() && pending.None?
      ensures ret == 0 <==> old(busyTxDesc) < RING_SIZE && mapped.Some?
      ensures ret != 0 ==> ret == -1 && View() == old(View()) && history == old(history)
      ensures ret == 0 ==>
                var req := TxReq(skb, len, mapped.value, offload);
                && View() == DevStep(DevStep(old(View()), TxAdmit(req)), TxCommit)
                && history == old(history) + [TxAdmit(req)] + [TxCommit]
                && SynRuns.Handed(old(history), history, [], [req])
      ensures ret == 0 ==>
                && SynDescRing.Inv(Tx, old(TxRing()))
                && Window(Tx, TxRing()) == Window(Tx, old(TxRing())) + [Dma(Item(skb, Asked(Tx, mapped.value, len, offload), 0))]
                && RxRing() == old(RxRing())
    {
      if RING_SIZE as int - busyTxDesc < 1 || mapped.None? {
        return -1;
      }
      var req := TxReq(skb, len, mapped.value, offload);
      ghost var d := View();
      SetQptrPosts(Tx, TxRing(), req.buffer, len, offload, skb);
      TransmitSteps(d, req);
      RunsNext(SetUp(), history, d, TxAdmit(req));
      RunsNext(SetUp(), history + [TxAdmit(req)], DevStep(d, TxAdmit(req)), TxCommit);
      AdmitDispatch(d, req);
      StepHands(history, d, TxAdmit(req));
      StepHands(history + [TxAdmit(req)], DevStep(d, TxAdmit(req)), TxCommit);
      SynRuns.HandedOn(history, history + [TxAdmit(req)], history + [TxAdmit(req)] + [TxCommit], [], [req]);
      history := history + [TxAdmit(req)] + [TxCommit];
      SetTxQptr(req);
      assert View() == d.(tx := SetQptr(Tx, d.tx, req.buffer, len, offload, skb));
      return 0;
    }

    /** Counters and skb release of one completed transmit descriptor. */
    method TxAccount(status: bv32, len: bv32, skb: Option<Skb>)
      requires |txStats.causes| == |TX_CAUSES|
      requires status & TX_LAST != 0 ==> skb.Some?
      modifies this`txStats, this`txFreed
      ensures txStats == if status & TX_LAST != 0 then CountTx(old(txStats), status, len) else old(txStats)
      ensures txFreed == if status & TX_LAST != 0 then old(txFreed) + [skb.value] else old(txFreed)
    {
      if status & TX_LAST != 0 {
        assert skb.Some?;  // BUG_ON(!skb)
        txFreed := txFreed + [skb.value];
        if status & TX_ERROR != 0 {
          txStats := txStats.(errors := txStats.errors + 1,
                              causes := AddCauses(txStats.causes, TX_CAUSES, status));
        } else {
          txStats := txStats.(packets := txStats.packets + 1,
                              collisions := txStats.collisions + Value(TxCollisionCount(status)),
                              bytes := txStats.bytes + Value(len));
        }
      }
    }

    /** One turn of the loop of `syn_dp_process_tx_complete`. */
    method TxCompleteOne()
      requires Valid() && Reapable(TxRing())
      modifies this`txBusy, this`txBusyDesc, this`busyTxDesc, this`txStats, this`txFreed, this`history, txDesc, txSkb
      ensures Valid() && View() == DevStep(old(View()), TxReap)
      ensures history == old(history) + [TxReap]
      ensures SynRuns.Handed(old(history), history, [], [])
    {
      ghost var d := View();
      TxStepIsTurn(d);
      var desc, skb := txDesc[txBusyDesc], txSkb[txBusy];
      TxAccount(desc.status, Size1(desc.length), skb);
      ResetTxQptr();
      assert View() == TxTurn(d);
      Log(d, TxReap);
    }

    /** Turn number `n` of a completion loop that began at device `d0` and
        history `h0`: taken exactly while completed slots are left. */
    method TxTurnOf(ghost d0: Dev, ghost h0: seq<Event>, ghost n: nat) returns (taken: bool)
      requires Valid() && Turned(d0, h0, TxReap, n, View(), history) && n <= Completed(Window(Tx, d0.tx))
      requires n < d0.tx.count
      modifies this`txBusy, this`txBusyDesc, this`busyTxDesc, this`txStats, this`txFreed, this`history, txDesc, txSkb
      ensures Valid() && (taken <==> n < Completed(Window(Tx, d0.tx)))
      ensures Turned(d0, h0, TxReap, if taken then n + 1 else n, View(), history)
    {
      TxHeadAfter(d0, h0, n, View(), history);
      if OwnedByDma(txDesc[txBusyDesc]) {
        return false;
      }
      TurnedNext(d0, h0, TxReap, n, View(), history);
      TxCompleteOne();
      return true;
    }

    /** The loop of `syn_dp_process_tx_complete`, on `busy` descriptors in use. */
    method TxLoop(busy: nat, ghost q: seq<Slot<Item>>)
      requires Valid() && q == Window(Tx, TxRing()) && busy == |q| > 0
      modifies this`txBusy, this`txBusyDesc, this`busyTxDesc, this`txStats, this`txFreed, this`history, txDesc, txSkb
      ensures Valid() && Turned(old(View()), old(history), TxReap, Completed(q), View(), history)
    {
      ghost var d0, n: nat := View(), 0;
      TurnedNone(d0, history, TxReap);
      var left, more := busy, true;
      while more
        invariant Valid() && Turned(d0, old(history), TxReap, n, View(), history)
        invariant n <= Completed(q) && left == |q| - n
        invariant if more then left > 0 else n == Completed(q)
        decreases more, Completed(q) - n
      {
        more := TxTurnOf(d0, old(history), n);
        if more {
          n := n + 1;
          left := left - 1;
          more := left > 0;
        }
      }
    }

    /** `syn_dp_process_tx_complete`: takes back the whole completed prefix. */
    method ProcessTxComplete()
      requires Valid()
      modifies this`txBusy, this`txBusyDesc, this`busyTxDesc, this`txStats, this`txFreed, this`history, txDesc, txSkb
      ensures Valid()
      ensures var d := old(View());
              Runs(d, Repeat(TxReap, Completed(Window(Tx, d.tx))), View())
      ensures var d := old(View());
              history == old(history) + Repeat(TxReap, Completed(Window(Tx, d.tx)))
      ensures SynRuns.Handed(old(history), history, [], [])
    {
      ghost var q := Window(Tx, TxRing());
      SynRuns.QuietHands(history, Repeat(TxReap, Completed(q)));
      if busyTxDesc == 0 {
        assert Completed(q) == 0;
        TurnedNone(View(), history, TxReap);
        TurnedIff(View(), history, TxReap, 0, View(), history);
        return;
      }
      TxLoop(busyTxDesc, q);
      TurnedIff(old(View()), old(history), TxReap, Completed(q), View(), history);
    }

    // -------------------------------------------------- environment steps

    /** One step of the receive DMA, on descriptor memory alone. */
    method StepRxDma(w: Writeback)
      requires Valid()
      modifies this`rxDma, this`history, rxDesc
      ensures Valid() && View() == DevStep(old(View()), RxDma(w))
      ensures history == old(history) + [RxDma(w)]
      ensures SynRuns.Handed(old(history), history, [], [])
    {
      ghost var d := View();
      DmaDispatch(d, w);
      var desc := rxDesc[rxDma];
      if OwnedByDma(desc) {
        rxDesc[rxDma] := WrittenBack(Rx, desc, w);
        rxDma := if EndOfRing(Rx, desc) then 0 else rxDma + 1;
      }
      assert RxRing() == DmaStep(Rx, d.rx, w);
      Log(d, RxDma(w));
    }

    /** One step of the transmit DMA, on descriptor memory alone. */
    method StepTxDma(w: Writeback)
      requires Valid()
      modifies this`txDma, this`history, txDesc
      ensures Valid() && View() == DevStep(old(View()), TxDma(w))
      ensures history == old(history) + [TxDma(w)]
      ensures SynRuns.Handed(old(history), history, [], [])
    {
      ghost var d := View();
      DmaDispatch(d, w);
      var desc := txDesc[txDma];
      if OwnedByDma(desc) {
        txDesc[txDma] := WrittenBack(Tx, desc, w);
        txDma := if EndOfRing(Tx, desc) then 0 else txDma + 1;
      }
      assert TxRing() == DmaStep(Tx, d.tx, w);
      Log(d, TxDma(w));
    }

    // --------------------------------------------------- interrupt and NAPI

    /** Either the DMA may interrupt or a poll is scheduled, never both and
        never neither. */
    predicate OneWakeUp()
      reads this`irqEnabled, this`napiScheduled
    {
      irqEnabled != napiScheduled
    }

    /** `syn_dp_handle_irq`; the DMA raises it only while enabled.  Every status
        bit that was set is cleared by writing it back. */
    method HandleIrq()
      requires irqEnabled && OneWakeUp()
      modifies this`dmaStatus, this`irqEnabled, this`napiScheduled
      ensures dmaStatus == 0
      ensures OneWakeUp() && napiScheduled && !irqEnabled
    {
      var data := dmaStatus;
      ClearedByItself(data);
      dmaStatus := dmaStatus & !data;
      irqEnabled := false;
      napiScheduled := true;
    }

    /** The receive part of `syn_dp_napi_poll`; `d2` is the device between the
        receive loop and the refill. */
    method PollRx(budget: int, allocs: seq<Alloc>, ghost n: nat) returns (work: int, ghost d2: Dev)
      requires Valid() && n == RxRemoved(Window(Rx, RxRing()), budget)
      modifies this`rxBusy, this`rxBusyDesc, this`busyRxDesc, this`rxStats, this`rxOut, rxDesc, rxSkb
      modifies this`rxNext, this`rxNextDesc, this`rxUnmapped, this`history
      ensures Valid() && DevInv(d2)
      ensures Runs(old(View()), Repeat(RxReap, n), d2) && d2.rx.count == old(busyRxDesc) - n
      ensures Runs(d2, RefillTrace(allocs, RING_SIZE - d2.rx.count), View())
      ensures history == old(history) + Repeat(RxReap, n) + RefillTrace(allocs, RING_SIZE - d2.rx.count)
      ensures work == RxWork(Window(Rx, old(RxRing())), budget)
    {
      work := Receive(budget);
      d2 := View();
      RxRefill(allocs);
    }

    /** The ring work of `syn_dp_napi_poll`: the completed prefix of the transmit
        ring taken back, then the receive loop within its budget, then the
        refill; `d1` and `d2` are the devices in between. */
    method PollRings(budget: int, allocs: seq<Alloc>) returns (work: int, ghost d1: Dev, ghost d2: Dev)
      requires Valid()
      modifies this`txBusy, this`txBusyDesc, this`busyTxDesc, this`txStats, this`txFreed, txDesc, txSkb
      modifies this`rxBusy, this`rxBusyDesc, this`busyRxDesc, this`rxStats, this`rxOut, rxDesc, rxSkb
      modifies this`rxNext, this`rxNextDesc, this`rxUnmapped, this`history
      ensures Valid() && Polled(old(View()), d1, d2, View(), old(history), history, budget, allocs)
      ensures var d := old(View()); work == RxWork(Window(Rx, d.rx), budget)
    {
      ghost var d := View();
      ProcessTxComplete();
      d1 := View();
      assert RxRing() == d.rx;
      work, d2 := PollRx(budget, allocs, RxRemoved(Window(Rx, RxRing()), budget));
      PollComposes(d, d1, d2, View(), old(history), history, budget, allocs);
    }

    /** The end of a poll: complete NAPI and enable DMA interrupts when work
        was left of the budget. */
    method FinishPoll(work: int, budget: int)
      requires OneWakeUp() && napiScheduled
      modifies this`irqEnabled, this`napiScheduled
      ensures OneWakeUp() && (irqEnabled <==> work < budget)
      ensures View() == old(View())
    {
      if work < budget {
        napiScheduled := false;
        irqEnabled := true;
      }
    }

    /** `syn_dp_napi_poll`: interrupts come back exactly when the receive ring
        was empty or the DMA engine still owned the slot the loop stopped at. */
    method NapiPoll(budget: int, allocs: seq<Alloc>) returns (work: int, ghost d1: Dev, ghost d2: Dev)
      requires Valid() && OneWakeUp() && napiScheduled
      modifies this`txBusy, this`txBusyDesc, this`busyTxDesc, this`txStats, this`txFreed, txDesc, txSkb
      modifies this`rxBusy, this`rxBusyDesc, this`busyRxDesc, this`rxStats, this`rxOut, rxDesc, rxSkb
      modifies this`rxNext, this`rxNextDesc, this`rxUnmapped, this`history, this`irqEnabled, this`napiScheduled
      ensures Valid() && Polled(old(View()), d1, d2, View(), old(history), history, budget, allocs)
      ensures OneWakeUp() && (irqEnabled <==> work < budget)
      ensures var q := Window(Rx, old(RxRing()));
              && work == RxWork(q, budget)
              && (budget > 0 ==> (irqEnabled <==> RanDry(q, budget)))
    {
      WindowInOrder(Rx, RxRing());
      PollCompletesIff(Window(Rx, RxRing()), budget);
      work, d1, d2 := PollRings(budget, allocs);
      FinishPoll(work, budget);
    }

    // ------------------------------------------- after any sequence of calls

    /** Whatever calls and DMA steps brought the object about: skbs handed to
        either ring left it in that order, each once, and the rest is in the
        ring. */
    lemma KeepsOrder()
      requires Valid()
      ensures SynRuns.Disciplined(RxRing()) && SynRuns.Disciplined(TxRing())
      ensures SynRuns.BufferSkbs(SynRuns.RxPosted(history)) == SynRuns.OutSkbs(rxOut) + SynRuns.RingSkbs(RxRing())
      ensures SynRuns.ReqSkbs(SynRuns.TxPosted(history)) == txFreed + SynRuns.RingSkbs(TxRing())
    {
      RunsIff(SetUp(), history, View());
      SynRuns.EveryRunRxInOrder(history);
      SynRuns.EveryRunTxInOrder(history);
    }

    /** Every skb the refills obtained is in the ring, was passed up or was
        freed. */
    lemma Conserves()
      requires Valid()
      ensures SynRuns.Disciplined(RxRing())
      ensures SynRuns.Allocated(history) ==
              multiset(SynRuns.RingSkbs(RxRing())) + SynRuns.PassedUp(rxOut) + SynRuns.FreedOnError(rxOut)
              + multiset(rxUnmapped)
    {
      RunsIff(SetUp(), history, View());
      SynRuns.EveryRunConservesRx(history);
    }

    /** The counters count the descriptors taken back. */
    lemma Counts()
      requires Valid()
      ensures rxStats.packets + rxStats.errors == |rxOut| && txStats.packets + txStats.errors == |txFreed|
      ensures forall k :: 0 <= k < |rxStats.causes| ==> rxStats.causes[k] <= rxStats.errors
      ensures forall k :: 0 <= k < |txStats.causes| ==> txStats.causes[k] <= txStats.errors
      ensures RxTally(rxStats, SynFifo.Run(EMPTY, history).rxDone)
      ensures TxTally(txStats, SynFifo.Run(EMPTY, history).txDone)
      ensures rxStats.packets == SynRuns.DeliveredCount(rxOut) && rxStats.errors == SynRuns.DroppedCount(rxOut)
      ensures rxStats.bytes == SynRuns.DeliveredBytes(rxOut)
      ensures var done := SynFifo.Run(EMPTY, history).txDone;
              |done| <= |SynRuns.TxPosted(history)| && txStats.bytes == SynRuns.SentBytes(done, SynRuns.TxPosted(history))
    {
      RunsIff(SetUp(), history, View());
      SynRuns.EveryRunCounts(history);
      SynRuns.EveryRunOutcomesCounted(history);
      SynRuns.EveryRunSentBytes(history);
    }
  }

  /** `syn_dp_setup_rings`: both descriptor queues, then the first refill.  From
      here on every routine of the class may be called. */
  method SetupRings(allocs: seq<Alloc>) returns (dp: DpInfo)
    ensures fresh(dp) && dp.Valid()
    ensures fresh(dp.rxDesc) && fresh(dp.rxSkb) && fresh(dp.txDesc) && fresh(dp.txSkb)
    ensures dp.irqEnabled && !dp.napiScheduled && dp.dmaStatus == 0 && dp.pending.None?
    ensures dp.history == RefillTrace(allocs, RING_SIZE)
    ensures SynRuns.Handed([], dp.history, PostsOf(RefillTrace(allocs, RING_SIZE)), [])
    ensures Runs(SetUp(), RefillTrace(allocs, RING_SIZE), dp.View())
  {
    dp := new DpInfo();
    dp.RxRefill(allocs);
  }
}

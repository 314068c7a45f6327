/** The Synopsys data plane of one port as a state machine over descriptor
    memory, driver indices, counters and outputs, with the DMA engine as
    environment.  Every run of it is shown to be a run of the two plain queues
    of `SynFifo`. */
module SynDevice {
  import opened Wrappers
  import opened RingIndex
  import opened SynDmaDesc
  import opened SlotRing
  import opened SynDescRing
  import opened SynStats
  import opened SynFifo

  datatype RxOutcome = Delivered(skb: Skb, bytes: int) | Dropped(skb: Skb)

  datatype Dev = Dev(
    rx: DescRing,
    tx: DescRing,
    pending: Option<TxReq>,       // admitted by the unlocked room check, not yet enqueued
    rxStats: RxStats,
    txStats: TxStats,
    rxOut: seq<RxOutcome>,        // receive skbs passed up or freed, in order
    rxUnmapped: seq<Skb>,         // refill skbs freed because mapping failed
    txFreed: seq<Skb>)            // transmit skbs freed, in order

  ghost predicate DevInv(d: Dev) {
    && SynDescRing.Inv(Rx, d.rx)
    && SynDescRing.Inv(Tx, d.tx)
    && (d.pending.Some? ==> d.tx.count < RING_SIZE)
    && |d.rxStats.causes| == |RX_CAUSES|
    && |d.txStats.causes| == |TX_CAUSES|
  }

  /** The device after ring set-up, before the first refill. */
  function SetUp(): (d: Dev)
    ensures DevInv(d)
  {
    InitialRingInv(Rx);
    InitialRingInv(Tx);
    Dev(InitialRing(Rx), InitialRing(Tx), None, NO_RX, NO_TX, [], [], [])
  }

  function OutcomeOf(skb: Skb, status: bv32): RxOutcome {
    if RxValid(status) then Delivered(skb, RxBytes(status)) else Dropped(skb)
  }

  /** What is due to a finished frame: a good one is passed up with its payload
      length, any other is freed. */
  function Due(i: Item): RxOutcome {
    if GoodFrame(i.report) then Delivered(i.skb, Payload(i.report)) else Dropped(i.skb)
  }

  lemma OutcomeIsDue(skb: Skb, frame: Frame, status: bv32)
    ensures OutcomeOf(skb, status) == Due(Item(skb, frame, Report(Rx, status)))
  {
    RxValidIff(status);
    RxBytesIs(status);
  }

  /** One turn of the loop of `syn_dp_rx` at a head the DMA gave back. */
  function RxTurn(d: Dev): Dev
    requires Sized(d.rx) && d.rx.count > 0 && d.rx.skb[d.rx.busy].Some?
    requires |d.rxStats.causes| == |RX_CAUSES|
  {
    var status := d.rx.desc[d.rx.busyDesc].status;
    d.(rxStats := CountRx(d.rxStats, status),
       rxOut := d.rxOut + [OutcomeOf(d.rx.skb[d.rx.busy].value, status)],
       rx := ResetQptr(Rx, d.rx))
  }

  /** One turn of the loop of `syn_dp_process_tx_complete`.  Only a descriptor
      that closes its frame frees an skb and is counted. */
  function TxTurn(d: Dev): Dev
    requires Sized(d.tx) && d.tx.count > 0 && d.tx.skb[d.tx.busy].Some?
    requires |d.txStats.causes| == |TX_CAUSES|
  {
    var desc := d.tx.desc[d.tx.busyDesc];
    var last := desc.status & TX_LAST != 0;
    d.(txStats := if last then CountTx(d.txStats, desc.status, Size1(desc.length)) else d.txStats,
       txFreed := if last then d.txFreed + [d.tx.skb[d.tx.busy].value] else d.txFreed,
       tx := ResetQptr(Tx, d.tx))
  }

  /** A head descriptor the driver may take back. */
  predicate Reapable(r: DescRing)
    requires Sized(r)
  {
    r.count > 0 && !OwnedByDma(r.desc[r.busyDesc])
  }

  function Refill(d: Dev, skb: Skb, buffer: bv32): (d': Dev)
    requires DevInv(d)
    ensures DevInv(d')
  {
    if d.rx.count >= RING_SIZE then d
    else
      SetQptrPosts(Rx, d.rx, buffer, MINI_JUMBO_FRAME_MTU, false, skb);
      d.(rx := SetQptr(Rx, d.rx, buffer, MINI_JUMBO_FRAME_MTU, false, skb))
  }

  function RxReapStep(d: Dev): (d': Dev)
    requires DevInv(d)
    ensures DevInv(d')
  {
    if !Reapable(d.rx) then d else ResetQptrReclaims(Rx, d.rx); RxTurn(d)
  }

  /** Single transmitter: a second one is admitted only after the first has
      enqueued. */
  function Admit(d: Dev, req: TxReq): (d': Dev) {
    if d.pending.Some? || d.tx.count >= RING_SIZE then d else d.(pending := Some(req))
  }

  function Commit(d: Dev): (d': Dev)
    requires DevInv(d)
    ensures DevInv(d')
  {
    if d.pending.None? then d
    else
      var req := d.pending.value;
      SetQptrPosts(Tx, d.tx, req.buffer, req.len, req.offload, req.skb);
      d.(tx := SetQptr(Tx, d.tx, req.buffer, req.len, req.offload, req.skb), pending := None)
  }

  function TxReapStep(d: Dev): (d': Dev)
    requires DevInv(d)
    ensures DevInv(d')
  {
    if !Reapable(d.tx) then d else ResetQptrReclaims(Tx, d.tx); TxTurn(d)
  }

  function DevStep(d: Dev, e: Event): (d': Dev)
    requires DevInv(d)
    ensures DevInv(d')
  {
    match e
    case RefillPost(skb, buffer) => Refill(d, skb, buffer)
    case RefillUnmapped(skb) =>
      if d.rx.count >= RING_SIZE then d else d.(rxUnmapped := d.rxUnmapped + [skb])
    case RxReap => RxReapStep(d)
    case TxAdmit(req) => Admit(d, req)
    case TxCommit => Commit(d)
    case TxReap => TxReapStep(d)
    case RxDma(w) => DmaStepCompletesOldest(Rx, d.rx, w); d.(rx := DmaStep(Rx, d.rx, w))
    case TxDma(w) =>
      DmaStepCompletesOldest(Tx, d.tx, w);
      TxDmaKeepsCount(d.tx, w);
      d.(tx := DmaStep(Tx, d.tx, w))
  }

  lemma TxDmaKeepsCount(r: DescRing, w: Writeback)
    ensures DmaStep(Tx, r, w).count == r.count
  {
  }

  // `DevStep` on single events, as lemmas so that proofs about one event need
  // not look at the others.

  lemma RefillDispatch(d: Dev, skb: Skb, buffer: bv32)
    requires DevInv(d)
    ensures DevStep(d, RefillPost(skb, buffer)) == Refill(d, skb, buffer)
  {
  }

  lemma UnmappedDispatch(d: Dev, skb: Skb)
    requires DevInv(d) && d.rx.count < RING_SIZE
    ensures DevStep(d, RefillUnmapped(skb)) == d.(rxUnmapped := d.rxUnmapped + [skb])
  {
  }

  lemma AdmitDispatch(d: Dev, req: TxReq)
    requires DevInv(d)
    ensures DevStep(d, TxAdmit(req)) == Admit(d, req)
  {
  }

  lemma CommitDispatch(d: Dev)
    requires DevInv(d)
    ensures DevStep(d, TxCommit) == Commit(d)
  {
  }

  lemma DmaDispatch(d: Dev, w: Writeback)
    requires DevInv(d)
    ensures DevStep(d, RxDma(w)) == d.(rx := DmaStep(Rx, d.rx, w))
    ensures DevStep(d, TxDma(w)) == d.(tx := DmaStep(Tx, d.tx, w))
  {
  }

  lemma RxReapDispatch(d: Dev)
    requires DevInv(d)
    ensures DevStep(d, RxReap) == RxReapStep(d)
  {
  }

  lemma TxReapDispatch(d: Dev)
    requires DevInv(d)
    ensures DevStep(d, TxReap) == TxReapStep(d)
  {
  }

  function DevRun(d: Dev, es: seq<Event>): (d': Dev)
    requires DevInv(d)
    ensures DevInv(d')
  {
    if es == [] then d else DevStep(DevRun(d, es[..|es| - 1]), es[|es| - 1])
  }

  lemma RunAppend(d: Dev, es: seq<Event>, e: Event)
    requires DevInv(d)
    ensures DevRun(d, es + [e]) == DevStep(DevRun(d, es), e)
  {
    assert (es + [e])[..|es|] == es;
  }

  lemma {:induction false} RunConcat(d: Dev, a: seq<Event>, b: seq<Event>)
    requires DevInv(d)
    ensures DevRun(d, a + b) == DevRun(DevRun(d, a), b)
  {
    if b == [] {
      assert a + b == a;
    } else {
      var c, e := b[..|b| - 1], b[|b| - 1];
      assert b == c + [e] && a + b == (a + c) + [e];
      RunConcat(d, a, c);
      RunAppend(d, a + c, e);
      RunAppend(DevRun(d, a), c, e);
    }
  }

  /** Room check and enqueue in a row are the two steps of a transmitter. */
  lemma TransmitSteps(d: Dev, req: TxReq)
    requires DevInv(d) && d.pending.None? && d.tx.count < RING_SIZE
    ensures DevStep(DevStep(d, TxAdmit(req)), TxCommit)
         == d.(tx := SetQptr(Tx, d.tx, req.buffer, req.len, req.offload, req.skb))
  {
    AdmitDispatch(d, req);
    CommitDispatch(Admit(d, req));
  }

  // ---------------------------------------------- refinement of the queues

  /** The windows of the two rings are the two queues. */
  ghost predicate SameQueues(d: Dev, s: Spec)
    requires DevInv(d)
  {
    && s.rx == Window(Rx, d.rx)
    && s.tx == Window(Tx, d.tx)
    && s.pending == d.pending
    && s.rxUnmapped == d.rxUnmapped
  }

  /** Counters and outputs are those of the logs. */
  ghost predicate SameLogs(d: Dev, s: Spec) {
    && RxTally(d.rxStats, s.rxDone)
    && TxTally(d.txStats, s.txDone)
    && RxOutputs(d.rxOut, s.rxDone)
    && TxOutputs(d.txFreed, s.txDone)
  }

  ghost predicate Refines(d: Dev, s: Spec)
    requires DevInv(d)
  {
    SameQueues(d, s) && SameLogs(d, s)
  }

  /** Each item taken back left the driver once, delivered when its status was
      good and freed otherwise. */
  ghost predicate RxOutputs(out: seq<RxOutcome>, done: seq<Item>) {
    && |out| == |done|
    && forall k :: 0 <= k < |done| ==> out[k] == Due(done[k])
  }

  ghost predicate TxOutputs(freed: seq<Skb>, done: seq<Item>) {
    && |freed| == |done|
    && forall k :: 0 <= k < |done| ==> freed[k] == done[k].skb
  }

  lemma HeadNotDone(kind: Kind, r: DescRing)
    requires SynDescRing.Inv(kind, r) && !Reapable(r)
    ensures var q := Window(kind, r); q == [] || !q[0].Done?
  {
    if r.count > 0 {
      Unfold(kind, r);
      OwnedIffDma(kind, r, r.busy);
      assert Window(kind, r)[0] == Slots(kind, r).slots[r.busy];
    }
  }

  lemma HeadHasSkb(kind: Kind, r: DescRing)
    requires SynDescRing.Inv(kind, r) && Reapable(r)
    ensures r.skb[r.busy].Some?
  {
    ResetQptrReclaims(kind, r);
  }

  lemma RxStepIsTurn(d: Dev)
    requires DevInv(d) && Reapable(d.rx)
    ensures d.rx.skb[d.rx.busy].Some? && DevStep(d, RxReap) == RxTurn(d)
  {
    HeadHasSkb(Rx, d.rx);
    RxReapDispatch(d);
  }

  lemma TxStepIsTurn(d: Dev)
    requires DevInv(d) && Reapable(d.tx)
    ensures d.tx.skb[d.tx.busy].Some? && DevStep(d, TxReap) == TxTurn(d)
  {
    HeadHasSkb(Tx, d.tx);
    TxReapDispatch(d);
  }

  /** Every transmit descriptor in the window closes a frame. */
  lemma TxHeadIsLast(r: DescRing)
    requires SynDescRing.Inv(Tx, r) && r.skb[r.busy].Some?
    ensures r.desc[r.busy].status & TX_LAST != 0
  {
    Unfold(Tx, r);
    assert SlotOk(Tx, r, r.busy);
  }

  /** A turn of a reaping loop, on the ring alone. */
  function ReapRing(kind: Kind, r: DescRing): DescRing
    requires Sized(r)
  {
    if Reapable(r) then ResetQptr(kind, r) else r
  }

  /** A turn of a reaping loop, on the queue alone. */
  function ReapQueue(q: seq<Slot<Item>>): seq<Slot<Item>> {
    if q == [] || !q[0].Done? then q else q[1..]
  }

  lemma ReapRingPops(kind: Kind, r: DescRing)
    requires SynDescRing.Inv(kind, r)
    ensures SynDescRing.Inv(kind, ReapRing(kind, r))
    ensures Window(kind, ReapRing(kind, r)) == ReapQueue(Window(kind, r))
    ensures Reapable(r) <==> var q := Window(kind, r); q != [] && q[0].Done?
    ensures Reapable(r) ==> r.skb[r.busy].Some? && Window(kind, r)[0].item == HeadItem(kind, r)
  {
    if Reapable(r) {
      ResetQptrReclaims(kind, r);
    } else {
      HeadNotDone(kind, r);
    }
  }

  /** The item of the head slot, read off its descriptor words. */
  function HeadItem(kind: Kind, r: DescRing): Item
    requires Sized(r)
  {
    Item(if r.skb[r.busy].Some? then r.skb[r.busy].value else 0,
         FrameOf(kind, r.desc[r.busy]), Report(kind, r.desc[r.busy].status))
  }

  lemma RxTurnLogs(d: Dev, done: seq<Item>)
    requires Sized(d.rx) && d.rx.count > 0 && d.rx.skb[d.rx.busy].Some?
    requires RxTally(d.rxStats, done) && RxOutputs(d.rxOut, done)
    ensures RxTally(RxTurn(d).rxStats, done + [HeadItem(Rx, d.rx)])
    ensures RxOutputs(RxTurn(d).rxOut, done + [HeadItem(Rx, d.rx)])
  {
    var desc, skb := d.rx.desc[d.rx.busy], d.rx.skb[d.rx.busy].value;
    CountRxTallies(d.rxStats, done, skb, FrameOf(Rx, desc), desc.status);
    OutcomeIsDue(skb, FrameOf(Rx, desc), desc.status);
  }

  lemma TxTurnLogs(d: Dev, done: seq<Item>)
    requires Sized(d.tx) && d.tx.count > 0 && d.tx.skb[d.tx.busy].Some?
    requires d.tx.desc[d.tx.busy].status & TX_LAST != 0
    requires TxTally(d.txStats, done) && TxOutputs(d.txFreed, done)
    ensures TxTally(TxTurn(d).txStats, done + [HeadItem(Tx, d.tx)])
    ensures TxOutputs(TxTurn(d).txFreed, done + [HeadItem(Tx, d.tx)])
  {
    var desc, skb := d.tx.desc[d.tx.busy], d.tx.skb[d.tx.busy].value;
    CountTxTallies(d.txStats, done, skb, FrameOf(Tx, desc), desc.status);
  }

  lemma RxReapRefines(d: Dev, s: Spec)
    requires DevInv(d) && Refines(d, s)
    ensures Refines(RxReapStep(d), SynFifo.Step(s, RxReap))
  {
    ReapRingPops(Rx, d.rx);
    if Reapable(d.rx) {
      RxTurnLogs(d, s.rxDone);
    }
  }

  lemma TxReapRefines(d: Dev, s: Spec)
    requires DevInv(d) && Refines(d, s)
    ensures Refines(TxReapStep(d), SynFifo.Step(s, TxReap))
  {
    ReapRingPops(Tx, d.tx);
    if Reapable(d.tx) {
      TxHeadIsLast(d.tx);
      TxTurnLogs(d, s.txDone);
    }
  }

  lemma PostRefines(d: Dev, s: Spec, e: Event)
    requires DevInv(d) && Refines(d, s)
    requires e.RefillPost? || e.RefillUnmapped? || e.TxAdmit? || e.TxCommit?
    ensures Refines(DevStep(d, e), SynFifo.Step(s, e))
  {
    match e
    case RefillPost(skb, buffer) =>
      if d.rx.count < RING_SIZE {
        SetQptrPosts(Rx, d.rx, buffer, MINI_JUMBO_FRAME_MTU, false, skb);
      }
    case TxCommit =>
      if d.pending.Some? {
        var req := d.pending.value;
        SetQptrPosts(Tx, d.tx, req.buffer, req.len, req.offload, req.skb);
      }
    case _ =>
  }

  lemma RxDmaRefines(d: Dev, s: Spec, w: Writeback)
    requires DevInv(d) && Refines(d, s)
    ensures DevInv(d.(rx := DmaStep(Rx, d.rx, w)))
    ensures Refines(d.(rx := DmaStep(Rx, d.rx, w)), SynFifo.Step(s, RxDma(w)))
  {
    DmaStepCompletesOldest(Rx, d.rx, w);
  }

  lemma TxDmaRefines(d: Dev, s: Spec, w: Writeback)
    requires DevInv(d) && Refines(d, s)
    ensures DevInv(d.(tx := DmaStep(Tx, d.tx, w)))
    ensures Refines(d.(tx := DmaStep(Tx, d.tx, w)), SynFifo.Step(s, TxDma(w)))
  {
    DmaStepCompletesOldest(Tx, d.tx, w);
    TxDmaKeepsCount(d.tx, w);
  }

  lemma StepRefines(d: Dev, s: Spec, e: Event)
    requires DevInv(d) && Refines(d, s)
    ensures Refines(DevStep(d, e), SynFifo.Step(s, e))
  {
    match e
    case RxReap =>
      RxReapDispatch(d);
      RxReapRefines(d, s);
    case TxReap =>
      TxReapDispatch(d);
      TxReapRefines(d, s);
    case RxDma(w) =>
      DmaDispatch(d, w);
      RxDmaRefines(d, s, w);
    case TxDma(w) =>
      DmaDispatch(d, w);
      TxDmaRefines(d, s, w);
    case _ => PostRefines(d, s, e);
  }

  lemma {:induction false} RunRefines(d: Dev, s: Spec, es: seq<Event>)
    requires DevInv(d) && Refines(d, s)
    ensures Refines(DevRun(d, es), SynFifo.Run(s, es))
  {
    if es != [] {
      RunRefines(d, s, es[..|es| - 1]);
      StepRefines(DevRun(d, es[..|es| - 1]), SynFifo.Run(s, es[..|es| - 1]), es[|es| - 1]);
    }
  }

  lemma InitialQueues()
    ensures SameQueues(SetUp(), EMPTY)
  {
    InitialRingInv(Rx);
    InitialRingInv(Tx);
  }

  lemma InitialLogs()
    ensures SameLogs(SetUp(), EMPTY)
  {
  }

  /** Refinement over whole runs: whatever the interleaving of driver turns,
      transmitter and DMA engine, the device shows two FIFO queues. */
  lemma EveryRunIsFifo(es: seq<Event>)
    ensures Refines(DevRun(SetUp(), es), SynFifo.Run(EMPTY, es))
    ensures SynFifo.Inv(SynFifo.Run(EMPTY, es))
  {
    InitialQueues();
    InitialLogs();
    RunRefines(SetUp(), EMPTY, es);
    RunKeepsInv(EMPTY, es);
  }
}

/** The reference machine of the Synopsys data plane: two plain FIFO queues,
    the logs of everything handed over and taken back, and no ring index,
    descriptor word or counter anywhere. */
module SynFifo {
  import opened Wrappers
  import opened RingIndex
  import opened SynDmaDesc
  import opened SlotRing
  import opened SynDescRing

  const MINI_JUMBO_FRAME_MTU: bv32 := 1978

  /** A buffer handed to the receive DMA. */
  datatype RxReq = RxReq(skb: Skb, buffer: bv32)

  datatype TxReq = TxReq(skb: Skb, len: bv32, buffer: bv32, offload: bool)

  /** The atomic steps.  Driver loops are taken one turn at a time, so that a
      run may place DMA steps and other contexts between any two turns. */
  datatype Event =
    | RefillPost(refilled: Skb, buffer: bv32) // refill turn: skb allocated and mapped
    | RefillUnmapped(refilled: Skb)           // refill turn: mapping failed, skb freed
    | RxReap                                  // receive-loop turn
    | TxAdmit(req: TxReq)                     // room check and mapping of syn_dp_tx
    | TxCommit                                // locked enqueue of the admitted skb
    | TxReap                                  // completion-loop turn
    | RxDma(w: Writeback)                     // DMA engine, receive ring
    | TxDma(w: Writeback)                     // DMA engine, transmit ring

  datatype Spec = Spec(
    rx: seq<Slot<Item>>,
    tx: seq<Slot<Item>>,
    pending: Option<TxReq>,
    rxPosted: seq<RxReq>,     // buffers handed to the receive DMA, in order
    rxDone: seq<Item>,        // receive items taken back, in order
    rxUnmapped: seq<Skb>,     // allocated but never handed over
    txPosted: seq<TxReq>,     // requests handed to the transmit DMA, in order
    txDone: seq<Item>)        // transmit items taken back, in order

  const EMPTY := Spec([], [], None, [], [], [], [], [])

  function CompleteOldest(kind: Kind, q: seq<Slot<Item>>, w: Writeback): seq<Slot<Item>> {
    var c := Completed(q);
    if c < |q| && q[c].Dma? then q[c := Done(q[c].item.(report := Report(kind, w.status)))] else q
  }

  function Step(s: Spec, e: Event): Spec {
    match e
    case RefillPost(skb, buffer) =>
      if |s.rx| >= RING_SIZE then s
      else s.(rx := s.rx + [Dma(Item(skb, Asked(Rx, buffer, MINI_JUMBO_FRAME_MTU, false), 0))],
              rxPosted := s.rxPosted + [RxReq(skb, buffer)])
    case RefillUnmapped(skb) =>
      if |s.rx| >= RING_SIZE then s else s.(rxUnmapped := s.rxUnmapped + [skb])
    case RxReap =>
      if s.rx == [] || !s.rx[0].Done? then s
      else s.(rx := s.rx[1..], rxDone := s.rxDone + [s.rx[0].item])
    case TxAdmit(req) =>
      if s.pending.Some? || |s.tx| >= RING_SIZE then s else s.(pending := Some(req))
    case TxCommit =>
      if s.pending.None? then s
      else
        var req := s.pending.value;
        s.(tx := s.tx + [Dma(Item(req.skb, Asked(Tx, req.buffer, req.len, req.offload), 0))],
           txPosted := s.txPosted + [req], pending := None)
    case TxReap =>
      if s.tx == [] || !s.tx[0].Done? then s
      else s.(tx := s.tx[1..], txDone := s.txDone + [s.tx[0].item])
    case RxDma(w) => s.(rx := CompleteOldest(Rx, s.rx, w))
    case TxDma(w) => s.(tx := CompleteOldest(Tx, s.tx, w))
  }

  function Run(s: Spec, es: seq<Event>): Spec {
    if es == [] then s else Step(Run(s, es[..|es| - 1]), es[|es| - 1])
  }

  lemma RunLast(s: Spec, es: seq<Event>, e: Event)
    ensures Run(s, es + [e]) == Step(Run(s, es), e)
  {
    assert (es + [e])[..|es|] == es;
  }

  lemma {:induction false} RunOn(s: Spec, a: seq<Event>, b: seq<Event>)
    ensures Run(s, a + b) == Run(Run(s, a), b)
  {
    if b == [] {
      assert a + b == a;
    } else {
      var c, e := b[..|b| - 1], b[|b| - 1];
      assert b == c + [e] && a + b == (a + c) + [e];
      RunOn(s, a, c);
      RunLast(s, a + c, e);
      RunLast(Run(s, a), c, e);
    }
  }

  ghost predicate QueueWf(q: seq<Slot<Item>>) {
    && |q| <= RING_SIZE
    && InOrder(q)
    && forall k :: 0 <= k < |q| ==> !q[k].Free?
  }

  /** A queue item is what was handed over at its place. */
  predicate Carries(item: Item, req: TxReq) {
    item.skb == req.skb && item.frame == Asked(Tx, req.buffer, req.len, req.offload)
  }

  predicate Holds(item: Item, req: RxReq) {
    item.skb == req.skb && item.frame == Asked(Rx, req.buffer, 1978, false)
  }

  /** First in, first out: what was handed over is what was taken back
      followed by what is still queued, position by position. */
  ghost predicate TxOrder(posted: seq<TxReq>, done: seq<Item>, q: seq<Slot<Item>>) {
    && |posted| == |done| + |q|
    && (forall k :: 0 <= k < |done| ==> Carries(done[k], posted[k]))
    && (forall k :: 0 <= k < |q| ==> !q[k].Free? && Carries(q[k].item, posted[|done| + k]))
  }

  ghost predicate RxOrder(posted: seq<RxReq>, done: seq<Item>, q: seq<Slot<Item>>) {
    && |posted| == |done| + |q|
    && (forall k :: 0 <= k < |done| ==> Holds(done[k], posted[k]))
    && (forall k :: 0 <= k < |q| ==> !q[k].Free? && Holds(q[k].item, posted[|done| + k]))
  }

  lemma TxOrderPop(posted: seq<TxReq>, done: seq<Item>, q: seq<Slot<Item>>)
    requires TxOrder(posted, done, q) && q != []
    ensures TxOrder(posted, done + [q[0].item], q[1..])
  {
    assert Carries(q[0].item, posted[|done| + 0]);
    forall k | 0 <= k < |q[1..]|
      ensures !q[1..][k].Free? && Carries(q[1..][k].item, posted[|done| + 1 + k])
    {
      assert q[1..][k] == q[k + 1];
    }
  }

  lemma RxOrderPop(posted: seq<RxReq>, done: seq<Item>, q: seq<Slot<Item>>)
    requires RxOrder(posted, done, q) && q != []
    ensures RxOrder(posted, done + [q[0].item], q[1..])
  {
    assert Holds(q[0].item, posted[|done| + 0]);
    forall k | 0 <= k < |q[1..]|
      ensures !q[1..][k].Free? && Holds(q[1..][k].item, posted[|done| + 1 + k])
    {
      assert q[1..][k] == q[k + 1];
    }
  }

  /** The room found by the unlocked check is still there. */
  ghost predicate RoomKept(s: Spec) {
    s.pending.Some? ==> |s.tx| < RING_SIZE
  }

  ghost predicate Inv(s: Spec) {
    && QueueWf(s.rx) && QueueWf(s.tx)
    && RxOrder(s.rxPosted, s.rxDone, s.rx)
    && TxOrder(s.txPosted, s.txDone, s.tx)
    && RoomKept(s)
  }

  lemma AppendWf(q: seq<Slot<Item>>, item: Item)
    requires QueueWf(q) && |q| < RING_SIZE
    ensures QueueWf(q + [Dma(item)])
  {
    CompletedUnique(q + [Dma(item)], Completed(q));
  }

  lemma PopWf(q: seq<Slot<Item>>)
    requires QueueWf(q) && q != [] && q[0].Done?
    ensures QueueWf(q[1..])
  {
  }

  lemma CompleteWf(kind: Kind, q: seq<Slot<Item>>, w: Writeback)
    requires QueueWf(q)
    ensures QueueWf(CompleteOldest(kind, q, w))
    ensures |CompleteOldest(kind, q, w)| == |q|
    ensures forall k :: 0 <= k < |q| ==>
              var q' := CompleteOldest(kind, q, w);
              q'[k].item.skb == q[k].item.skb && q'[k].item.frame == q[k].item.frame
  {
    var c := Completed(q);
    if c < |q| {
      CompletedUnique(CompleteOldest(kind, q, w), c + 1);
    }
  }

  lemma RefillKeepsInv(s: Spec, e: Event)
    requires Inv(s) && (e.RefillPost? || e.RefillUnmapped?)
    ensures Inv(Step(s, e))
  {
    if |s.rx| < RING_SIZE && e.RefillPost? {
      AppendWf(s.rx, Item(e.refilled, Asked(Rx, e.buffer, MINI_JUMBO_FRAME_MTU, false), 0));
    }
  }

  lemma RxReapKeepsInv(s: Spec)
    requires Inv(s)
    ensures Inv(Step(s, RxReap))
  {
    if s.rx != [] && s.rx[0].Done? {
      PopWf(s.rx);
      RxOrderPop(s.rxPosted, s.rxDone, s.rx);
    }
  }

  lemma TxSendKeepsInv(s: Spec, e: Event)
    requires Inv(s) && (e.TxAdmit? || e.TxCommit?)
    ensures Inv(Step(s, e))
  {
    if e.TxCommit? && s.pending.Some? {
      var req := s.pending.value;
      AppendWf(s.tx, Item(req.skb, Asked(Tx, req.buffer, req.len, req.offload), 0));
    }
  }

  lemma TxReapKeepsInv(s: Spec)
    requires Inv(s)
    ensures Inv(Step(s, TxReap))
  {
    if s.tx != [] && s.tx[0].Done? {
      PopWf(s.tx);
      TxOrderPop(s.txPosted, s.txDone, s.tx);
    }
  }

  lemma DmaKeepsInv(s: Spec, e: Event)
    requires Inv(s) && (e.RxDma? || e.TxDma?)
    ensures Inv(Step(s, e))
  {
    if e.RxDma? {
      CompleteWf(Rx, s.rx, e.w);
      RxOrderKept(s.rxPosted, s.rxDone, s.rx, CompleteOldest(Rx, s.rx, e.w));
      assert Step(s, e) == s.(rx := CompleteOldest(Rx, s.rx, e.w));
    } else {
      CompleteWf(Tx, s.tx, e.w);
      TxOrderKept(s.txPosted, s.txDone, s.tx, CompleteOldest(Tx, s.tx, e.w));
      assert Step(s, e) == s.(tx := CompleteOldest(Tx, s.tx, e.w));
    }
  }

  /** The order says nothing of what the DMA engine reported. */
  lemma RxOrderKept(posted: seq<RxReq>, done: seq<Item>, q: seq<Slot<Item>>, q': seq<Slot<Item>>)
    requires RxOrder(posted, done, q) && |q'| == |q|
    requires forall k :: 0 <= k < |q| ==>
               !q'[k].Free? && q'[k].item.skb == q[k].item.skb && q'[k].item.frame == q[k].item.frame
    ensures RxOrder(posted, done, q')
  {
  }

  lemma TxOrderKept(posted: seq<TxReq>, done: seq<Item>, q: seq<Slot<Item>>, q': seq<Slot<Item>>)
    requires TxOrder(posted, done, q) && |q'| == |q|
    requires forall k :: 0 <= k < |q| ==>
               !q'[k].Free? && q'[k].item.skb == q[k].item.skb && q'[k].item.frame == q[k].item.frame
    ensures TxOrder(posted, done, q')
  {
  }

  lemma StepKeepsInv(s: Spec, e: Event)
    requires Inv(s)
    ensures Inv(Step(s, e))
  {
    match e
    case RefillPost(_, _) => RefillKeepsInv(s, e);
    case RefillUnmapped(_) => RefillKeepsInv(s, e);
    case RxReap => RxReapKeepsInv(s);
    case TxAdmit(_) => TxSendKeepsInv(s, e);
    case TxCommit => TxSendKeepsInv(s, e);
    case TxReap => TxReapKeepsInv(s);
    case RxDma(w) => DmaKeepsInv(s, e);
    case TxDma(w) => DmaKeepsInv(s, e);
  }

  lemma {:induction false} RunKeepsInv(s: Spec, es: seq<Event>)
    requires Inv(s)
    ensures Inv(Run(s, es))
  {
    if es != [] {
      RunKeepsInv(s, es[..|es| - 1]);
      StepKeepsInv(Run(s, es[..|es| - 1]), es[|es| - 1]);
    }
  }
}

/** Several transmitters on one Synopsys port.  `syn_dp_tx` checks for room
    before it takes the lock under which it enqueues, and the netdev has one
    transmit queue per CPU, so any number of skbs may have passed the check and
    not be enqueued yet.  This module says exactly when that is safe. */
module SynTransmitters {
  import opened Wrappers
  import opened RingIndex
  import opened SynDmaDesc
  import opened SlotRing
  import opened SynDescRing
  import opened SynFifo
  import opened SynDevice
  import opened SynRuns

  /** `waiting` are the requests that found room and are not yet enqueued.  A
      port is broken by an enqueue that finds its slot in use. */
  datatype Port = Port(dev: Dev, waiting: seq<TxReq>) | Broken

  datatype Act =
    | Other(e: Event)      // any step of the device but transmitting
    | Check(req: TxReq)    // unlocked room check and mapping of one transmitter
    | Enqueue(k: nat)      // locked enqueue of one of those waiting

  ghost predicate PortInv(p: Port) {
    p.Port? ==> DevInv(p.dev) && p.dev.pending.None?
  }

  /** The four BUG_ON conditions of `syn_dp_set_tx_qptr`, negated.  The first lets
      a full ring pass. */
  predicate NoBugOnSetTx(r: DescRing)
    requires Sized(r)
  {
    && r.count <= RING_SIZE
    && r.nextDesc == r.next
    && IsEmpty(r.desc[r.nextDesc])
    && !OwnedByDma(r.desc[r.nextDesc])
  }

  /** The enqueue passes its BUG_ONs and overwrites no skb. */
  predicate FindsSlot(r: DescRing)
    requires Sized(r)
  {
    NoBugOnSetTx(r) && r.skb[r.next].None?
  }

  lemma FullRingNext(r: DescRing)
    requires SynDescRing.Inv(Tx, r) && r.count == RING_SIZE
    ensures r.next == r.busy && r.skb[r.busy].Some?
    ensures Window(Tx, r)[0] == SlotOf(Tx, r.desc[r.busy], r.skb[r.busy])
  {
    Unfold(Tx, r);
    InvSlot(Tx, r, r.busy);
    assert Window(Tx, r)[0] == Slots(Tx, r).slots[r.busy];
  }

  /** An enqueue finds its slot exactly while the ring is not full. */
  lemma FindsSlotIff(r: DescRing)
    requires SynDescRing.Inv(Tx, r)
    ensures FindsSlot(r) <==> r.count < RING_SIZE
  {
    if r.count < RING_SIZE {
      SetQptrPosts(Tx, r, 0, 0, false, 0);
    } else {
      FullRingNext(r);
    }
  }

  /** What happens at a full ring: a BUG_ON fires, except when the oldest
      descriptor is completed and was sent with a first buffer of no bytes; then
      its skb would be overwritten. */
  lemma FullRingBugsIff(r: DescRing)
    requires SynDescRing.Inv(Tx, r) && r.count == RING_SIZE
    ensures var head := Window(Tx, r)[0];
            !NoBugOnSetTx(r) <==> !(head.Done? && head.item.frame.size1 == 0)
  {
    FullRingNext(r);
  }

  // ------------------------------------------------------------------- steps

  function PortStep(p: Port, a: Act): (p': Port)
    requires PortInv(p)
    ensures PortInv(p')
  {
    match p
    case Broken => Broken
    case Port(d, w) =>
      match a
      case Other(e) =>
        if e.TxAdmit? || e.TxCommit? then p else OtherKeepsPending(d, e); Port(DevStep(d, e), w)
      case Check(req) => if d.tx.count < RING_SIZE then Port(d, w + [req]) else p
      case Enqueue(k) => if k < |w| then EnqueueStep(d, w, k) else p
  }

  function EnqueueStep(d: Dev, w: seq<TxReq>, k: nat): (p': Port)
    requires DevInv(d) && d.pending.None? && k < |w|
    ensures PortInv(p')
  {
    FindsSlotIff(d.tx);
    if FindsSlot(d.tx) then
      SetQptrPosts(Tx, d.tx, w[k].buffer, w[k].len, w[k].offload, w[k].skb);
      Port(d.(tx := SetQptr(Tx, d.tx, w[k].buffer, w[k].len, w[k].offload, w[k].skb)), w[..k] + w[k + 1..])
    else
      Broken
  }

  lemma OtherKeepsPending(d: Dev, e: Event)
    requires DevInv(d) && !e.TxAdmit? && !e.TxCommit?
    ensures DevStep(d, e).pending == d.pending
  {
  }

  lemma OtherCounts(d: Dev, e: Event)
    requires DevInv(d) && !e.TxAdmit? && !e.TxCommit?
    ensures DevStep(d, e).tx.count <= d.tx.count
  {
  }

  function PortRun(p: Port, acts: seq<Act>): (p': Port)
    requires PortInv(p)
    ensures PortInv(p')
  {
    if acts == [] then p else PortStep(PortRun(p, acts[..|acts| - 1]), acts[|acts| - 1])
  }

  lemma PortRunNext(p: Port, acts: seq<Act>, a: Act)
    requires PortInv(p)
    ensures PortRun(p, acts + [a]) == PortStep(PortRun(p, acts), a)
  {
    assert (acts + [a])[..|acts|] == acts;
  }

  /** The port after ring set-up. */
  function Begin(): (p: Port)
    ensures PortInv(p)
  {
    Port(SetUp(), [])
  }

  lemma EnqueueTakes(d: Dev, w: seq<TxReq>, k: nat)
    requires DevInv(d) && d.pending.None? && k < |w|
    ensures if d.tx.count < RING_SIZE then
              var p' := EnqueueStep(d, w, k);
              && p'.Port? && p'.waiting == w[..k] + w[k + 1..] && p'.dev.tx.count == d.tx.count + 1
              && Window(Tx, p'.dev.tx) == Window(Tx, d.tx) + [Dma(Item(w[k].skb, Asked(Tx, w[k].buffer, w[k].len, w[k].offload), 0))]
            else EnqueueStep(d, w, k).Broken?
  {
    FindsSlotIff(d.tx);
    if d.tx.count < RING_SIZE {
      SetQptrPosts(Tx, d.tx, w[k].buffer, w[k].len, w[k].offload, w[k].skb);
    }
  }

  // ----------------------------------------------------- still the one device

  /** The device steps one act stands for. */
  function Moves(p: Port, a: Act): seq<Event> {
    if p.Broken? then []
    else
      match a
      case Other(e) => if e.TxAdmit? || e.TxCommit? then [] else [e]
      case Check(_) => []
      case Enqueue(k) => if k < |p.waiting| then [TxAdmit(p.waiting[k])] + [TxCommit] else []
  }

  function Trace(acts: seq<Act>): seq<Event> {
    if acts == [] then []
    else
      var n := |acts| - 1;
      Trace(acts[..n]) + Moves(PortRun(Begin(), acts[..n]), acts[n])
  }

  lemma EnqueueIsTransmit(d: Dev, w: seq<TxReq>, k: nat)
    requires DevInv(d) && d.pending.None? && k < |w| && EnqueueStep(d, w, k).Port?
    ensures EnqueueStep(d, w, k).dev == DevStep(DevStep(d, TxAdmit(w[k])), TxCommit)
  {
    FindsSlotIff(d.tx);
    TransmitSteps(d, w[k]);
  }

  lemma RunOfNone(d: Dev)
    requires DevInv(d)
    ensures DevRun(d, []) == d
  {
  }

  lemma MovesAreTheStep(p: Port, a: Act)
    requires PortInv(p) && PortStep(p, a).Port?
    ensures p.Port? && PortStep(p, a).dev == DevRun(p.dev, Moves(p, a))
  {
    var d := p.dev;
    RunOfNone(d);
    match a
    case Other(e) =>
      RunAppend(d, [], e);
      assert [] + [e] == [e];
    case Check(_) =>
    case Enqueue(k) =>
      if k < |p.waiting| {
        var req := p.waiting[k];
        RunAppend(d, [], TxAdmit(req));
        assert [] + [TxAdmit(req)] == [TxAdmit(req)];
        RunAppend(d, [TxAdmit(req)], TxCommit);
        EnqueueIsTransmit(d, p.waiting, k);
      }
  }

  /** As long as nothing breaks, any number of transmitters run the device of
      `SynDevice`, each enqueue being a room check and commit in a row: all that
      `SynRuns` says of runs holds. */
  lemma {:induction false} EveryPortRunIsDevRun(acts: seq<Act>)
    requires PortRun(Begin(), acts).Port?
    ensures PortRun(Begin(), acts).dev == After(Trace(acts))
  {
    if acts != [] {
      var n := |acts| - 1;
      var p := PortRun(Begin(), acts[..n]);
      MovesAreTheStep(p, acts[n]);
      EveryPortRunIsDevRun(acts[..n]);
      RunConcat(SetUp(), Trace(acts[..n]), Moves(p, acts[n]));
    }
  }

  // -------------------------------------------------------- when it is safe

  /** Every request that is waiting will find a slot. */
  predicate RoomForAll(p: Port) {
    p.Port? && p.dev.tx.count + |p.waiting| <= RING_SIZE
  }

  predicate NoCheck(acts: seq<Act>) {
    forall k :: 0 <= k < |acts| ==> !acts[k].Check?
  }

  lemma StepKeepsRoom(p: Port, a: Act)
    requires PortInv(p) && RoomForAll(p) && !a.Check?
    ensures RoomForAll(PortStep(p, a))
  {
    match a
    case Other(e) =>
      if !e.TxAdmit? && !e.TxCommit? {
        OtherCounts(p.dev, e);
      }
    case Enqueue(k) =>
      if k < |p.waiting| {
        EnqueueTakes(p.dev, p.waiting, k);
      }
  }

  lemma {:induction false} RunKeepsRoom(p: Port, acts: seq<Act>)
    requires PortInv(p) && RoomForAll(p) && NoCheck(acts)
    ensures RoomForAll(PortRun(p, acts))
  {
    if acts != [] {
      RunKeepsRoom(p, acts[..|acts| - 1]);
      StepKeepsRoom(PortRun(p, acts[..|acts| - 1]), acts[|acts| - 1]);
    }
  }

  function Enqueues(n: nat): (acts: seq<Act>)
    ensures |acts| == n && NoCheck(acts)
  {
    if n == 0 then [] else Enqueues(n - 1) + [Enqueue(0)]
  }

  /** Those waiting enqueue one after the other until the ring is full. */
  lemma {:induction false} EnqueuesFill(p: Port, n: nat)
    requires PortInv(p) && p.Port? && n <= |p.waiting| && p.dev.tx.count + n <= RING_SIZE
    ensures var p' := PortRun(p, Enqueues(n));
            p'.Port? && p'.dev.tx.count == p.dev.tx.count + n && p'.waiting == p.waiting[n..]
  {
    if n > 0 {
      EnqueuesFill(p, n - 1);
      PortRunNext(p, Enqueues(n - 1), Enqueue(0));
      var q := PortRun(p, Enqueues(n - 1));
      EnqueueTakes(q.dev, q.waiting, 0);
    }
  }

  lemma OvercommitBreaks(p: Port)
    requires PortInv(p) && p.Port? && !RoomForAll(p)
    ensures PortRun(p, Enqueues(RING_SIZE - p.dev.tx.count + 1)).Broken?
  {
    var n := RING_SIZE - p.dev.tx.count;
    EnqueuesFill(p, n);
    PortRunNext(p, Enqueues(n), Enqueue(0));
    var q := PortRun(p, Enqueues(n));
    EnqueueTakes(q.dev, q.waiting, 0);
  }

  /** Without further room checks nothing can break exactly while the ring and
      those waiting fit together. */
  lemma SafeIffRoom(p: Port)
    requires PortInv(p) && p.Port?
    ensures RoomForAll(p) <==> forall acts :: NoCheck(acts) ==> PortRun(p, acts).Port?
  {
    if RoomForAll(p) {
      forall acts | NoCheck(acts) ensures PortRun(p, acts).Port? {
        RunKeepsRoom(p, acts);
      }
    } else {
      OvercommitBreaks(p);
      assert NoCheck(Enqueues(RING_SIZE - p.dev.tx.count + 1));
    }
  }

  /** The room check of the driver does what it is for exactly when it refuses or
      when those already waiting leave a slot over. */
  predicate CheckSuffices(p: Port) {
    p.Port? ==> p.dev.tx.count == RING_SIZE || p.dev.tx.count + |p.waiting| < RING_SIZE
  }

  lemma CheckSufficesIff(p: Port, req: TxReq)
    requires PortInv(p) && RoomForAll(p)
    ensures CheckSuffices(p) <==>
            forall acts :: NoCheck(acts) ==> PortRun(PortStep(p, Check(req)), acts).Port?
  {
    SafeIffRoom(PortStep(p, Check(req)));
  }

  /** A run in which every check is made at such a moment never breaks. */
  lemma {:induction false} CheckedRunsAreSafe(acts: seq<Act>)
    requires forall k :: 0 <= k < |acts| && acts[k].Check? ==> CheckSuffices(PortRun(Begin(), acts[..k]))
    ensures RoomForAll(PortRun(Begin(), acts))
  {
    if acts != [] {
      var init, a := acts[..|acts| - 1], acts[|acts| - 1];
      forall k | 0 <= k < |init| && init[k].Check? ensures CheckSuffices(PortRun(Begin(), init[..k])) {
        assert init[..k] == acts[..k];
      }
      CheckedRunsAreSafe(init);
      if !a.Check? {
        StepKeepsRoom(PortRun(Begin(), init), a);
      }
    }
  }

  /** One transmitter at a time is safe: the check is made with nobody waiting. */
  lemma OneAtATimeIsSafe(acts: seq<Act>)
    requires forall k :: 0 <= k < |acts| && acts[k].Check? ==>
               var p := PortRun(Begin(), acts[..k]); p.Port? ==> p.waiting == []
    ensures PortRun(Begin(), acts).Port?
  {
    CheckedRunsAreSafe(acts);
  }

  // --------------------------------------------------------- when it is not

  /** `n` transmissions in a row. */
  function Sent(req: TxReq, n: nat): seq<Act> {
    if n == 0 then [] else Sent(req, n - 1) + [Check(req)] + [Enqueue(0)]
  }

  /** Nobody is waiting and the DMA engine owns all of `n` descriptors in use. */
  ghost predicate Backlog(p: Port, n: nat)
    requires PortInv(p)
  {
    && p.Port? && p.waiting == [] && p.dev.tx.count == n
    && forall k :: 0 <= k < n ==> Window(Tx, p.dev.tx)[k].Dma?
  }

  lemma BacklogNext(p: Port, n: nat, req: TxReq)
    requires PortInv(p) && Backlog(p, n) && n < RING_SIZE
    ensures Backlog(PortStep(PortStep(p, Check(req)), Enqueue(0)), n + 1)
  {
    assert PortStep(p, Check(req)) == Port(p.dev, [req]);
    EnqueueTakes(p.dev, [req], 0);
    assert PortStep(Port(p.dev, [req]), Enqueue(0)) == EnqueueStep(p.dev, [req], 0);
  }

  lemma {:induction false} SentFills(req: TxReq, n: nat)
    requires n <= RING_SIZE
    ensures Backlog(PortRun(Begin(), Sent(req, n)), n)
  {
    if n > 0 {
      SentFills(req, n - 1);
      BacklogNext(PortRun(Begin(), Sent(req, n - 1)), n - 1, req);
      PortRunNext(Begin(), Sent(req, n - 1), Check(req));
      PortRunNext(Begin(), Sent(req, n - 1) + [Check(req)], Enqueue(0));
    } else {
      InitialRingInv(Tx);
    }
  }

  /** The last steps of a collision, from a port with one descriptor left. */
  lemma Collide(p: Port, first: TxReq, second: TxReq)
    requires PortInv(p) && Backlog(p, RING_SIZE - 1)
    ensures var q := PortStep(PortStep(PortStep(p, Check(first)), Check(second)), Enqueue(0));
            && q.Port? && q.waiting == [second] && q.dev.tx.count == RING_SIZE
            && !NoBugOnSetTx(q.dev.tx)
            && PortStep(q, Enqueue(0)).Broken?
  {
    assert [first] + [second] == [first, second];
    assert PortStep(PortStep(p, Check(first)), Check(second)) == Port(p.dev, [first, second]);
    EnqueueTakes(p.dev, [first, second], 0);
    var q := EnqueueStep(p.dev, [first, second], 0);
    FullRingBugsIff(q.dev.tx);
    EnqueueTakes(q.dev, q.waiting, 0);
  }

  /** With one descriptor left, two transmitters that both look before either of
      them takes the lock are both let through, and the second enqueue runs into
      a BUG_ON. */
  lemma TwoTransmittersCollide(req: TxReq, first: TxReq, second: TxReq)
    ensures var acts := Sent(req, RING_SIZE - 1) + [Check(first)] + [Check(second)] + [Enqueue(0)];
            var p := PortRun(Begin(), acts);
            && p.Port? && p.waiting == [second] && p.dev.tx.count == RING_SIZE
            && !NoBugOnSetTx(p.dev.tx)
            && PortRun(Begin(), acts + [Enqueue(0)]).Broken?
  {
    var acts := Sent(req, RING_SIZE - 1);
    SentFills(req, RING_SIZE - 1);
    Collide(PortRun(Begin(), acts), first, second);
    PortRunNext(Begin(), acts, Check(first));
    PortRunNext(Begin(), acts + [Check(first)], Check(second));
    PortRunNext(Begin(), acts + [Check(first)] + [Check(second)], Enqueue(0));
    PortRunNext(Begin(), acts + [Check(first)] + [Check(second)] + [Enqueue(0)], Enqueue(0));
  }
}

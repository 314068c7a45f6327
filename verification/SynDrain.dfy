/** What whole driver loops do to the queues: how many descriptors the receive
    and completion loops take back when no write-back falls into the call, what
    a refill hands over, and what the poll handler concludes from it. */
module SynDrain {
  import opened Wrappers
  import opened RingIndex
  import opened SynDmaDesc
  import opened SlotRing
  import opened SynDescRing
  import opened SynFifo
  import opened SynDevice
  import SynRuns

  function Repeat(e: Event, n: nat): (es: seq<Event>)
    ensures |es| == n
  {
    seq(n, _ => e)
  }

  /** Running `es` from `d` gives `d'`.  The run sits behind a quantifier that only
      `RunsIff` instantiates, so that driver routines can be composed without
      unrolling what each of them did. */
  ghost predicate Runs(d: Dev, es: seq<Event>, d': Dev) {
    DevInv(d) && forall u: bool {:trigger Unrolled(d, es, d', u)} :: Unrolled(d, es, d', u) ==> d' == DevRun(d, es)
  }

  predicate Unrolled(d: Dev, es: seq<Event>, d': Dev, u: bool) { true }

  lemma RunsIff(d: Dev, es: seq<Event>, d': Dev)
    requires DevInv(d)
    ensures Runs(d, es, d') <==> d' == DevRun(d, es)
  {
    assert Unrolled(d, es, d', true);
  }

  /** A run, then one more step. */
  lemma RunsNext(d0: Dev, es: seq<Event>, d: Dev, e: Event)
    requires Runs(d0, es, d) && DevInv(d)
    ensures Runs(d0, es + [e], DevStep(d, e))
  {
    RunsIff(d0, es, d);
    RunAppend(d0, es, e);
    RunsIff(d0, es + [e], DevStep(d, e));
  }

  /** Runs compose. */
  lemma RunsOn(d0: Dev, a: seq<Event>, d1: Dev, b: seq<Event>, d2: Dev)
    requires Runs(d0, a, d1) && Runs(d1, b, d2)
    ensures Runs(d0, a + b, d2)
  {
    RunsIff(d0, a, d1);
    RunsIff(d1, b, d2);
    RunConcat(d0, a, b);
    RunsIff(d0, a + b, d2);
  }

  /** From `d0` and history `h0`, `n` turns `e` of a loop led to `d` and `h`.
      Guarded like `Runs`. */
  ghost predicate Turned(d0: Dev, h0: seq<Event>, e: Event, n: nat, d: Dev, h: seq<Event>) {
    DevInv(d0) && forall u: bool {:trigger Unrolled(d0, h, d, u)} ::
      Unrolled(d0, h, d, u) ==> Runs(d0, Repeat(e, n), d) && h == h0 + Repeat(e, n)
  }

  lemma TurnedIff(d0: Dev, h0: seq<Event>, e: Event, n: nat, d: Dev, h: seq<Event>)
    requires DevInv(d0)
    ensures Turned(d0, h0, e, n, d, h) <==> Runs(d0, Repeat(e, n), d) && h == h0 + Repeat(e, n)
  {
    assert Unrolled(d0, h, d, true);
  }

  lemma TurnedNone(d: Dev, h: seq<Event>, e: Event)
    requires DevInv(d)
    ensures Turned(d, h, e, 0, d, h)
  {
    assert Repeat(e, 0) == [];
    RunsIff(d, [], d);
  }

  lemma TurnedNext(d0: Dev, h0: seq<Event>, e: Event, n: nat, d: Dev, h: seq<Event>)
    requires Turned(d0, h0, e, n, d, h) && DevInv(d)
    ensures Turned(d0, h0, e, n + 1, DevStep(d, e), h + [e])
  {
    TurnedIff(d0, h0, e, n, d, h);
    RunsNext(d0, Repeat(e, n), d, e);
    assert Repeat(e, n) + [e] == Repeat(e, n + 1);
  }

  lemma RepeatStep(d: Dev, e: Event, n: nat)
    requires DevInv(d)
    ensures DevRun(d, Repeat(e, n + 1)) == DevStep(DevRun(d, Repeat(e, n)), e)
  {
    assert Repeat(e, n + 1) == Repeat(e, n) + [e];
    RunAppend(d, Repeat(e, n), e);
  }

  lemma CompletedSuffix(q: seq<Slot<Item>>, n: nat)
    requires n <= Completed(q)
    ensures Completed(q[n..]) == Completed(q) - n
  {
    CompletedUnique(q[n..], Completed(q) - n);
  }

  /** What the receive loop does with the items of completed slots, in order. */
  function OutcomesOf(q: seq<Slot<Item>>): (out: seq<RxOutcome>)
    requires forall k :: 0 <= k < |q| ==> q[k].Done?
    ensures |out| == |q|
  {
    seq(|q|, k requires 0 <= k < |q| => Due(q[k].item))
  }

  /** The skbs of completed slots, in order. */
  function SkbsOf(q: seq<Slot<Item>>): (skbs: seq<Skb>)
    requires forall k :: 0 <= k < |q| ==> q[k].Done?
    ensures |skbs| == |q|
  {
    seq(|q|, k requires 0 <= k < |q| => q[k].item.skb)
  }

  lemma OutcomesNext(q: seq<Slot<Item>>, n: nat, out: seq<RxOutcome>)
    requires n < Completed(q)
    ensures (out + OutcomesOf(q[..n])) + [Due(q[n].item)] == out + OutcomesOf(q[..n + 1])
  {
  }

  lemma SkbsNext(q: seq<Slot<Item>>, n: nat, freed: seq<Skb>)
    requires n < Completed(q)
    ensures (freed + SkbsOf(q[..n])) + [q[n].item.skb] == freed + SkbsOf(q[..n + 1])
  {
  }

  /** `n` turns of the receive loop on a queue with at least `n` completed
      slots take exactly those `n` from the front, and pass up or free their
      skbs in that order. */
  lemma {:induction false} RxTurns(d: Dev, n: nat)
    requires DevInv(d) && n <= Completed(Window(Rx, d.rx))
    ensures var d', q := DevRun(d, Repeat(RxReap, n)), Window(Rx, d.rx);
            && Window(Rx, d'.rx) == q[n..]
            && d'.tx == d.tx && d'.pending == d.pending
            && d'.rxOut == d.rxOut + OutcomesOf(q[..n])
  {
    if n > 0 {
      var q, mid := Window(Rx, d.rx), DevRun(d, Repeat(RxReap, n - 1));
      RxTurns(d, n - 1);
      RepeatStep(d, RxReap, n - 1);
      RxReapDispatch(mid);
      assert DevRun(d, Repeat(RxReap, n)) == RxReapStep(mid);
      RxTurnNext(mid, q, n - 1, d.rxOut);
    }
  }

  lemma RxTurnNext(mid: Dev, q: seq<Slot<Item>>, n: nat, before: seq<RxOutcome>)
    requires DevInv(mid) && n < Completed(q) && Window(Rx, mid.rx) == q[n..]
    requires mid.rxOut == before + OutcomesOf(q[..n])
    ensures var d' := RxReapStep(mid);
            && Window(Rx, d'.rx) == q[n + 1..]
            && d'.tx == mid.tx && d'.pending == mid.pending
            && d'.rxOut == before + OutcomesOf(q[..n + 1])
  {
    CompletedSuffix(q, n);
    RxTurnPops(mid);
    assert q[n..][0] == q[n] && q[n..][1..] == q[n + 1..];
    OutcomesNext(q, n, before);
  }

  lemma RxTurnPops(d: Dev)
    requires DevInv(d) && Completed(Window(Rx, d.rx)) > 0
    ensures var d', q := RxReapStep(d), Window(Rx, d.rx);
            && Window(Rx, d'.rx) == q[1..]
            && d'.tx == d.tx && d'.pending == d.pending
            && d'.rxOut == d.rxOut + [Due(q[0].item)]
  {
    ReapRingPops(Rx, d.rx);
    var desc := d.rx.desc[d.rx.busy];
    if Reapable(d.rx) {
      OutcomeIsDue(d.rx.skb[d.rx.busy].value, FrameOf(Rx, desc), desc.status);
    }
  }

  /** `n` turns of the completion loop take exactly the first `n` slots and free
      their skbs in that order. */
  lemma {:induction false} TxTurns(d: Dev, n: nat)
    requires DevInv(d) && n <= Completed(Window(Tx, d.tx))
    ensures var d', q := DevRun(d, Repeat(TxReap, n)), Window(Tx, d.tx);
            && Window(Tx, d'.tx) == q[n..]
            && d'.rx == d.rx && d'.pending == d.pending
            && d'.txFreed == d.txFreed + SkbsOf(q[..n])
  {
    if n > 0 {
      var q, mid := Window(Tx, d.tx), DevRun(d, Repeat(TxReap, n - 1));
      TxTurns(d, n - 1);
      RepeatStep(d, TxReap, n - 1);
      TxReapDispatch(mid);
      assert DevRun(d, Repeat(TxReap, n)) == TxReapStep(mid);
      TxTurnNext(mid, q, n - 1, d.txFreed);
    }
  }

  lemma TxTurnNext(mid: Dev, q: seq<Slot<Item>>, n: nat, before: seq<Skb>)
    requires DevInv(mid) && n < Completed(q) && Window(Tx, mid.tx) == q[n..]
    requires mid.txFreed == before + SkbsOf(q[..n])
    ensures var d' := TxReapStep(mid);
            && Window(Tx, d'.tx) == q[n + 1..]
            && d'.rx == mid.rx && d'.pending == mid.pending
            && d'.txFreed == before + SkbsOf(q[..n + 1])
  {
    CompletedSuffix(q, n);
    TxTurnPops(mid);
    assert q[n..][0] == q[n] && q[n..][1..] == q[n + 1..];
    SkbsNext(q, n, before);
  }

  lemma TxTurnPops(d: Dev)
    requires DevInv(d) && Completed(Window(Tx, d.tx)) > 0
    ensures var d', q := TxReapStep(d), Window(Tx, d.tx);
            && Window(Tx, d'.tx) == q[1..]
            && d'.rx == d.rx && d'.pending == d.pending
            && d'.txFreed == d.txFreed + [q[0].item.skb]
  {
    ReapRingPops(Tx, d.tx);
    TxHeadIsLast(d.tx);
  }

  /** After `n` turns the loop can take another one exactly while completed
      slots are left. */
  lemma RxHeadAfter(d: Dev, h: seq<Event>, n: nat, d': Dev, h': seq<Event>)
    requires Turned(d, h, RxReap, n, d', h') && n <= Completed(Window(Rx, d.rx))
    ensures DevInv(d')
    ensures Reapable(d'.rx) <==> n < Completed(Window(Rx, d.rx))
    ensures d'.rx.count == d.rx.count - n
  {
    var q := Window(Rx, d.rx);
    TurnedIff(d, h, RxReap, n, d', h');
    RunsIff(d, Repeat(RxReap, n), d');
    RxTurns(d, n);
    ReapRingPops(Rx, d'.rx);
    assert q[n..] != [] ==> q[n..][0] == q[n];
  }

  lemma TxHeadAfter(d: Dev, h: seq<Event>, n: nat, d': Dev, h': seq<Event>)
    requires Turned(d, h, TxReap, n, d', h') && n <= Completed(Window(Tx, d.tx))
    ensures DevInv(d')
    ensures Reapable(d'.tx) <==> n < Completed(Window(Tx, d.tx))
    ensures d'.tx.count == d.tx.count - n
  {
    var q := Window(Tx, d.tx);
    TurnedIff(d, h, TxReap, n, d', h');
    RunsIff(d, Repeat(TxReap, n), d');
    TxTurns(d, n);
    ReapRingPops(Tx, d'.tx);
    assert q[n..] != [] ==> q[n..][0] == q[n];
  }

  // ------------------------------------------------------- receive budget

  function Min(a: int, b: int): int { if a < b then a else b }

  function Max(a: int, b: int): int { if a < b then b else a }

  /** Frames one call of `syn_dp_rx` takes back: the completed prefix, cut at
      the budget and at the busy count.  The loop tests its budget only after a
      turn, so a budget of zero or less still allows one frame. */
  function RxRemoved(q: seq<Slot<Item>>, budget: int): (n: nat)
    ensures n <= Completed(q)
  {
    Min(Completed(q), Max(1, Min(|q|, budget)))
  }

  /** The value one call of `syn_dp_rx` returns. */
  function RxWork(q: seq<Slot<Item>>, budget: int): int {
    if q == [] then 0 else budget - (Min(|q|, budget) - RxRemoved(q, budget))
  }

  /** The same for the two kinds of budget: up to `budget` completed frames, or
      one.  The value returned is the number of frames taken when the ring held
      at least `budget`, and otherwise falls short of the budget by the frames
      left behind. */
  lemma ReceiveTakes(q: seq<Slot<Item>>, budget: int)
    ensures budget > 0 ==> RxRemoved(q, budget) == if Completed(q) < budget then Completed(q) else budget
    ensures budget <= 0 ==> RxRemoved(q, budget) == if Completed(q) == 0 then 0 else 1
    ensures q == [] ==> RxWork(q, budget) == 0
    ensures q != [] && |q| >= budget ==> RxWork(q, budget) == RxRemoved(q, budget)
    ensures q != [] && |q| < budget ==> RxWork(q, budget) == budget - (|q| - RxRemoved(q, budget))
  {
  }

  /** How the receive loop ends: at the end of the completed prefix, or with
      its allowance used up by its last turn. */
  lemma RxLoopEnd(q: seq<Slot<Item>>, budget: int, n: nat, busy: int)
    requires q != [] && n <= Completed(q)
    requires busy == Min(|q|, budget) - n
    requires n == Completed(q) || (n >= 1 && busy <= 0)
    requires n <= 1 || busy >= 0
    ensures n == RxRemoved(q, budget) && budget - busy == RxWork(q, budget)
  {
  }

  /** Nothing was in the ring, or the loop met a slot the DMA engine still
      owns. */
  predicate RanDry(q: seq<Slot<Item>>, budget: int) {
    q == [] || (RxRemoved(q, budget) < Min(|q|, budget) && q[RxRemoved(q, budget)].Dma?)
  }

  /** For the budgets NAPI passes, the work reported stays below the budget,
      so that the poll completes and interrupts come back, exactly when the
      ring ran dry. */
  lemma PollCompletesIff(q: seq<Slot<Item>>, budget: int)
    requires InOrder(q)
    ensures budget > 0 ==> (RxWork(q, budget) < budget <==> RanDry(q, budget))
    ensures budget > 0 ==> RxRemoved(q, budget) <= budget && RxWork(q, budget) >= 0
    ensures budget > 0 && q != [] ==> RxWork(q, budget) >= RxRemoved(q, budget)
  {
  }

  // ---------------------------------------------------------------- refill

  /** What the allocator and the DMA mapping answer in one refill turn. */
  datatype Alloc = NoSkb | Unmapped(skb: Skb) | Mapped(skb: Skb, buffer: bv32)

  /** The refill turn with an skb from the allocator. */
  function RefillEvent(a: Alloc): Event
    requires !a.NoSkb?
  {
    if a.Unmapped? then RefillUnmapped(a.skb) else RefillPost(a.skb, a.buffer)
  }

  /** The refill turns of one call with `room` empty slots. */
  function RefillTrace(allocs: seq<Alloc>, room: nat): (es: seq<Event>)
    ensures |es| <= room
  {
    if room == 0 || allocs == [] || allocs[0].NoSkb? then []
    else if allocs[0].Unmapped? then [RefillUnmapped(allocs[0].skb)]
    else [RefillPost(allocs[0].skb, allocs[0].buffer)] + RefillTrace(allocs[1..], room - 1)
  }

  /** The mapped answers up to the first that is not, or up to the room there is. */
  ghost predicate MappedPrefix(allocs: seq<Alloc>, room: nat, m: nat) {
    && m <= room && m <= |allocs|
    && (forall k :: 0 <= k < m ==> allocs[k].Mapped?)
    && (m == room || m == |allocs| || !allocs[m].Mapped?)
  }

  /** A refill hands over that prefix, in order; an answer that could not be mapped
      then costs one more turn, and every other cause of ending costs none. */
  lemma {:induction false} RefillTraceIs(allocs: seq<Alloc>, room: nat, m: nat)
    requires MappedPrefix(allocs, room, m)
    ensures var es := RefillTrace(allocs, room);
            && |es| == m + (if m < room && m < |allocs| && allocs[m].Unmapped? then 1 else 0)
            && (forall k :: 0 <= k < m ==> es[k] == RefillPost(allocs[k].skb, allocs[k].buffer))
            && (|es| > m ==> es[m] == RefillUnmapped(allocs[m].skb))
  {
    if m > 0 {
      RefillTraceIs(allocs[1..], room - 1, m - 1);
      var es, rest := RefillTrace(allocs, room), RefillTrace(allocs[1..], room - 1);
      assert es == [RefillPost(allocs[0].skb, allocs[0].buffer)] + rest;
      forall k | 0 <= k < m ensures es[k] == RefillPost(allocs[k].skb, allocs[k].buffer) {
        if k > 0 {
          assert es[k] == rest[k - 1];
        }
      }
    }
  }

  /** A refill in progress: `trace` has been done with `i` answers, from `d0` and
      history `h0`, and the answers from `i` on say what is still to come.
      Guarded like `Runs`. */
  ghost predicate Refilling(allocs: seq<Alloc>, room: nat, i: nat, trace: seq<Event>,
                            d0: Dev, h0: seq<Event>, d: Dev, h: seq<Event>)
    requires i <= |allocs| && i <= room
  {
    forall u: bool {:trigger Unrolled(d0, h, d, u)} :: Unrolled(d0, h, d, u) ==>
      && Runs(d0, trace, d) && h == h0 + trace
      && RefillTrace(allocs, room) == trace + RefillTrace(allocs[i..], room - i)
  }

  /** The refill is over: all of its turns have been done. */
  ghost predicate RefillOver(allocs: seq<Alloc>, room: nat, d0: Dev, h0: seq<Event>, d: Dev, h: seq<Event>) {
    Runs(d0, RefillTrace(allocs, room), d) && h == h0 + RefillTrace(allocs, room)
  }

  lemma RefillBegins(allocs: seq<Alloc>, room: nat, d: Dev, h: seq<Event>)
    requires DevInv(d)
    ensures Refilling(allocs, room, 0, [], d, h, d, h)
  {
    RunsIff(d, [], d);
    assert allocs[0..] == allocs;
  }

  /** A mapped answer adds its turn. */
  lemma RefillNext(allocs: seq<Alloc>, room: nat, i: nat, trace: seq<Event>,
                   d0: Dev, h0: seq<Event>, d: Dev, h: seq<Event>)
    requires i < |allocs| && i < room && allocs[i].Mapped? && DevInv(d)
    requires Refilling(allocs, room, i, trace, d0, h0, d, h)
    ensures var e := RefillEvent(allocs[i]);
            Refilling(allocs, room, i + 1, trace + [e], d0, h0, DevStep(d, e), h + [e])
  {
    assert Unrolled(d0, h, d, true);
    var e := RefillEvent(allocs[i]);
    RunsNext(d0, trace, d, e);
    assert allocs[i..][1..] == allocs[i + 1..];
    assert RefillTrace(allocs[i..], room - i) == [e] + RefillTrace(allocs[i + 1..], room - (i + 1));
  }

  /** An answer that could not be mapped is the last. */
  lemma RefillFails(allocs: seq<Alloc>, room: nat, i: nat, trace: seq<Event>,
                    d0: Dev, h0: seq<Event>, d: Dev, h: seq<Event>)
    requires i < |allocs| && i < room && allocs[i].Unmapped? && DevInv(d)
    requires Refilling(allocs, room, i, trace, d0, h0, d, h)
    ensures var e := RefillEvent(allocs[i]); RefillOver(allocs, room, d0, h0, DevStep(d, e), h + [e])
  {
    assert Unrolled(d0, h, d, true);
    RunsNext(d0, trace, d, RefillEvent(allocs[i]));
  }

  /** With the ring full or no further skb nothing is to come. */
  lemma RefillStops(allocs: seq<Alloc>, room: nat, i: nat, trace: seq<Event>,
                    d0: Dev, h0: seq<Event>, d: Dev, h: seq<Event>)
    requires i <= |allocs| && i <= room && (i == room || i == |allocs| || allocs[i].NoSkb?)
    requires Refilling(allocs, room, i, trace, d0, h0, d, h)
    ensures RefillOver(allocs, room, d0, h0, d, h)
  {
    assert Unrolled(d0, h, d, true);
    assert RefillTrace(allocs, room) == trace + [] == trace;
  }

  /** The buffers the refill turns among `es` hand over, in order. */
  function PostsOf(es: seq<Event>): seq<RxReq> {
    if es == [] then []
    else
      var e := es[|es| - 1];
      PostsOf(es[..|es| - 1]) + if e.RefillPost? then [RxReq(e.refilled, e.buffer)] else []
  }

  predicate IsRefill(e: Event) { e.RefillPost? || e.RefillUnmapped? }

  /** Refill turns with room for all of them hand over exactly the mapped skbs. */
  lemma {:induction false} PostsHandedOver(s: Spec, es: seq<Event>)
    requires |s.rx| + |es| <= RING_SIZE && forall k :: 0 <= k < |es| ==> IsRefill(es[k])
    ensures var s' := SynFifo.Run(s, es);
            s'.rxPosted == s.rxPosted + PostsOf(es) && s'.txPosted == s.txPosted && |s'.rx| <= |s.rx| + |es|
  {
    if es != [] {
      PostsHandedOver(s, es[..|es| - 1]);
    }
  }

  lemma {:induction false} TraceRefills(allocs: seq<Alloc>, room: nat)
    ensures forall k :: 0 <= k < |RefillTrace(allocs, room)| ==> IsRefill(RefillTrace(allocs, room)[k])
  {
    if !(room == 0 || allocs == [] || allocs[0].NoSkb? || allocs[0].Unmapped?) {
      TraceRefills(allocs[1..], room - 1);
    }
  }

  lemma QueuedAfter(h: seq<Event>, d: Dev)
    requires Runs(SetUp(), h, d) && DevInv(d)
    ensures |SynFifo.Run(EMPTY, h).rx| == d.rx.count && |SynFifo.Run(EMPTY, h).tx| == d.tx.count
    ensures SynFifo.Run(EMPTY, h).pending == d.pending
  {
    RunsIff(SetUp(), h, d);
    EveryRunIsFifo(h);
  }

  /** A refill of at most the room there is hands the skbs it could map to the
      receive DMA, in the allocator's order. */
  lemma TraceHandsOver(h: seq<Event>, allocs: seq<Alloc>, room: nat)
    requires |SynFifo.Run(EMPTY, h).rx| + room <= RING_SIZE
    ensures var trace := RefillTrace(allocs, room); SynRuns.Handed(h, h + trace, PostsOf(trace), [])
  {
    TraceRefills(allocs, room);
    PostsHandedOver(SynFifo.Run(EMPTY, h), RefillTrace(allocs, room));
    RunOn(EMPTY, h, RefillTrace(allocs, room));
  }

  // ------------------------------------------------------------------ poll

  /** The steps of one poll: the completed prefix of the transmit ring, the
      frames the budget allows, and the refill of the room then left. */
  function PollTrace(d: Dev, budget: int, allocs: seq<Alloc>): seq<Event>
    requires DevInv(d)
  {
    var n := RxRemoved(Window(Rx, d.rx), budget);
    Repeat(TxReap, Completed(Window(Tx, d.tx))) + Repeat(RxReap, n)
    + RefillTrace(allocs, RING_SIZE - (d.rx.count - n))
  }

  /** The transmit part of a poll leaves no completed descriptor behind and
      does not touch the receive ring. */
  lemma TxPartDrains(d: Dev)
    requires DevInv(d)
    ensures var d1 := DevRun(d, Repeat(TxReap, Completed(Window(Tx, d.tx))));
            && Completed(Window(Tx, d1.tx)) == 0
            && d1.rx == d.rx
            && d1.txFreed == d.txFreed + SkbsOf(Window(Tx, d.tx)[..Completed(Window(Tx, d.tx))])
  {
    var q := Window(Tx, d.tx);
    TxTurns(d, Completed(q));
    CompletedSuffix(q, Completed(q));
  }

  /** The receive part takes the completed prefix of the queue, in order, cut
      at the budget. */
  lemma RxPartDrains(d: Dev, budget: int)
    requires DevInv(d)
    ensures var q := Window(Rx, d.rx);
            var n := RxRemoved(q, budget);
            var d2 := DevRun(d, Repeat(RxReap, n));
            && Window(Rx, d2.rx) == q[n..]
            && d2.rxOut == d.rxOut + OutcomesOf(q[..n])
            && (n < Max(1, Min(|q|, budget)) ==> Completed(Window(Rx, d2.rx)) == 0)
  {
    var q := Window(Rx, d.rx);
    RxTurns(d, RxRemoved(q, budget));
    CompletedSuffix(q, RxRemoved(q, budget));
  }
}

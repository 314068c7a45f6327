/** What holds in every run of the EDMA rings, for any number of rings in each
    direction, from index registers at zero and empty stores. */
module EdmaRuns {
  import opened Wrappers
  import opened RingIndex
  import opened EdmaPipe
  import opened EdmaRx
  import opened EdmaTx
  import EdmaRefill

  const EMPTY_SOURCE := Source(seq(RING_SIZE, _ => 0), 0, 0, 0, 0)
  const EMPTY_SINK := Sink(seq(RING_SIZE, _ => NO_REPORT), 0, 0, 0, 0)

  /** Store initialisation of `edma_configure_rings`, registers after reset. */
  function Start(sources: nat, sinks: nat): Pipe {
    Pipe(seq(RING_SIZE, _ => None), map[], seq(sources, _ => EMPTY_SOURCE), [], seq(sinks, _ => EMPTY_SINK), [], [])
  }

  function RxStart(fillRings: nat, descRings: nat): RxDev {
    RxDev(Start(fillRings, descRings), [], [], [], [], 0)
  }

  function TxStart(descRings: nat, cmplRings: nat): TxDev {
    TxDev(Start(descRings, cmplRings), [], 0)
  }

  lemma StartEmpty(sources: nat, sinks: nat)
    ensures Outstanding(Start(sources, sinks)) == multiset{}
  {
    var p := Start(sources, sinks);
    UnionEmpty(SourceParts(p.src));
    UnionEmpty(SinkParts(p.sink));
  }

  lemma StartInv(sources: nat, sinks: nat)
    ensures Inv(Start(sources, sinks))
  {
    StartEmpty(sources, sinks);
  }

  /** After reset both directions stand at the beginning of a run. */
  lemma StartReaches(fillRings: nat, rxRings: nat, txRings: nat, cmplRings: nat)
    ensures EdmaRx.Reaches(RxStart(fillRings, rxRings), RxStart(fillRings, rxRings))
    ensures EdmaTx.Reaches(TxStart(txRings, cmplRings), TxStart(txRings, cmplRings))
  {
    StartInv(fillRings, rxRings);
    StartInv(txRings, cmplRings);
    EdmaRx.ReachesItself(RxStart(fillRings, rxRings));
    EdmaTx.ReachesItself(TxStart(txRings, cmplRings));
  }

  // ------------------------------------------------------------------ receive

  /** Conservation: at every reachable state each skb obtained from the
      allocator is in the store, was passed up, or was freed; and no report was
      ever found without its skb. */
  lemma RxEveryRunConserves(fillRings: nat, descRings: nat, es: seq<RxEvent>)
    ensures var d := RxRun(RxStart(fillRings, descRings), es);
            && multiset(d.obtained) ==
               Outstanding(d.p) + multiset(Skbs(d.delivered)) + multiset(d.dropped) + multiset(d.wasted)
            && StoreMatches(d.p.store, d.p.word, Outstanding(d.p))
            && d.missing == 0
  {
    var d0 := RxStart(fillRings, descRings);
    StartInv(fillRings, descRings);
    RxRunKeeps(d0, es);
    Open(RxRun(d0, es).p);
  }

  /** If the allocator never returns the same skb twice in a run, each skb is
      passed up or freed at most once, and never while it is outstanding. */
  lemma RxEveryRunOnce(fillRings: nat, descRings: nat, es: seq<RxEvent>, b: Skb)
    requires multiset(RxRun(RxStart(fillRings, descRings), es).obtained)[b] <= 1
    ensures var d := RxRun(RxStart(fillRings, descRings), es);
            Outstanding(d.p)[b] + multiset(Skbs(d.delivered))[b] + multiset(d.dropped)[b] + multiset(d.wasted)[b] <= 1
  {
    RxEveryRunConserves(fillRings, descRings, es);
  }

  // ----------------------------------------------------------------- transmit

  /** Over any number of rings sharing the store, the outstanding tags are
      duplicate-free and are exactly the occupied slots, every skb stored is
      outstanding or was freed, and no completion finds its slot empty. */
  lemma TxEveryRunMatches(descRings: nat, cmplRings: nat, es: seq<TxEvent>)
    ensures var d := TxRun(TxStart(descRings, cmplRings), es);
            && StoreMatches(d.p.store, d.p.word, Outstanding(d.p))
            && multiset(d.p.posted) == Outstanding(d.p) + multiset(d.p.reaped)
            && d.missing == 0
  {
    var d0 := TxStart(descRings, cmplRings);
    StartInv(descRings, cmplRings);
    assert TxInv(d0);
    TxRunKeeps(d0, es);
    Open(TxRun(d0, es).p);
  }

  /** Each completion yields the very skb whose xmit wrote the tag. */
  lemma TxEveryCompletionMatches(descRings: nat, cmplRings: nat, es: seq<TxEvent>, j: nat)
    requires CanReap(TxRun(TxStart(descRings, cmplRings), es).p, j)
    ensures var d := TxRun(TxStart(descRings, cmplRings), es);
            var x := Head(d.p, j);
            && x.tag < RING_SIZE
            && d.p.store[x.tag] == Some(x.buf)
            && TxStep(d, CmplTurn(j)).p.reaped == d.p.reaped + [x.buf]
  {
    var d0 := TxStart(descRings, cmplRings);
    var d := TxRun(d0, es);
    StartInv(descRings, cmplRings);
    assert TxInv(d0);
    TxRunKeeps(d0, es);
    CompletionMatches(d, j);
  }

  lemma CompletionMatches(d: TxDev, j: nat)
    requires TxInv(d) && CanReap(d.p, j)
    ensures var x := Head(d.p, j);
            && x.tag < RING_SIZE
            && d.p.store[x.tag] == Some(x.buf)
            && TxStep(d, CmplTurn(j)).p.reaped == d.p.reaped + [x.buf]
  {
    HeadNamesItsSkb(d.p, j);
    ReapKeepsInv(d.p, j);
    assert TxStep(d, CmplTurn(j)).p == ReapFrom(d.p, j);
  }

  // ------------------------------------------------------- reached by calls

  /** The same of any state the driver routines can bring about. */
  lemma RxReachedConserves(fillRings: nat, descRings: nat, d: RxDev)
    requires EdmaRx.Reaches(RxStart(fillRings, descRings), d)
    ensures multiset(d.obtained) ==
            Outstanding(d.p) + multiset(Skbs(d.delivered)) + multiset(d.dropped) + multiset(d.wasted)
    ensures StoreMatches(d.p.store, d.p.word, Outstanding(d.p)) && d.missing == 0
  {
    var es := EdmaRx.RunTo(RxStart(fillRings, descRings), d);
    RxEveryRunConserves(fillRings, descRings, es);
  }

  lemma TxReachedMatches(descRings: nat, cmplRings: nat, d: TxDev)
    requires EdmaTx.Reaches(TxStart(descRings, cmplRings), d)
    ensures StoreMatches(d.p.store, d.p.word, Outstanding(d.p))
    ensures multiset(d.p.posted) == Outstanding(d.p) + multiset(d.p.reaped) && d.missing == 0
  {
    var es := EdmaTx.RunTo(TxStart(descRings, cmplRings), d);
    TxEveryRunMatches(descRings, cmplRings, es);
  }

  // ------------------------------------------------------------- the capacity

  /** Skbs that are exactly the contents of a store without duplicates are as
      many as its occupied slots. */
  lemma {:induction false} OccupiedSlots(m: multiset<Skb>, store: seq<Option<Skb>>)
    requires forall b :: m[b] <= 1
    requires forall b :: b in m <==> Some(b) in store
    requires forall t, u :: 0 <= t < u < |store| && store[t].Some? ==> store[t] != store[u]
    ensures |m| + EdmaRefill.FreeSlots(store) == |store|
  {
    if store == [] {
      assert m == multiset{};
    } else {
      var init, last := store[..|store| - 1], store[|store| - 1];
      assert store == init + [last];
      if last.None? {
        OccupiedSlots(m, init);
      } else {
        var m' := m - multiset{last.value};
        assert m == m' + multiset{last.value};
        OccupiedSlots(m', init);
      }
    }
  }

  lemma StoreBounds(store: Store, word: map<Skb, nat>, out: multiset<Skb>)
    requires StoreMatches(store, word, out)
    ensures |out| + EdmaRefill.FreeSlots(store) == RING_SIZE
  {
    OccupiedSlots(out, store);
  }

  /** Since all rings of a direction share one store, the buffers posted, in
      flight and unread over all of them together are as many as its occupied
      slots, so never more than 128. */
  lemma RxEveryRunFits(fillRings: nat, descRings: nat, es: seq<RxEvent>)
    ensures var p := RxRun(RxStart(fillRings, descRings), es).p;
            |Outstanding(p)| == RING_SIZE - EdmaRefill.FreeSlots(p.store) <= RING_SIZE
  {
    RxEveryRunConserves(fillRings, descRings, es);
    var p := RxRun(RxStart(fillRings, descRings), es).p;
    StoreBounds(p.store, p.word, Outstanding(p));
  }

  lemma TxEveryRunFits(descRings: nat, cmplRings: nat, es: seq<TxEvent>)
    ensures var p := TxRun(TxStart(descRings, cmplRings), es).p;
            |Outstanding(p)| == RING_SIZE - EdmaRefill.FreeSlots(p.store) <= RING_SIZE
  {
    TxEveryRunMatches(descRings, cmplRings, es);
    var p := TxRun(TxStart(descRings, cmplRings), es).p;
    StoreBounds(p.store, p.word, Outstanding(p));
  }

  // ---------------------------------------------------------------- the store

  /** No step overwrites an occupied slot: it keeps its skb until the report
      about that very skb is read. */
  lemma SlotKeptUntilReaped(p: Pipe, e: Event, t: Index, b: Skb)
    requires Inv(p) && p.store[t] == Some(b)
    ensures var p' := Step(p, e);
            if e.Reap? && CanReap(p, e.j) && Head(p, e.j).buf == b then p'.store[t].None?
            else p'.store[t] == Some(b)
  {
    if e.Reap? {
      if CanReap(p, e.j) {
        ReapSlot(p, e.j, t, b);
      }
    } else {
      OtherStepsKeepSlot(p, e, t);
    }
  }

  /** The log of skbs taken out grows by a reap alone, by the skb of the report. */
  lemma ReapedGrows(p: Pipe, e: Event)
    requires Inv(p)
    ensures Step(p, e).reaped ==
            if e.Reap? && CanReap(p, e.j) then p.reaped + [Head(p, e.j).buf] else p.reaped
  {
    if e.Reap? && CanReap(p, e.j) {
      HeadNamesItsSkb(p, e.j);
    }
  }

  /** Along a run an occupied slot keeps its skb, unless that skb is among those
      taken out since. */
  lemma {:induction false} RunKeepsSlot(p: Pipe, es: seq<Event>, t: Index, b: Skb)
    requires Inv(p) && p.store[t] == Some(b)
    ensures var p' := Run(p, es);
            && p.reaped <= p'.reaped
            && (p'.store[t] == Some(b) || b in p'.reaped[|p.reaped|..])
  {
    if es != [] {
      var q, e := Run(p, es[..|es| - 1]), es[|es| - 1];
      RunKeepsSlot(p, es[..|es| - 1], t, b);
      RunKeepsInv(p, es[..|es| - 1]);
      SlotOrLog(q, e, t, b, |p.reaped|);
    }
  }

  lemma SlotOrLog(q: Pipe, e: Event, t: Index, b: Skb, n: nat)
    requires Inv(q) && n <= |q.reaped| && (q.store[t] == Some(b) || b in q.reaped[n..])
    ensures q.reaped <= Step(q, e).reaped
    ensures Step(q, e).store[t] == Some(b) || b in Step(q, e).reaped[n..]
  {
    ReapedGrows(q, e);
    if e.Reap? && CanReap(q, e.j) {
      assert Step(q, e).reaped[n..] == q.reaped[n..] + [Head(q, e.j).buf];
    }
    if q.store[t] == Some(b) {
      SlotKeptUntilReaped(q, e, t, b);
    }
  }

  /** No refill overwrites an occupied slot: whatever a receive run does after
      some slot was found to hold `b`, the slot holds it still, or `b` has been
      taken out by the receive loop since. */
  lemma RxEveryRunKeepsSlots(fillRings: nat, descRings: nat, es: seq<RxEvent>, more: seq<RxEvent>, t: Index, b: Skb)
    requires RxRun(RxStart(fillRings, descRings), es).p.store[t] == Some(b)
    ensures var d, d' := RxRun(RxStart(fillRings, descRings), es), RxRun(RxStart(fillRings, descRings), es + more);
            && d.p.reaped <= d'.p.reaped
            && (d'.p.store[t] == Some(b) || b in d'.p.reaped[|d.p.reaped|..])
  {
    var d0 := RxStart(fillRings, descRings);
    var d := RxRun(d0, es);
    StartInv(fillRings, descRings);
    RxRunKeeps(d0, es);
    EdmaRx.RunConcat(d0, es, more);
    RxRunIsPipeRun(d, more);
    RunKeepsSlot(d.p, RxRunMoves(more), t, b);
  }

  /** The same of transmit, over all rings that share the store. */
  lemma TxEveryRunKeepsSlots(descRings: nat, cmplRings: nat, es: seq<TxEvent>, more: seq<TxEvent>, t: Index, b: Skb)
    requires TxRun(TxStart(descRings, cmplRings), es).p.store[t] == Some(b)
    ensures var d, d' := TxRun(TxStart(descRings, cmplRings), es), TxRun(TxStart(descRings, cmplRings), es + more);
            && d.p.reaped <= d'.p.reaped
            && (d'.p.store[t] == Some(b) || b in d'.p.reaped[|d.p.reaped|..])
  {
    var d0 := TxStart(descRings, cmplRings);
    var d := TxRun(d0, es);
    StartInv(descRings, cmplRings);
    TxRunKeeps(d0, es);
    EdmaTx.RunConcat(d0, es, more);
    TxRunIsPipeRun(d, more);
    RunKeepsSlot(d.p, TxRunMoves(d, more), t, b);
  }

  lemma ReapSlot(p: Pipe, j: nat, t: Index, b: Skb)
    requires Inv(p) && p.store[t] == Some(b) && CanReap(p, j)
    ensures var p' := Step(p, Reap(j));
            if Head(p, j).buf == b then p'.store[t].None? else p'.store[t] == Some(b)
  {
    HeadNamesItsSkb(p, j);
    if Head(p, j).buf == b {
      StoreInjective(p, t, Head(p, j).tag);
    }
    ReapClears(p, j, t);
  }

  lemma ReapClears(p: Pipe, j: nat, t: Index)
    requires CanReap(p, j) && Head(p, j).tag < RING_SIZE
    ensures Step(p, Reap(j)).store[t] == if t == Head(p, j).tag then None else p.store[t]
  {
  }

  lemma OtherStepsKeepSlot(p: Pipe, e: Event, t: Index)
    requires !e.Reap? && p.store[t].Some?
    ensures Step(p, e).store[t] == p.store[t]
  {
  }

  lemma StoreInjective(p: Pipe, t: Index, u: Index)
    requires Inv(p) && p.store[t].Some? && p.store[t] == p.store[u]
    ensures t == u
  {
    Open(p);
  }
}

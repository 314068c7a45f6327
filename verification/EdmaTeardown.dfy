/** Tearing down the receive rings of a quiesced EDMA: every fill and
    descriptor ring is walked from its consumer to its producer register and
    the skb behind each buffer is freed through its tag. */
module EdmaTeardown {
  import opened Wrappers
  import opened RingIndex
  import opened EdmaPipe
  import EdmaRx
  import EdmaRuns

  /** Dropping the oldest posted buffer of a producer ring. */
  function DropPosted(p: Pipe, i: nat): Pipe
    requires CanFetch(p, i)
    requires var b := p.src[i].desc[p.src[i].cons]; b in p.word && p.word[b] < RING_SIZE
  {
    var s := p.src[i];
    var b := s.desc[s.cons];
    p.(store := p.store[p.word[b] := None],
       src := p.src[i := s.(cons := Succ(s.cons))],
       reaped := p.reaped + [b])
  }

  lemma PostedTagged(p: Pipe, i: nat)
    requires Inv(p) && CanFetch(p, i)
    ensures var b := p.src[i].desc[p.src[i].cons];
            b in p.word && p.word[b] < RING_SIZE && p.store[p.word[b]] == Some(b)
  {
    Open(p);
    FetchMoves(p, i);
    PostedIsOutstanding(p, i, p.src[i].desc[p.src[i].cons]);
  }

  lemma DropRemoves(p: Pipe, i: nat)
    requires CanFetch(p, i) && SourceOk(p.src[i])
    requires var b := p.src[i].desc[p.src[i].cons]; b in p.word && p.word[b] < RING_SIZE
    ensures Outstanding(p) == Outstanding(DropPosted(p, i)) + multiset{p.src[i].desc[p.src[i].cons]}
    ensures SourceOk(DropPosted(p, i).src[i])
    ensures Posted(p.src[i]) != [] && Posted(DropPosted(p, i).src[i]) == Posted(p.src[i])[1..]
  {
    OldestLeaves(p, i);
  }

  lemma DropStore(p: Pipe, i: nat)
    requires Inv(p) && CanFetch(p, i)
    requires var b := p.src[i].desc[p.src[i].cons]; b in p.word && p.word[b] < RING_SIZE
    ensures var p' := DropPosted(p, i); StoreMatches(p'.store, p'.word, Outstanding(p'))
  {
    Open(p);
    DropRemoves(p, i);
    StoreTake(p.store, p.word, Outstanding(DropPosted(p, i)), p.src[i].desc[p.src[i].cons]);
  }

  lemma DropConserves(p: Pipe, i: nat)
    requires Conserved(p) && CanFetch(p, i) && SourceOk(p.src[i])
    requires var b := p.src[i].desc[p.src[i].cons]; b in p.word && p.word[b] < RING_SIZE
    ensures Conserved(DropPosted(p, i))
  {
    var p', b := DropPosted(p, i), p.src[i].desc[p.src[i].cons];
    DropRemoves(p, i);
    assert multiset(p.reaped + [b]) == multiset(p.reaped) + multiset{b};
    assert (Outstanding(p') + multiset{b}) + multiset(p.reaped)
        == Outstanding(p') + (multiset(p.reaped) + multiset{b});
  }

  lemma DropKeepsInv(p: Pipe, i: nat)
    requires Inv(p) && CanFetch(p, i)
    requires var b := p.src[i].desc[p.src[i].cons]; b in p.word && p.word[b] < RING_SIZE
    ensures Inv(DropPosted(p, i))
  {
    Open(p);
    DropStore(p, i);
    DropConserves(p, i);
    DropRemoves(p, i);
    RingsAfterSource(p, DropPosted(p, i), i);
    Close(DropPosted(p, i));
  }

  /** One step of a fill-ring walk. */
  lemma DropStep(p: Pipe, i: nat)
    requires Inv(p) && CanFetch(p, i)
    ensures var b := p.src[i].desc[p.src[i].cons];
            && b in p.word && p.word[b] < RING_SIZE && p.store[p.word[b]] == Some(b)
            && Inv(DropPosted(p, i))
  {
    Open(p);
    PostedTagged(p, i);
    DropKeepsInv(p, i);
  }

  /** One step of a descriptor-ring walk. */
  lemma ReapStep(p: Pipe, j: nat)
    requires Inv(p) && CanReap(p, j)
    ensures var x := Head(p, j);
            && x.buf in p.word && p.word[x.buf] == x.tag
            && x.tag < RING_SIZE && p.store[x.tag] == Some(x.buf)
            && Inv(ReapFrom(p, j)) && ReapFrom(p, j).reaped == p.reaped + [x.buf]
  {
    Open(p);
    HeadNamesItsSkb(p, j);
    ReapKeepsInv(p, j);
    var s := p.sink[j];
    SpanDrop(s.desc, s.cons, s.prod);
    assert AllTagged(p.word, Unread(s)) && Unread(s)[0] == Head(p, j);
  }

  /** The store array and the tags are those of the pipe. */
  ghost predicate Shows(p: Pipe, store: array<Option<Skb>>, word: map<Skb, nat>)
    reads store
  {
    store.Length == RING_SIZE && p.store == store[..] && p.word == word
  }

  /** `edma_cleanup_rxfill_ring_res`: the walk from consumer to producer. */
  method CleanupFillRing(store: array<Option<Skb>>, word: map<Skb, nat>, ring: Source, ghost p: Pipe, ghost i: nat)
    returns (freed: seq<Skb>, ghost p': Pipe)
    requires Shows(p, store, word) && Inv(p)
    requires i < |p.src| && p.src[i] == ring && ring.reg == ring.prod
    modifies store
    ensures Shows(p', store, word) && Inv(p')
    ensures p'.src == p.src[i := ring.(cons := ring.prod)] && p'.sink == p.sink && p'.fly == p.fly
    ensures p'.posted == p.posted && p'.reaped == p.reaped + freed
  {
    freed, p' := [], p;
    var consIdx: Index := ring.cons;
    while ring.reg != consIdx
      invariant Shows(p', store, word) && Inv(p')
      invariant p'.src == p.src[i := ring.(cons := consIdx)] && p'.sink == p.sink && p'.fly == p.fly
      invariant p'.posted == p.posted && p'.reaped == p.reaped + freed
      decreases Off(consIdx, ring.prod)
    {
      DropStep(p', i);
      p' := DropPosted(p', i);
      var storeIdx := word[ring.desc[consIdx]];
      var skb := store[storeIdx];
      store[storeIdx] := None;
      freed := freed + [skb.value];
      consIdx := Succ(consIdx);
    }
  }

  /** `edma_cleanup_rxdesc_ring_res`: the walk from consumer to producer. */
  method CleanupDescRing(store: array<Option<Skb>>, word: map<Skb, nat>, ring: Sink, ghost p: Pipe, ghost j: nat)
    returns (freed: seq<Skb>, ghost p': Pipe)
    requires Shows(p, store, word) && Inv(p)
    requires j < |p.sink| && p.sink[j] == ring && ring.reg == ring.cons
    modifies store
    ensures Shows(p', store, word) && Inv(p')
    ensures p'.src == p.src && p'.sink == p.sink[j := ring.(cons := ring.prod, seen := ring.prod)] && p'.fly == p.fly
    ensures p'.posted == p.posted && p'.reaped == p.reaped + freed
  {
    PeekKeepsInv(p, j);
    freed, p' := [], Step(p, Peek(j));
    var consIdx: Index := ring.cons;
    while consIdx != ring.prod
      invariant Shows(p', store, word) && Inv(p')
      invariant p'.src == p.src && p'.sink == p.sink[j := ring.(cons := consIdx, seen := ring.prod)] && p'.fly == p.fly
      invariant p'.posted == p.posted && p'.reaped == p.reaped + freed
      decreases Off(consIdx, ring.prod)
    {
      ReapStep(p', j);
      p' := ReapFrom(p', j);
      var storeIdx := word[ring.desc[consIdx].buf];
      var skb := store[storeIdx];
      store[storeIdx] := None;
      freed := freed + [skb.value];
      consIdx := Succ(consIdx);
    }
  }

  // ----------------------------------------------------------- all the rings

  ghost predicate Drained(p: Pipe) {
    && p.fly == []
    && (forall i :: 0 <= i < |p.src| ==> p.src[i].cons == p.src[i].prod)
    && (forall j :: 0 <= j < |p.sink| ==> p.sink[j].cons == p.sink[j].prod)
  }

  /** With every window empty nothing is outstanding, so the store is empty and
      everything ever posted has been taken out. */
  lemma DrainedIsEmpty(p: Pipe)
    requires Inv(p) && Drained(p)
    ensures forall t :: 0 <= t < RING_SIZE ==> p.store[t].None?
    ensures multiset(p.posted) == multiset(p.reaped)
  {
    Open(p);
    UnionEmpty(SourceParts(p.src));
    UnionEmpty(SinkParts(p.sink));
    assert Outstanding(p) == multiset{};
  }

  /** Tearing down all receive rings of a quiesced device: the walks end, the
      store is left empty, and exactly the outstanding skbs have been freed,
      each once. */
  method CleanupRx(store: array<Option<Skb>>, word: map<Skb, nat>, fill: seq<Source>, desc: seq<Sink>, ghost p: Pipe)
    returns (freed: seq<Skb>)
    requires Shows(p, store, word) && Inv(p) && p.src == fill && p.sink == desc
    requires p.fly == []
    requires forall i :: 0 <= i < |fill| ==> fill[i].reg == fill[i].prod
    requires forall j :: 0 <= j < |desc| ==> desc[j].reg == desc[j].cons
    modifies store
    ensures forall t :: 0 <= t < store.Length ==> store[t].None?
    ensures multiset(freed) == Outstanding(p)
  {
    freed := [];
    ghost var g := p;
    var part;
    for i := 0 to |fill|
      invariant Shows(g, store, word) && Inv(g) && g.sink == desc && g.fly == []
      invariant |g.src| == |fill|
      invariant forall k :: 0 <= k < i ==> g.src[k].cons == g.src[k].prod
      invariant forall k :: i <= k < |fill| ==> g.src[k] == fill[k]
      invariant g.posted == p.posted && g.reaped == p.reaped + freed
    {
      part, g := CleanupFillRing(store, word, fill[i], g, i);
      freed := freed + part;
    }
    for j := 0 to |desc|
      invariant Shows(g, store, word) && Inv(g) && g.fly == [] && |g.sink| == |desc|
      invariant forall k :: 0 <= k < |g.src| ==> g.src[k].cons == g.src[k].prod
      invariant forall k :: 0 <= k < j ==> g.sink[k].cons == g.sink[k].prod
      invariant forall k :: j <= k < |desc| ==> g.sink[k] == desc[k]
      invariant g.posted == p.posted && g.reaped == p.reaped + freed
    {
      part, g := CleanupDescRing(store, word, desc[j], g, j);
      freed := freed + part;
    }
    DrainedIsEmpty(g);
    FreedIsOutstanding(p, freed, g.reaped);
    assert forall t :: 0 <= t < store.Length ==> store[t] == g.store[t];
  }

  lemma FreedIsOutstanding(p: Pipe, freed: seq<Skb>, reaped: seq<Skb>)
    requires Inv(p) && reaped == p.reaped + freed && multiset(p.posted) == multiset(reaped)
    ensures multiset(freed) == Outstanding(p)
  {
    Open(p);
    assert multiset(reaped) == multiset(p.reaped) + multiset(freed);
    assert multiset(p.reaped) + multiset{} == multiset(p.reaped);
    assert multiset(freed) + multiset(p.reaped) == Outstanding(p) + (multiset(p.reaped) + multiset{});
    Cancel(multiset(freed), Outstanding(p), multiset(p.reaped), multiset{});
  }

  /** The books at the end: tearing down after any run that left the hardware
      without buffers accounts for every skb the allocator ever returned, as
      passed up, freed on the way, or freed by the tear-down. */
  method CleanupAfterRun(store: array<Option<Skb>>, word: map<Skb, nat>, fill: seq<Source>, desc: seq<Sink>,
                         ghost fillRings: nat, ghost descRings: nat, ghost es: seq<EdmaRx.RxEvent>)
    returns (freed: seq<Skb>)
    requires var p := EdmaRx.RxRun(EdmaRuns.RxStart(fillRings, descRings), es).p;
             Shows(p, store, word) && p.src == fill && p.sink == desc && p.fly == []
    requires forall i :: 0 <= i < |fill| ==> fill[i].reg == fill[i].prod
    requires forall j :: 0 <= j < |desc| ==> desc[j].reg == desc[j].cons
    modifies store
    ensures forall t :: 0 <= t < store.Length ==> store[t].None?
    ensures var d := EdmaRx.RxRun(EdmaRuns.RxStart(fillRings, descRings), es);
            multiset(d.obtained) ==
            multiset(freed) + multiset(EdmaRx.Skbs(d.delivered)) + multiset(d.dropped) + multiset(d.wasted)
  {
    EdmaRuns.RxEveryRunConserves(fillRings, descRings, es);
    ghost var d := EdmaRx.RxRun(EdmaRuns.RxStart(fillRings, descRings), es);
    RunIsInv(fillRings, descRings, es);
    freed := CleanupRx(store, word, fill, desc, d.p);
  }

  lemma RunIsInv(fillRings: nat, descRings: nat, es: seq<EdmaRx.RxEvent>)
    ensures Inv(EdmaRx.RxRun(EdmaRuns.RxStart(fillRings, descRings), es).p)
  {
    EdmaRuns.StartInv(fillRings, descRings);
    EdmaRx.RxRunKeeps(EdmaRuns.RxStart(fillRings, descRings), es);
  }
}

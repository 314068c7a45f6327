/** The ring discipline of the Synopsys GMAC data plane, without descriptor
    words: a slot is free, handed to the DMA engine, or given back by it.

    `Ring` is the circular form the driver keeps (indices and a busy count) plus
    the position of the DMA engine.  `Queue` is the same content without any
    index.  The lemmas show that the three ring operations are the three queue
    operations, and that the DMA engine always stands at the oldest slot it
    owns. */
module SlotRing {
  import opened RingIndex

  datatype Slot<T> = Free | Dma(item: T) | Done(item: T)

  datatype Ring<T> = Ring(slots: seq<Slot<T>>, busy: nat, next: nat, count: nat, dma: nat)

  // ---------------------------------------------------------------- queues

  /** Number of leading slots the DMA engine has given back. */
  function Completed<T>(q: seq<Slot<T>>): (n: nat)
    ensures n <= |q|
    ensures forall k :: 0 <= k < n ==> q[k].Done?
    ensures n < |q| ==> !q[n].Done?
  {
    if q == [] || !q[0].Done? then 0 else 1 + Completed(q[1..])
  }

  /** Completed slots come first, slots owned by the DMA engine last. */
  ghost predicate InOrder<T>(q: seq<Slot<T>>) {
    forall k :: Completed(q) <= k < |q| ==> q[k].Dma?
  }

  lemma CompletedUnique<T>(q: seq<Slot<T>>, n: nat)
    requires n <= |q|
    requires forall k :: 0 <= k < n ==> q[k].Done?
    requires n < |q| ==> !q[n].Done?
    ensures Completed(q) == n
  {
  }

  // ----------------------------------------------------------------- rings

  predicate Shape<T>(r: Ring<T>) {
    && |r.slots| == RING_SIZE
    && r.busy < RING_SIZE
    && r.count <= RING_SIZE
    && r.next == Idx(r.busy, r.count)
  }

  /** The ring window, oldest slot first. */
  function Queue<T>(r: Ring<T>): (q: seq<Slot<T>>)
    requires Shape(r)
    ensures |q| == r.count
  {
    seq(r.count, k requires 0 <= k < r.count => r.slots[Idx(r.busy, k)])
  }

  /** The ring invariant: slots outside the window are free, slots inside are
      a completed prefix and an owned suffix, and the DMA engine stands at the
      boundary between the two. */
  ghost predicate Inv<T>(r: Ring<T>) {
    && Shape(r)
    && (forall i :: 0 <= i < RING_SIZE && Off(r.busy, i) >= r.count ==> r.slots[i].Free?)
    && InOrder(Queue(r))
    && r.dma == Idx(r.busy, Completed(Queue(r)))
  }

  function Post<T>(r: Ring<T>, item: T): (r': Ring<T>)
    requires r.next < |r.slots| && r.next < RING_SIZE
  {
    r.(slots := r.slots[r.next := Dma(item)], next := Succ(r.next), count := r.count + 1)
  }

  function Reclaim<T>(r: Ring<T>): (r': Ring<T>)
    requires r.busy < |r.slots| && r.busy < RING_SIZE && r.count > 0
  {
    r.(slots := r.slots[r.busy := Free], busy := Succ(r.busy), count := r.count - 1)
  }

  /** One step of the DMA engine: the slot it stands at, if it owns it, is
      handed back carrying `item`. */
  function WriteBack<T>(r: Ring<T>, item: T): (r': Ring<T>)
    requires r.dma < |r.slots| && r.dma < RING_SIZE
  {
    r.(slots := r.slots[r.dma := Done(item)], dma := Succ(r.dma))
  }

  /** Handing a slot over appends to the queue. */
  lemma PostAppends<T>(r: Ring<T>, item: T)
    requires Inv(r) && r.count < RING_SIZE
    ensures r.slots[r.next].Free?
    ensures Inv(Post(r, item))
    ensures Queue(Post(r, item)) == Queue(r) + [Dma(item)]
  {
    var r' := Post(r, item);
    var q, q' := Queue(r), Queue(r');
    assert Off(r.busy, r.next) == r.count;
    assert q' == q + [Dma(item)];
    CompletedUnique(q', Completed(q));
  }

  /** Reclaiming the oldest slot pops the front of the queue. */
  lemma ReclaimPops<T>(r: Ring<T>)
    requires Inv(r) && r.count > 0 && r.slots[r.busy].Done?
    ensures Inv(Reclaim(r))
    ensures Queue(r)[0] == r.slots[r.busy]
    ensures Queue(Reclaim(r)) == Queue(r)[1..]
  {
    var r' := Reclaim(r);
    var q, q' := Queue(r), Queue(r');
    assert q[0] == r.slots[r.busy];
    assert q' == q[1..];
  }

  /** The DMA engine owns the slot it stands at exactly while the window holds
      a slot it has not given back. */
  lemma DmaIdleIffDrained<T>(r: Ring<T>)
    requires Inv(r)
    ensures r.slots[r.dma].Dma? <==> Completed(Queue(r)) < r.count
  {
    var q, c := Queue(r), Completed(Queue(r));
    if c < r.count {
      assert q[c] == r.slots[r.dma];
    } else if c < RING_SIZE {
      assert Off(r.busy, r.dma) == c;
    } else {
      assert q[0] == r.slots[r.dma];
    }
  }

  /** The DMA engine can only give back the oldest slot it owns. */
  lemma WriteBackCompletesOldest<T>(r: Ring<T>, item: T)
    requires Inv(r) && r.slots[r.dma].Dma?
    ensures Completed(Queue(r)) < r.count
    ensures Queue(r)[Completed(Queue(r))] == r.slots[r.dma]
    ensures Inv(WriteBack(r, item))
    ensures Queue(WriteBack(r, item)) == Queue(r)[Completed(Queue(r)) := Done(item)]
    ensures Completed(Queue(WriteBack(r, item))) == Completed(Queue(r)) + 1
  {
    var r' := WriteBack(r, item);
    var q, q', c := Queue(r), Queue(r'), Completed(Queue(r));
    DmaIdleIffDrained(r);
    assert q' == q[c := Done(item)];
    CompletedUnique(q', c + 1);
  }
}

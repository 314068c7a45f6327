/** The refill loop of `edma_alloc_rx_buffer` with nothing assumed about the
    index registers: whatever values they return, the loop ends, because every
    turn that goes on claims a free slot of the store. */
module EdmaRefill {
  import opened Wrappers
  import opened RingIndex
  import opened EdmaPipe

  lemma {:induction false} BitAndBelow(x: nat, y: nat)
    ensures BitAnd(x, y) <= y
  {
    if x > 0 && y > 0 {
      BitAndBelow(x / 2, y / 2);
    }
  }

  /** Number of empty slots. */
  function FreeSlots(s: seq<Option<Skb>>): nat {
    if s == [] then 0 else FreeSlots(s[..|s| - 1]) + if s[|s| - 1].None? then 1 else 0
  }

  lemma {:induction false} FreeBelow(s: seq<Option<Skb>>)
    ensures FreeSlots(s) <= |s|
  {
    if s != [] {
      FreeBelow(s[..|s| - 1]);
    }
  }

  lemma {:induction false} ClaimSlot(s: seq<Option<Skb>>, t: nat, b: Skb)
    requires t < |s| && s[t].None?
    ensures FreeSlots(s[t := Some(b)]) == FreeSlots(s) - 1
  {
    var n := |s| - 1;
    if t == n {
      assert s[t := Some(b)][..n] == s[..n];
    } else {
      ClaimSlot(s[..n], t, b);
      assert s[t := Some(b)][..n] == s[..n][t := Some(b)];
    }
  }

  /** What the allocator and the DMA mapping answer in one turn. */
  datatype Alloc = NoSkb | Got(skb: Skb, mapped: bool)

  /** A turn at producer index `next` posts a buffer: the ring has room, there is
      an skb, its store slot is free, and it can be mapped. */
  predicate Goes(store: seq<Option<Skb>>, next: nat, cons: nat, a: Alloc)
    requires |store| == RING_SIZE && next < RING_SIZE
  {
    Succ(next) != cons && a.Got? && store[next].None? && a.mapped
  }

  /** How many buffers the loop of `edma_alloc_rx_buffer` posts, from producer
      index `next`, with the answers of the allocator from number `pos` on.  Every
      turn that goes on claims a free store slot, so it ends for any value of
      the consumer register. */
  function Turns(store: seq<Option<Skb>>, next: nat, cons: nat, supply: nat -> Alloc, pos: nat): nat
    requires |store| == RING_SIZE && next < RING_SIZE
    decreases FreeSlots(store)
  {
    if !Goes(store, next, cons, supply(pos)) then 0
    else
      ClaimSlot(store, next, supply(pos).skb);
      1 + Turns(store[next := Some(supply(pos).skb)], Succ(next), cons, supply, pos + 1)
  }

  lemma TurnGoes(store: seq<Option<Skb>>, next: nat, cons: nat, supply: nat -> Alloc, pos: nat)
    requires |store| == RING_SIZE && next < RING_SIZE && Goes(store, next, cons, supply(pos))
    ensures Turns(store, next, cons, supply, pos)
         == 1 + Turns(store[next := Some(supply(pos).skb)], Succ(next), cons, supply, pos + 1)
  {
  }

  lemma TurnStops(store: seq<Option<Skb>>, next: nat, cons: nat, supply: nat -> Alloc, pos: nat)
    requires |store| == RING_SIZE && next < RING_SIZE && !Goes(store, next, cons, supply(pos))
    ensures Turns(store, next, cons, supply, pos) == 0
  {
  }

  /** The `num` slots from `first` on were free and now hold the allocator's
      answers from number `base` on, all of them mapped, in order; every other slot is as it was. */
  ghost predicate Claimed(before: seq<Option<Skb>>, after: seq<Option<Skb>>, first: nat, num: nat,
                          supply: nat -> Alloc, base: nat)
    requires |before| == RING_SIZE && |after| == RING_SIZE && first < RING_SIZE
  {
    forall t :: 0 <= t < RING_SIZE ==>
      if Off(first, t) < num then
        && before[t].None? && supply(base + Off(first, t)).Got? && supply(base + Off(first, t)).mapped
        && after[t] == Some(supply(base + Off(first, t)).skb)
      else after[t] == before[t]
  }

  lemma ClaimNext(before: seq<Option<Skb>>, s: seq<Option<Skb>>, first: nat, num: nat, supply: nat -> Alloc, base: nat)
    requires |before| == RING_SIZE && |s| == RING_SIZE && first < RING_SIZE && num < RING_SIZE
    requires Claimed(before, s, first, num, supply, base)
    requires s[Idx(first, num)].None? && supply(base + num).Got? && supply(base + num).mapped
    ensures Claimed(before, s[Idx(first, num) := Some(supply(base + num).skb)], first, num + 1, supply, base)
    ensures Idx(first, num + 1) == Succ(Idx(first, num))
  {
  }

  // -------------------------------------------------- a first fill, worked out

  /** An allocator that never fails, with a mapping that never fails. */
  ghost predicate Generous(supply: nat -> Alloc) {
    forall k: nat :: supply(k).Got? && supply(k).mapped
  }

  /** With nothing in the way, a ring with consumer index 0 is filled up to its
      last but one slot. */
  lemma {:induction false} FillsToTheEnd(store: seq<Option<Skb>>, next: nat, supply: nat -> Alloc, pos: nat)
    requires |store| == RING_SIZE && next < RING_SIZE && Generous(supply)
    requires forall t :: next <= t < RING_SIZE ==> store[t].None?
    ensures Turns(store, next, 0, supply, pos) == RING_SIZE - 1 - next
    decreases RING_SIZE - next
  {
    if next < RING_SIZE - 1 {
      TurnGoes(store, next, 0, supply, pos);
      FillsToTheEnd(store[next := Some(supply(pos).skb)], next + 1, supply, pos + 1);
    } else {
      TurnStops(store, next, 0, supply, pos);
    }
  }

  // ------------------------------------------------------------------- the loop

  /** The loop on the raw register values. */
  method Refill(store: array<Option<Skb>>, prodReg: nat, consReg: nat, supply: nat -> Alloc)
    returns (num: nat, next: nat)
    requires store.Length == RING_SIZE
    modifies store
    ensures num <= FreeSlots(old(store[..])) <= RING_SIZE
    ensures FreeSlots(store[..]) == FreeSlots(old(store[..])) - num
    ensures var first := BitAnd(BitAnd(prodReg, 0xffff), RING_SIZE - 1);
            && first < RING_SIZE && next == Idx(first, num)
            && num == Turns(old(store[..]), first, BitAnd(consReg, 0xffff), supply, 0)
            && Claimed(old(store[..]), store[..], first, num, supply, 0)
  {
    BitAndBelow(BitAnd(prodReg, 0xffff), RING_SIZE - 1);
    var first: nat := BitAnd(BitAnd(prodReg, 0xffff), RING_SIZE - 1);
    var cons := BitAnd(consReg, 0xffff);
    FreeBelow(store[..]);
    num, next := RefillFrom(store, first, cons, supply);
  }

  /** The loop itself, from producer index `first`. */
  method RefillFrom(store: array<Option<Skb>>, first: nat, cons: nat, supply: nat -> Alloc)
    returns (num: nat, next: nat)
    requires store.Length == RING_SIZE && first < RING_SIZE
    modifies store
    ensures num + FreeSlots(store[..]) == FreeSlots(old(store[..])) && num <= RING_SIZE && next == Idx(first, num)
    ensures num == Turns(old(store[..]), first, cons, supply, 0)
    ensures Claimed(old(store[..]), store[..], first, num, supply, 0)
  {
    next, num := first, 0;
    FreeBelow(store[..]);
    while true
      invariant num + FreeSlots(store[..]) == FreeSlots(old(store[..])) <= RING_SIZE
      invariant next == Idx(first, num)
      invariant Turns(old(store[..]), first, cons, supply, 0) == num + Turns(store[..], next, cons, supply, num)
      invariant Claimed(old(store[..]), store[..], first, num, supply, 0)
      decreases FreeSlots(store[..])
    {
      ghost var before := store[..];
      var go, counter := RefillTurn(store, next, cons, supply(num));
      if !go {
        TurnStops(before, next, cons, supply, num);
        return;
      }
      TurnGoes(before, next, cons, supply, num);
      ClaimSlot(before, next, supply(num).skb);
      ClaimNext(old(store[..]), before, first, num, supply, 0);
      num, next := num + 1, counter;
    }
  }

  /** One turn, with answer `a` of the allocator. */
  method RefillTurn(store: array<Option<Skb>>, next: nat, cons: nat, a: Alloc) returns (go: bool, counter: nat)
    requires store.Length == RING_SIZE && next < RING_SIZE
    modifies store
    ensures go <==> Goes(old(store[..]), next, cons, a)
    ensures counter == Succ(next)
    ensures store[..] == if go then old(store[..])[next := Some(a.skb)] else old(store[..])
  {
    counter := next + 1;
    if counter == RING_SIZE {
      counter := 0;
    }
    if counter == cons {
      return false, counter;
    }
    if a.NoSkb? {
      return false, counter;
    }
    if store[next].Some? {
      return false, counter;
    }
    store[next] := Some(a.skb);
    if !a.mapped {
      store[next] := None;
      assert store[..] == old(store[..]);
      return false, counter;
    }
    return true, counter;
  }
}

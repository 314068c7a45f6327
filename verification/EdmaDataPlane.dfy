/** The EDMA data plane as the driver keeps it: two skb stores updated in
    place, ring structures with their descriptor memory and index registers,
    and the driver routines that work on them.

    Each routine is proved to be a run of `EdmaRx` or `EdmaTx` (it leads from
    one state a run can reach to another), so what `EdmaRuns` says of runs
    holds of any sequence of calls.

    The working indices a routine keeps in local variables in the driver are
    the `prod`, `cons` and `seen` components of the ring it works on; between
    calls they agree with the index registers. */
module EdmaDataPlane {
  import opened Wrappers
  import opened RingIndex
  import opened EdmaPipe
  import EdmaRx
  import EdmaTx
  import EdmaRefill
  import EdmaRuns

  type RxDev = EdmaRx.RxDev
  type TxDev = EdmaTx.TxDev

  type Alloc = EdmaRefill.Alloc

  /** The skbs of `n` answers of the allocator, from number `base` on. */
  function Supplied(supply: nat -> Alloc, base: nat, n: nat): (s: seq<Skb>)
    ensures |s| == n
  {
    if n == 0 then []
    else
      var a := supply(base + n - 1);
      Supplied(supply, base, n - 1) + [if a.Got? then a.skb else 0]
  }

  /** Answers from number `n` on are skbs the driver does not hold. */
  ghost predicate FreshFrom(supply: nat -> Alloc, n: nat, store: seq<Option<Skb>>) {
    forall k: nat :: n <= k && supply(k).Got? ==> Some(supply(k).skb) !in store
  }

  /** Skb numbers are allocation identities: no two answers give the same one. */
  ghost predicate Distinct(supply: nat -> Alloc) {
    forall k: nat, l: nat :: k < l && supply(k).Got? && supply(l).Got? ==> supply(k).skb != supply(l).skb
  }

  lemma FreshPut(supply: nat -> Alloc, n: nat, store: seq<Option<Skb>>, t: nat)
    requires Distinct(supply) && FreshFrom(supply, n, store) && supply(n).Got? && t < |store|
    ensures FreshFrom(supply, n + 1, store[t := Some(supply(n).skb)])
  {
  }

  /** Fill ring `i` has been given `num` answers of the allocator, in order, each
      with a store slot that was free; nothing else has happened to any fill ring
      or to the store. */
  ghost predicate Filled(before: seq<Source>, now: seq<Source>, i: nat, st: Store, st': Store,
                         supply: nat -> Alloc, base: nat, num: nat)
  {
    && i < |before| && |now| == |before|
    && now == before[i := now[i]]
    && now[i] == before[i].(desc := now[i].desc, prod := now[i].prod)
    && Posted(now[i]) == Posted(before[i]) + Supplied(supply, base, num)
    && num < RING_SIZE && now[i].prod == Idx(before[i].prod, num)
    && EdmaRefill.Claimed(st, st', before[i].prod, num, supply, base)
  }

  lemma FilledNext(before: seq<Source>, mid: seq<Source>, now: seq<Source>, i: nat, st: Store, st': Store,
                   supply: nat -> Alloc, base: nat, num: nat)
    requires Filled(before, mid, i, st, st', supply, base, num) && supply(base + num).Got? && supply(base + num).mapped
    requires st'[mid[i].prod].None?
    requires |now| == |mid| && now == mid[i := now[i]]
    requires now[i] == mid[i].(desc := now[i].desc, prod := Succ(mid[i].prod))
    requires Posted(now[i]) == Posted(mid[i]) + [supply(base + num).skb]
    ensures Filled(before, now, i, st, st'[mid[i].prod := Some(supply(base + num).skb)], supply, base, num + 1)
  {
    SuppliedNext(supply, base, num, Posted(before[i]));
    EdmaRefill.ClaimNext(st, st', before[i].prod, num, supply, base);
  }

  /** A refill loop in progress: `num` buffers are posted, and what it has still
      to post makes up the rest of `Turns`.  The facts sit behind a quantifier,
      as in `EdmaPipe.Inv`. */
  ghost predicate Filling(before: seq<Source>, now: seq<Source>, i: nat, st: Store, st': Store,
                          supply: nat -> Alloc, base: nat, num: nat)
  {
    forall u: bool {:trigger AtTurn(now, num, u)} :: AtTurn(now, num, u) ==>
      && Filled(before, now, i, st, st', supply, base, num)
      && EdmaRefill.Turns(st, before[i].prod, before[i].cons, supply, base)
         == num + EdmaRefill.Turns(st', now[i].prod, now[i].cons, supply, base + num)
      && FreshFrom(supply, base + num, st')
  }

  predicate AtTurn(now: seq<Source>, num: nat, u: bool) { true }

  lemma FillingBegins(before: seq<Source>, i: nat, st: Store, supply: nat -> Alloc, base: nat)
    requires i < |before| && FreshFrom(supply, base, st)
    ensures Filling(before, before, i, st, st, supply, base, 0)
  {
  }

  /** What the next turn relies on. */
  lemma FillingAt(before: seq<Source>, now: seq<Source>, i: nat, st: Store, st': Store,
                  supply: nat -> Alloc, base: nat, num: nat)
    requires Filling(before, now, i, st, st', supply, base, num)
    ensures i < |now| == |before| && num < RING_SIZE
    ensures now[i].cons == before[i].cons && now[i].seen == before[i].seen
    ensures supply(base + num).Got? ==> Some(supply(base + num).skb) !in st'
  {
    assert AtTurn(now, num, true);
  }

  lemma FillingNext(before: seq<Source>, mid: seq<Source>, now: seq<Source>, i: nat, st: Store, st': Store,
                    supply: nat -> Alloc, base: nat, num: nat)
    requires Filling(before, mid, i, st, st', supply, base, num) && Distinct(supply) && i < |mid|
    requires EdmaRefill.Goes(st', mid[i].prod, mid[i].cons, supply(base + num))
    requires |now| == |mid| && now == mid[i := now[i]]
    requires now[i] == mid[i].(desc := now[i].desc, prod := Succ(mid[i].prod))
    requires Posted(now[i]) == Posted(mid[i]) + [supply(base + num).skb]
    ensures Filling(before, now, i, st, st'[mid[i].prod := Some(supply(base + num).skb)], supply, base, num + 1)
    ensures num + 1 < RING_SIZE
  {
    assert AtTurn(mid, num, true);
    EdmaRefill.TurnGoes(st', mid[i].prod, mid[i].cons, supply, base + num);
    FreshPut(supply, base + num, st', mid[i].prod);
    FilledNext(before, mid, now, i, st, st', supply, base, num);
  }

  /** The loop ends at the first turn that cannot go; a failed mapping leaves
      the ring's window, its indices and the store as they were. */
  lemma FillingEnds(before: seq<Source>, mid: seq<Source>, now: seq<Source>, i: nat, st: Store, st': Store,
                    supply: nat -> Alloc, base: nat, num: nat)
    requires Filling(before, mid, i, st, st', supply, base, num) && i < |mid|
    requires !EdmaRefill.Goes(st', mid[i].prod, mid[i].cons, supply(base + num))
    requires |now| == |mid| && now == mid[i := now[i]]
    requires now[i] == mid[i].(desc := now[i].desc) && Posted(now[i]) == Posted(mid[i])
    ensures Filled(before, now, i, st, st', supply, base, num)
    ensures num == EdmaRefill.Turns(st, before[i].prod, before[i].cons, supply, base)
    ensures FreshFrom(supply, base + num, st')
  {
    assert AtTurn(mid, num, true);
    EdmaRefill.TurnStops(st', mid[i].prod, mid[i].cons, supply, base + num);
  }

  lemma SuppliedNext(supply: nat -> Alloc, base: nat, num: nat, q: seq<Skb>)
    requires supply(base + num).Got?
    ensures q + Supplied(supply, base, num + 1) == (q + Supplied(supply, base, num)) + [supply(base + num).skb]
  {
  }

  /** What one call of `edma_alloc_rx_buffer` does to its ring and to the store:
      it posts exactly as many buffers as `Turns` says, in the allocator's order,
      and publishes the new producer index. */
  ghost predicate Refilled(before: Source, after: Source, st: Store, st': Store,
                           supply: nat -> Alloc, base: nat, num: nat)
  {
    && num == EdmaRefill.Turns(st, before.prod, before.cons, supply, base) && num < RING_SIZE
    && after.cons == before.cons && after.prod == Idx(before.prod, num) && after.reg == after.prod
    && Posted(after) == Posted(before) + Supplied(supply, base, num)
    && EdmaRefill.Claimed(st, st', before.prod, num, supply, base)
  }

  /** A producer index that has caught up with the consumer means 127 posted
      buffers. */
  lemma FullRing(s: Source)
    requires Succ(s.prod) == s.cons
    ensures |Posted(s)| == RING_SIZE - 1
  {
  }

  ghost predicate Shrunk(before: seq<Option<Skb>>, after: seq<Option<Skb>>) {
    |before| == |after| && forall t :: 0 <= t < |after| ==> after[t] == before[t] || after[t].None?
  }

  /** What has been taken out of the store, then what is still to be taken out
      through the reports of one ring, in order. */
  function Ledger(reaped: seq<Skb>, s: Sink): seq<Skb> { reaped + Bufs(Unread(s)) }

  lemma LedgerTurn(reaped: seq<Skb>, s: Sink, t: Sink)
    requires Unread(s) != [] && Unread(t) == Unread(s)[1..]
    ensures Ledger(reaped + [Unread(s)[0].buf], t) == Ledger(reaped, s)
  {
    assert Bufs(Unread(s)) == [Unread(s)[0].buf] + Bufs(Unread(t));
  }

  lemma LedgerRest(before: seq<Skb>, after: seq<Skb>, s: Sink, t: Sink)
    requires Ledger(after, t) == Ledger(before, s) && Unread(t) == []
    ensures after == before + Bufs(Unread(s))
  {
  }

  // ------------------------------------------------------ what a poll has done

  /** One RXDESC ring in one poll: reports taken, whether its loop ended at the
      producer index, and buffers its fill ring was given. */
  datatype RingPoll = RingPoll(work: nat, drained: bool, num: nat)

  /** From `d` to `now` the reports `taken` were taken from ring `j`: they are the
      unread reports of `d`, in order, and reports that came in meanwhile, and
      each skb was passed up or freed as `Classify` says.  The facts sit behind a
      quantifier, as in `EdmaPipe.Inv`. */
  ghost predicate Took(d: RxDev, now: RxDev, j: nat, taken: seq<Report>, ports: seq<EdmaRx.Port>) {
    forall u: bool {:trigger AtReport(now, taken, u)} :: AtReport(now, taken, u) ==>
      && EdmaRx.Disposed(d, now, taken, ports)
      && j < |d.p.sink| == |now.p.sink| && Unread(d.p.sink[j]) <= taken + Unread(now.p.sink[j])
  }

  predicate AtReport(now: RxDev, taken: seq<Report>, u: bool) { true }

  lemma TookIff(d: RxDev, now: RxDev, j: nat, taken: seq<Report>, ports: seq<EdmaRx.Port>)
    ensures Took(d, now, j, taken, ports) <==>
            && EdmaRx.Disposed(d, now, taken, ports)
            && j < |d.p.sink| == |now.p.sink| && Unread(d.p.sink[j]) <= taken + Unread(now.p.sink[j])
  {
    assert AtReport(now, taken, true);
  }

  lemma TookNone(d: RxDev, j: nat, ports: seq<EdmaRx.Port>)
    requires j < |d.p.sink|
    ensures Took(d, d, j, [], ports)
  {
    assert Bufs([]) == [] && [] + Unread(d.p.sink[j]) == Unread(d.p.sink[j]);
  }

  /** Reports come in. */
  lemma TookWaits(d: RxDev, a: RxDev, b: RxDev, j: nat, taken: seq<Report>, ports: seq<EdmaRx.Port>)
    requires Took(d, a, j, taken, ports)
    requires b.p.reaped == a.p.reaped && b.delivered == a.delivered && b.dropped == a.dropped
    requires j < |b.p.sink| == |a.p.sink| && Unread(a.p.sink[j]) <= Unread(b.p.sink[j])
    ensures Took(d, b, j, taken, ports)
  {
    TookIff(d, a, j, taken, ports);
  }

  /** One more is taken. */
  lemma TookNext(d: RxDev, a: RxDev, b: RxDev, j: nat, taken: seq<Report>, x: Report, ports: seq<EdmaRx.Port>)
    requires Took(d, a, j, taken, ports)
    requires b.p.reaped == a.p.reaped + [x.buf]
    requires b.delivered == a.delivered + EdmaRx.Passing(x, ports)
    requires b.dropped == a.dropped + EdmaRx.Freeing(x, ports)
    requires j < |b.p.sink| == |a.p.sink| && Unread(a.p.sink[j]) == [x] + Unread(b.p.sink[j])
    ensures Took(d, b, j, taken + [x], ports)
  {
    TookIff(d, a, j, taken, ports);
    EdmaRx.DisposedNext(d, a, b, taken, x, ports);
    assert taken + ([x] + Unread(b.p.sink[j])) == (taken + [x]) + Unread(b.p.sink[j]);
  }

  /** From `d` the receive loop of ring `j` led to `end`: it took `work` reports
      and ended either at the producer index or with its allowance used up. */
  ghost predicate Drained(d: RxDev, end: RxDev, j: nat, work: nat, drained: bool, workToDo: nat,
                          ports: seq<EdmaRx.Port>, taken: seq<Report>)
  {
    && EdmaRx.Reaches(d, end)
    && j < |d.p.sink| == |end.p.sink|
    && Took(d, end, j, taken, ports) && |taken| == work <= workToDo
    && (if drained then end.p.sink[j].cons == end.p.sink[j].prod else work == workToDo)
    && Shrunk(d.p.store, end.p.store)
  }

  /** From `end` the refill of fill ring `f` and the publication of the consumer
      index of ring `j` led to `d'`. */
  ghost predicate Restocked(end: RxDev, d': RxDev, j: nat, f: nat, supply: nat -> Alloc, base: nat, num: nat) {
    && EdmaRx.Reaches(end, d')
    && f < |end.p.src| == |d'.p.src|
    && Refilled(end.p.src[f], d'.p.src[f], end.p.store, d'.p.store, supply, base, num)
    && (forall k :: 0 <= k < |d'.p.src| && k != f ==> d'.p.src[k] == end.p.src[k])
    && d'.p.reaped == end.p.reaped && d'.delivered == end.delivered && d'.dropped == end.dropped
    && |d'.p.posted| == |end.p.posted| + num
    && j < |end.p.sink| && d'.p.sink == end.p.sink[j := end.p.sink[j].(reg := end.p.sink[j].cons)]
  }

  /** The states a poll passes through: before each RXDESC ring and after the
      last (`states`), at the end of each receive loop (`ends`), with the number
      of the first answer of the allocator in each refill (`bases`) and the
      reports each loop took (`taken`). */
  datatype RxTrail = RxTrail(states: seq<RxDev>, ends: seq<RxDev>, bases: seq<nat>, taken: seq<seq<Report>>)

  ghost predicate RxPolled(t: RxTrail, polls: seq<RingPoll>, budget: nat, ports: seq<EdmaRx.Port>, fillOf: seq<nat>,
                         supply: nat -> Alloc)
  {
    && |t.states| == |polls| + 1 && |t.ends| == |polls| == |t.bases| == |t.taken| && |polls| <= |fillOf|
    && forall j {:trigger RingPolled(t, j, polls[j], budget, ports, fillOf[j], supply)} ::
         0 <= j < |polls| ==> RingPolled(t, j, polls[j], budget, ports, fillOf[j], supply)
  }

  ghost predicate RingPolled(t: RxTrail, j: nat, r: RingPoll, budget: nat, ports: seq<EdmaRx.Port>, f: nat,
                           supply: nat -> Alloc)
    requires j < |t.ends| == |t.bases| == |t.taken| && |t.states| == |t.ends| + 1
  {
    && Drained(t.states[j], t.ends[j], j, r.work, r.drained, budget, ports, t.taken[j])
    && Restocked(t.ends[j], t.states[j + 1], j, f, supply, t.bases[j], r.num)
  }

  /** Extending a trail by one more ring. */
  lemma RxPolledNext(t: RxTrail, polls: seq<RingPoll>, budget: nat, ports: seq<EdmaRx.Port>, fillOf: seq<nat>, supply: nat -> Alloc,
                     r: RingPoll, end: RxDev, after: RxDev, base: nat, taken: seq<Report>)
    requires RxPolled(t, polls, budget, ports, fillOf, supply) && |polls| < |fillOf|
    requires Drained(t.states[|polls|], end, |polls|, r.work, r.drained, budget, ports, taken)
    requires Restocked(end, after, |polls|, fillOf[|polls|], supply, base, r.num)
    ensures RxPolled(RxTrail(t.states + [after], t.ends + [end], t.bases + [base], t.taken + [taken]),
                     polls + [r], budget, ports, fillOf, supply)
  {
    var n, t' := |polls|, RxTrail(t.states + [after], t.ends + [end], t.bases + [base], t.taken + [taken]);
    forall j | 0 <= j < n + 1 ensures RingPolled(t', j, (polls + [r])[j], budget, ports, fillOf[j], supply) {
      if j < n {
        assert RingPolled(t, j, polls[j], budget, ports, fillOf[j], supply);
      }
    }
  }

  /** Everything a poll took, in order. */
  function Flat(qs: seq<seq<Report>>): seq<Report> {
    if qs == [] then [] else Flat(qs[..|qs| - 1]) + qs[|qs| - 1]
  }

  /** The outcome of a poll up to ring `j`. */
  lemma {:induction false} TrailDisposes(t: RxTrail, polls: seq<RingPoll>, budget: nat, ports: seq<EdmaRx.Port>,
                                         fillOf: seq<nat>, supply: nat -> Alloc, j: nat)
    requires RxPolled(t, polls, budget, ports, fillOf, supply) && j <= |polls|
    ensures EdmaRx.Disposed(t.states[0], t.states[j], Flat(t.taken[..j]), ports)
  {
    if j == 0 {
      assert Bufs([]) == [];
    } else {
      TrailDisposes(t, polls, budget, ports, fillOf, supply, j - 1);
      assert RingPolled(t, j - 1, polls[j - 1], budget, ports, fillOf[j - 1], supply);
      TookIff(t.states[j - 1], t.ends[j - 1], j - 1, t.taken[j - 1], ports);
      EdmaRx.DisposedOn(t.states[0], t.states[j - 1], t.states[j], Flat(t.taken[..j - 1]), t.taken[j - 1], ports);
      assert t.taken[..j][..j - 1] == t.taken[..j - 1];
    }
  }

  function TotalWork(polls: seq<RingPoll>): nat {
    if polls == [] then 0 else TotalWork(polls[..|polls| - 1]) + polls[|polls| - 1].work
  }

  lemma TotalWorkNext(polls: seq<RingPoll>, r: RingPoll)
    ensures TotalWork(polls + [r]) == TotalWork(polls) + r.work
  {
    assert (polls + [r])[..|polls|] == polls;
  }

  lemma {:induction false} WorkBounds(polls: seq<RingPoll>, j: nat)
    requires j < |polls|
    ensures polls[j].work <= TotalWork(polls)
  {
    if j < |polls| - 1 {
      WorkBounds(polls[..|polls| - 1], j);
    }
  }

  /** A ring cut by the budget alone makes the total reach the budget; so a total
      below it means that every loop ended at its producer index. */
  lemma BelowBudgetDrained(t: RxTrail, polls: seq<RingPoll>, budget: nat, ports: seq<EdmaRx.Port>, fillOf: seq<nat>, supply: nat -> Alloc, j: nat)
    requires RxPolled(t, polls, budget, ports, fillOf, supply) && TotalWork(polls) < budget && j < |polls|
    ensures polls[j].drained
    ensures j < |t.ends[j].p.sink| && t.ends[j].p.sink[j].cons == t.ends[j].p.sink[j].prod
  {
    assert RingPolled(t, j, polls[j], budget, ports, fillOf[j], supply);
    WorkBounds(polls, j);
  }

  /** The store before each fill ring and after the last, and the number of the
      first answer of the allocator for each. */
  datatype FillTrail = FillTrail(stores: seq<Store>, bases: seq<nat>)

  ghost predicate AllRefilled(before: seq<Source>, after: seq<Source>, t: FillTrail, supply: nat -> Alloc, nums: seq<nat>) {
    && |before| == |after| && |nums| == |t.bases| <= |before| && |t.stores| == |nums| + 1
    && (forall i {:trigger RingRefilled(before, after, t, i, supply, nums[i])} :: 0 <= i < |nums| ==>
          RingRefilled(before, after, t, i, supply, nums[i]))
    && (forall i :: |nums| <= i < |before| ==> after[i] == before[i])
  }

  ghost predicate RingRefilled(before: seq<Source>, after: seq<Source>, t: FillTrail, i: nat, supply: nat -> Alloc, num: nat)
    requires i < |before| == |after| && i < |t.bases| && |t.stores| == |t.bases| + 1
  {
    Refilled(before[i], after[i], t.stores[i], t.stores[i + 1], supply, t.bases[i], num)
  }

  lemma AllRefilledNext(before: seq<Source>, mid: seq<Source>, after: seq<Source>, t: FillTrail,
                        supply: nat -> Alloc, nums: seq<nat>, store: Store, base: nat, num: nat)
    requires AllRefilled(before, mid, t, supply, nums) && |nums| < |before| == |after|
    requires Refilled(mid[|nums|], after[|nums|], t.stores[|nums|], store, supply, base, num)
    requires forall k :: 0 <= k < |after| && k != |nums| ==> after[k] == mid[k]
    ensures AllRefilled(before, after, FillTrail(t.stores + [store], t.bases + [base]), supply, nums + [num])
  {
    var n, t' := |nums|, FillTrail(t.stores + [store], t.bases + [base]);
    forall i | 0 <= i < n + 1 ensures RingRefilled(before, after, t', i, supply, (nums + [num])[i]) {
      if i < n {
        assert RingRefilled(before, mid, t, i, supply, nums[i]);
      }
    }
  }

  function Sum(nums: seq<nat>): nat {
    if nums == [] then 0 else Sum(nums[..|nums| - 1]) + nums[|nums| - 1]
  }

  lemma SumNext(nums: seq<nat>, n: nat)
    ensures Sum(nums + [n]) == Sum(nums) + n
  {
    assert (nums + [n])[..|nums|] == nums;
  }

  /** The receive side of one poll, from `d` to `d'`: every RXDESC ring as `polls`
      tells, then every RXFILL ring as `nums` tells. */
  ghost predicate Polled(d: RxDev, d': RxDev, budget: nat, ports: seq<EdmaRx.Port>, fillOf: seq<nat>, supply: nat -> Alloc,
                         polls: seq<RingPoll>, nums: seq<nat>, t: RxTrail, ft: FillTrail)
  {
    && |polls| == |d.p.sink| == |d'.p.sink| && |nums| == |d.p.src| == |d'.p.src|
    && RxPolled(t, polls, budget, ports, fillOf, supply) && t.states[0] == d
    && AllRefilled(t.states[|polls|].p.src, d'.p.src, ft, supply, nums)
    && ft.stores[0] == t.states[|polls|].p.store && ft.stores[|nums|] == d'.p.store
    && |d'.p.reaped| == |d.p.reaped| + TotalWork(polls)
    && EdmaRx.Disposed(d, d', Flat(t.taken), ports)
    && |d'.p.posted| == |t.states[|polls|].p.posted| + Sum(nums)
  }

  /** An skb found in the store was there before or is an answer of the
      allocator. */
  ghost predicate Stocked(before: Store, after: Store, supply: nat -> Alloc, slot: Index) {
    after[slot].None? || after[slot] in before
    || exists k: nat :: supply(k).Got? && after[slot] == Some(supply(k).skb)
  }

  lemma {:induction false} TrailStocked(t: RxTrail, polls: seq<RingPoll>, budget: nat, ports: seq<EdmaRx.Port>, fillOf: seq<nat>,
                                        supply: nat -> Alloc, j: nat, slot: Index)
    requires RxPolled(t, polls, budget, ports, fillOf, supply) && j <= |polls|
    ensures Stocked(t.states[0].p.store, t.states[j].p.store, supply, slot)
  {
    if j > 0 {
      assert RingPolled(t, j - 1, polls[j - 1], budget, ports, fillOf[j - 1], supply);
      TrailStocked(t, polls, budget, ports, fillOf, supply, j - 1, slot);
    }
  }

  lemma {:induction false} FillsStocked(before: seq<Source>, after: seq<Source>, t: FillTrail, supply: nat -> Alloc,
                                        nums: seq<nat>, i: nat, slot: Index)
    requires AllRefilled(before, after, t, supply, nums) && i <= |nums|
    ensures Stocked(t.stores[0], t.stores[i], supply, slot)
  {
    if i > 0 {
      assert RingRefilled(before, after, t, i - 1, supply, nums[i - 1]);
      FillsStocked(before, after, t, supply, nums, i - 1, slot);
    }
  }

  /** After a poll the store holds nothing but skbs it held before and answers of
      the allocator; so a next poll, with other answers, may follow. */
  lemma PollStocked(d: RxDev, d': RxDev, budget: nat, ports: seq<EdmaRx.Port>, fillOf: seq<nat>, supply: nat -> Alloc,
                    polls: seq<RingPoll>, nums: seq<nat>, t: RxTrail, ft: FillTrail, slot: Index)
    requires Polled(d, d', budget, ports, fillOf, supply, polls, nums, t, ft)
    ensures Stocked(d.p.store, d'.p.store, supply, slot)
  {
    var mid := t.states[|polls|].p.store;
    FillsStocked(t.states[|polls|].p.src, d'.p.src, ft, supply, nums, |nums|, slot);
    if d'.p.store[slot].Some? && d'.p.store[slot] in mid {
      var u: nat :| u < RING_SIZE && mid[u] == d'.p.store[slot];
      TrailStocked(t, polls, budget, ports, fillOf, supply, |polls|, u);
    }
  }

  /** A claim never empties a slot. */
  lemma {:induction false} StaysOccupied(before: seq<Source>, after: seq<Source>, t: FillTrail, supply: nat -> Alloc,
                                         nums: seq<nat>, i: nat, k: nat, slot: Index)
    requires AllRefilled(before, after, t, supply, nums) && i <= k < |t.stores| && t.stores[i][slot].Some?
    ensures t.stores[k][slot].Some?
    decreases k - i
  {
    if i < k {
      assert RingRefilled(before, after, t, i, supply, nums[i]);
      StaysOccupied(before, after, t, supply, nums, i + 1, k, slot);
    }
  }

  /** What the shared store makes of a first refill with an allocator that never
      fails: the first fill ring takes 127 buffers, and every other ring finds
      the slot of its own producer index, 0, already occupied. */
  lemma FirstRingTakesAll(before: seq<Source>, after: seq<Source>, t: FillTrail, supply: nat -> Alloc,
                          nums: seq<nat>, i: nat)
    requires AllRefilled(before, after, t, supply, nums) && i < |nums| == |before|
    requires EdmaRefill.Generous(supply)
    requires forall k :: 0 <= k < |before| ==> before[k].prod == 0 && before[k].cons == 0
    requires forall s: Index :: t.stores[0][s].None?
    ensures nums[i] == if i == 0 then RING_SIZE - 1 else 0
    ensures |Posted(after[i])| == nums[i]
  {
    assert RingRefilled(before, after, t, 0, supply, nums[0]);
    EdmaRefill.FillsToTheEnd(t.stores[0], 0, supply, t.bases[0]);
    assert RingRefilled(before, after, t, i, supply, nums[i]);
    if i > 0 {
      assert Off(0, 0) == 0 && t.stores[1][0].Some?;
      StaysOccupied(before, after, t, supply, nums, 1, i, 0);
      EdmaRefill.TurnStops(t.stores[i], 0, 0, supply, t.bases[i]);
    }
  }

  /** All rings but ring `j` have the driver indices they had. */
  ghost predicate OthersKept(before: seq<Sink>, now: seq<Sink>, j: nat) {
    && |now| == |before|
    && forall k :: 0 <= k < |now| && k != j ==> now[k].reg == before[k].reg && now[k].cons == before[k].cons
  }

  const RXDESC_INT_MASK: bv32 := 0x1
  const TXCMPL_INT_MASK: bv32 := 0x3
  const RXFILL_INT_MASK: bv32 := 0x1
  const INT_DISABLE: bv32 := 0x0

  const RXDESC_STATUS_MASK: bv32 := 0x3
  const TXCMPL_STATUS_MASK: bv32 := 0x3
  const RXFILL_STATUS_MASK: bv32 := 0x1

  predicate AllAre(masks: seq<bv32>, v: bv32) {
    forall k :: 0 <= k < |masks| ==> masks[k] == v
  }

  predicate Fires(status: bv32, mask: bv32) { status & mask != 0 }

  /** No ring reports an interrupt. */
  predicate Quiet(status: seq<bv32>, mask: bv32) {
    forall k :: 0 <= k < |status| ==> !Fires(status[k], mask)
  }

  lemma OrStays(acc: bv32, status: bv32, mask: bv32)
    ensures acc | (status & mask) == 0 <==> acc == 0 && !Fires(status, mask)
  {
  }

  lemma MaskBits(status: bv32)
    ensures (status & 0x3) & 0x3 == status & 0x3
    ensures (status & 0x1) & 0x1 == status & 0x1
    ensures (status & 0x1) & 0x3 == status & 0x1
  {
  }

  lemma QuietNext(status: seq<bv32>, i: nat, mask: bv32)
    requires i < |status|
    ensures Quiet(status[..i + 1], mask) <==> Quiet(status[..i], mask) && !Fires(status[i], mask)
  {
    assert status[..i + 1] == status[..i] + [status[i]];
    assert status[..i + 1][i] == status[i];
    if Quiet(status[..i + 1], mask) {
      forall k | 0 <= k < i ensures !Fires(status[..i][k], mask) {
        assert status[..i + 1][k] == status[..i][k];
      }
    }
  }

  class EdmaHw {
    const rxStore: array<Option<Skb>>
    const txStore: array<Option<Skb>>

    // The RXFILL ring each RXDESC ring refills.
    const fillOf: seq<nat>

    // Receive: RXFILL and RXDESC rings, buffers held by the hardware, tags.
    var rxfill: seq<Source>
    var rxdesc: seq<Sink>
    var rxFly: seq<Report>
    var rxWord: map<Skb, nat>
    var rxPosted: seq<Skb>
    var rxReaped: seq<Skb>
    var obtained: seq<Skb>
    var wasted: seq<Skb>
    var delivered: seq<EdmaRx.Delivery>
    var dropped: seq<Skb>
    var rxMissing: nat

    // Transmit: TXDESC and TXCMPL rings.
    var txdesc: seq<Source>
    var txcmpl: seq<Sink>
    var txFly: seq<Report>
    var txWord: map<Skb, nat>
    var txPosted: seq<Skb>
    var txReaped: seq<Skb>
    var unmapped: seq<Skb>
    var txMissing: nat

    // Interrupt mask registers, one per ring, and the NAPI schedule bit.
    var rxdescMask: seq<bv32>
    var txcmplMask: seq<bv32>
    var rxfillMask: seq<bv32>
    var napiScheduled: bool

    predicate Stores() {
      rxStore.Length == RING_SIZE && txStore.Length == RING_SIZE && rxStore != txStore
    }

    function RxView(): RxDev
      requires Stores()
      reads rxStore, this`rxfill, this`rxdesc, this`rxFly, this`rxWord, this`rxPosted, this`rxReaped
      reads this`obtained, this`wasted, this`delivered, this`dropped, this`rxMissing
    {
      EdmaRx.RxDev(Pipe(rxStore[..], rxWord, rxfill, rxFly, rxdesc, rxPosted, rxReaped),
                   obtained, wasted, delivered, dropped, rxMissing)
    }

    function TxView(): TxDev
      requires Stores()
      reads txStore, this`txdesc, this`txcmpl, this`txFly, this`txWord, this`txPosted, this`txReaped
      reads this`unmapped, this`txMissing
    {
      EdmaTx.TxDev(Pipe(txStore[..], txWord, txdesc, txFly, txcmpl, txPosted, txReaped), unmapped, txMissing)
    }

    /** Between driver calls the index registers show the driver's indices. */
    predicate RxAtRest()
      reads this`rxfill, this`rxdesc
    {
      && (forall i :: 0 <= i < |rxfill| ==> rxfill[i].reg == rxfill[i].prod)
      && (forall j :: 0 <= j < |rxdesc| ==> rxdesc[j].reg == rxdesc[j].cons)
    }

    predicate TxAtRest()
      reads this`txcmpl
    {
      forall j :: 0 <= j < |txcmpl| ==> txcmpl[j].reg == txcmpl[j].cons
    }

    /** Store initialisation of `edma_configure_rings`, index registers after
        reset, interrupts disabled. */
    constructor (fillRings: nat, fillOf: seq<nat>, txRings: nat, cmplRings: nat)
      requires forall j :: 0 <= j < |fillOf| ==> fillOf[j] < fillRings
      ensures Stores() && this.fillOf == fillOf && |rxdesc| == |fillOf| && |rxfill| == fillRings
      ensures RxView() == EdmaRuns.RxStart(fillRings, |fillOf|)
      ensures TxView() == EdmaRuns.TxStart(txRings, cmplRings)
      ensures RxAtRest() && TxAtRest() && OneMaskPerRing() && Disarmed() && !napiScheduled
      ensures forall t :: 0 <= t < RING_SIZE ==> rxStore[t].None?
      ensures fresh(rxStore) && fresh(txStore)
    {
      rxStore := new Option<Skb>[RING_SIZE];
      txStore := new Option<Skb>[RING_SIZE];
      this.fillOf := fillOf;
      rxfill, rxdesc := seq(fillRings, _ => EdmaRuns.EMPTY_SOURCE), seq(|fillOf|, _ => EdmaRuns.EMPTY_SINK);
      rxFly, rxWord, rxPosted, rxReaped := [], map[], [], [];
      obtained, wasted, delivered, dropped, rxMissing := [], [], [], [], 0;
      txdesc, txcmpl := seq(txRings, _ => EdmaRuns.EMPTY_SOURCE), seq(cmplRings, _ => EdmaRuns.EMPTY_SINK);
      txFly, txWord, txPosted, txReaped, unmapped, txMissing := [], map[], [], [], [], 0;
      rxdescMask, txcmplMask, rxfillMask := seq(|fillOf|, _ => 0), seq(cmplRings, _ => 0), seq(fillRings, _ => 0);
      napiScheduled := false;
      new;
      for i := 0 to RING_SIZE
        modifies txStore, rxStore
        invariant forall k :: 0 <= k < i ==> txStore[k] == None && rxStore[k] == None
      {
        txStore[i] := None;
        rxStore[i] := None;
      }
      assert rxStore[..] == seq(RING_SIZE, _ => None);
      assert txStore[..] == seq(RING_SIZE, _ => None);
    }

    // ------------------------------------------------------- RXFILL rings

    /** One turn of the loop of `edma_alloc_rx_buffer` with an skb from the
        allocator: true when a buffer was posted. */
    method FillOne(i: nat, skb: Skb, mapped: bool) returns (posted: bool)
      requires Stores() && EdmaRx.CanFill(RxView().p, i, skb)
      modifies this`rxfill, this`rxWord, this`rxPosted, this`obtained, this`wasted, rxStore
      ensures RxView() == EdmaRx.RxStep(old(RxView()), EdmaRx.FillTurn(i, skb, mapped))
      ensures posted <==> old(rxStore[rxfill[i].prod]).None? && mapped
    {
      var ring := rxfill[i];
      var storeIndex := ring.prod;
      obtained := obtained + [skb];
      if rxStore[storeIndex].Some? {
        wasted := wasted + [skb];
        return false;
      }
      rxStore[storeIndex] := Some(skb);
      rxWord := rxWord[skb := storeIndex];
      if !mapped {
        rxfill := rxfill[i := ring.(desc := ring.desc[storeIndex := 0])];
        wasted := wasted + [skb];
        rxStore[storeIndex] := None;
        return false;
      }
      rxfill := rxfill[i := ring.(desc := ring.desc[storeIndex := skb], prod := Succ(storeIndex))];
      rxPosted := rxPosted + [skb];
      return true;
    }

    /** Reads the consumer index register of a fill ring. */
    method LookFill(i: nat)
      requires Stores() && i < |rxfill|
      modifies this`rxfill
      ensures RxView() == EdmaRx.RxStep(old(RxView()), EdmaRx.Plain(Look(i)))
      ensures rxfill == old(rxfill)[i := old(rxfill)[i].(seen := old(rxfill)[i].cons)]
    {
      rxfill := rxfill[i := rxfill[i].(seen := rxfill[i].cons)];
    }

    /** Writes the producer index register of a fill ring. */
    method PublishFill(i: nat)
      requires Stores() && i < |rxfill|
      modifies this`rxfill
      ensures RxView() == EdmaRx.RxStep(old(RxView()), EdmaRx.Plain(Publish(i)))
      ensures rxfill == old(rxfill)[i := old(rxfill)[i].(reg := old(rxfill)[i].prod)]
    {
      rxfill := rxfill[i := rxfill[i].(reg := rxfill[i].prod)];
    }

    /** A refill turn as seen by the loop. */
    method FillTurnOf(i: nat, skb: Skb, mapped: bool, ghost d0: RxDev) returns (posted: bool)
      requires Stores() && i < |rxfill| && rxfill[i].seen == rxfill[i].cons
      requires Succ(rxfill[i].prod) != rxfill[i].seen && Some(skb) !in rxStore[..]
      requires EdmaRx.Reaches(d0, RxView())
      modifies this`rxfill, this`rxWord, this`rxPosted, this`obtained, this`wasted, rxStore
      ensures EdmaRx.Reaches(d0, RxView())
      ensures |rxfill| == |old(rxfill)| && rxfill == old(rxfill)[i := rxfill[i]]
      ensures var s := old(rxfill[i]);
              if posted then
                && rxfill[i] == s.(desc := rxfill[i].desc, prod := Succ(s.prod))
                && Posted(rxfill[i]) == Posted(s) + [skb]
                && rxStore[..] == old(rxStore[..])[s.prod := Some(skb)]
                && rxPosted == old(rxPosted) + [skb]
              else
                && rxfill[i] == s.(desc := rxfill[i].desc)
                && Posted(rxfill[i]) == Posted(s)
                && rxStore[..] == old(rxStore[..])
                && (!mapped || rxStore[s.prod].Some?)
                && rxPosted == old(rxPosted)
      ensures posted <==> old(rxStore[rxfill[i].prod]).None? && mapped
      ensures obtained == old(obtained) + [skb] && wasted == old(wasted) + if posted then [] else [skb]
    {
      ghost var d := RxView();
      EdmaRx.ReachesNext(d0, d, EdmaRx.FillTurn(i, skb, mapped));
      posted := FillOne(i, skb, mapped);
      if posted {
        EdmaRx.FillPosts(d, i, skb);
      } else {
        EdmaRx.FillWastes(d, i, skb, mapped);
      }
    }

    /** The loop of `edma_alloc_rx_buffer`, on local indices. */
    method FillLoop(i: nat, supply: nat -> Alloc, base: nat, ghost d0: RxDev) returns (num: nat, pos: nat)
      requires Stores() && i < |rxfill| && rxfill[i].seen == rxfill[i].cons
      requires Distinct(supply) && FreshFrom(supply, base, rxStore[..])
      requires EdmaRx.Reaches(d0, RxView())
      modifies this`rxfill, this`rxWord, this`rxPosted, this`obtained, this`wasted, rxStore
      ensures EdmaRx.Reaches(d0, RxView())
      ensures Filled(old(rxfill), rxfill, i, old(rxStore[..]), rxStore[..], supply, base, num)
      ensures num == EdmaRefill.Turns(old(rxStore[..]), old(rxfill[i].prod), old(rxfill[i].cons), supply, base)
      ensures rxPosted == old(rxPosted) + Supplied(supply, base, num)
      ensures base + num <= pos <= base + num + 1
      ensures obtained == old(obtained) + Supplied(supply, base, num) + Supplied(supply, base + num, pos - (base + num))
      ensures wasted == old(wasted) + Supplied(supply, base + num, pos - (base + num))
      ensures base + num <= pos <= base + num + 1 && FreshFrom(supply, pos, rxStore[..])
      ensures FillStopped(i, supply(base + num))
    {
      num := 0;
      FillingBegins(rxfill, i, rxStore[..], supply, base);
      while true
        invariant i < |rxfill| && rxfill[i].seen == rxfill[i].cons && num < RING_SIZE
        invariant Filling(old(rxfill), rxfill, i, old(rxStore[..]), rxStore[..], supply, base, num)
        invariant rxPosted == old(rxPosted) + Supplied(supply, base, num)
        invariant obtained == old(obtained) + Supplied(supply, base, num) && wasted == old(wasted)
        invariant EdmaRx.Reaches(d0, RxView())
        decreases RING_SIZE - num
      {
        var go;
        go, pos := FillNext(i, supply, base, num, old(rxfill), old(rxStore[..]), d0);
        if !go {
          break;
        }
        SuppliedNext(supply, base, num, old(rxPosted));
        SuppliedNext(supply, base, num, old(obtained));
        num := num + 1;
      }
    }

    /** Turn number `num` of a loop that found fill rings `before` and store `st`. */
    method FillNext(i: nat, supply: nat -> Alloc, base: nat, num: nat, ghost before: seq<Source>, ghost st: Store,
                    ghost d0: RxDev) returns (go: bool, pos: nat)
      requires Stores() && i < |rxfill| && rxfill[i].seen == rxfill[i].cons && Distinct(supply)
      requires Filling(before, rxfill, i, st, rxStore[..], supply, base, num)
      requires EdmaRx.Reaches(d0, RxView())
      modifies this`rxfill, this`rxWord, this`rxPosted, this`obtained, this`wasted, rxStore
      ensures EdmaRx.Reaches(d0, RxView())
      ensures i < |rxfill| && rxfill[i].seen == rxfill[i].cons && num < RING_SIZE
      ensures if go then
                && num + 1 < RING_SIZE
                && Filling(before, rxfill, i, st, rxStore[..], supply, base, num + 1)
                && supply(base + num).Got? && rxPosted == old(rxPosted) + [supply(base + num).skb]
                && obtained == old(obtained) + [supply(base + num).skb] && wasted == old(wasted)
              else
                && Filled(before, rxfill, i, st, rxStore[..], supply, base, num)
                && num == EdmaRefill.Turns(st, before[i].prod, before[i].cons, supply, base)
                && base + num <= pos <= base + num + 1 && FreshFrom(supply, pos, rxStore[..])
                && FillStopped(i, supply(base + num)) && rxPosted == old(rxPosted)
                && obtained == old(obtained) + Supplied(supply, base + num, pos - (base + num))
                && wasted == old(wasted) + Supplied(supply, base + num, pos - (base + num))
    {
      ghost var mid, store := rxfill, rxStore[..];
      FillingAt(before, mid, i, st, store, supply, base, num);
      go, pos := FillAttempt(i, supply, base + num, d0);
      if go {
        FillingNext(before, mid, rxfill, i, st, store, supply, base, num);
      } else {
        FillingEnds(before, mid, rxfill, i, st, store, supply, base, num);
      }
    }

    /** One turn of the loop of `edma_alloc_rx_buffer`, with answer number `n` of
        the allocator. */
    method FillAttempt(i: nat, supply: nat -> Alloc, n: nat, ghost d0: RxDev) returns (go: bool, pos: nat)
      requires Stores() && i < |rxfill| && rxfill[i].seen == rxfill[i].cons
      requires supply(n).Got? ==> Some(supply(n).skb) !in rxStore[..]
      requires EdmaRx.Reaches(d0, RxView())
      modifies this`rxfill, this`rxWord, this`rxPosted, this`obtained, this`wasted, rxStore
      ensures EdmaRx.Reaches(d0, RxView())
      ensures go <==> EdmaRefill.Goes(old(rxStore[..]), old(rxfill[i].prod), old(rxfill[i].cons), supply(n))
      ensures |rxfill| == |old(rxfill)| && rxfill == old(rxfill)[i := rxfill[i]]
      ensures var s := old(rxfill[i]);
              if go then
                && rxfill[i] == s.(desc := rxfill[i].desc, prod := Succ(s.prod))
                && Posted(rxfill[i]) == Posted(s) + [supply(n).skb]
                && rxStore[..] == old(rxStore[..])[s.prod := Some(supply(n).skb)]
                && rxPosted == old(rxPosted) + [supply(n).skb]
              else
                && rxfill[i] == s.(desc := rxfill[i].desc)
                && Posted(rxfill[i]) == Posted(s)
                && rxStore[..] == old(rxStore[..])
                && rxPosted == old(rxPosted)
      ensures !go ==> FillStopped(i, supply(n))
      ensures n <= pos <= n + 1 && (go ==> pos == n + 1) && (pos == n + 1 ==> supply(n).Got?)
      ensures obtained == old(obtained) + Supplied(supply, n, pos - n)
      ensures wasted == old(wasted) + if go then [] else Supplied(supply, n, pos - n)
    {
      if Succ(rxfill[i].prod) == rxfill[i].seen {
        FullRing(rxfill[i]);
        return false, n;
      }
      var a := supply(n);
      if a.NoSkb? {
        return false, n;
      }
      go := FillTurnOf(i, a.skb, a.mapped, d0);
      pos := n + 1;
    }

    /** Why a refill loop stopped: ring full, no memory, mapping failed, or the
        store slot of the producer index occupied. */
    predicate FillStopped(i: nat, a: Alloc)
      requires Stores() && i < |rxfill|
      reads this`rxfill, rxStore
    {
      || |Posted(rxfill[i])| == RING_SIZE - 1
      || a.NoSkb?
      || !a.mapped
      || rxStore[rxfill[i].prod].Some?
    }

    /** `edma_alloc_rx_buffer`: posts what the allocator gives, in its order,
        until the ring is full, the allocator or the mapping fails, or the
        store slot of the producer index is occupied; then publishes the
        producer index. */
    method AllocRxBuffer(i: nat, supply: nat -> Alloc, base: nat, ghost d0: RxDev) returns (num: nat, pos: nat)
      requires Stores() && i < |rxfill| && rxfill[i].reg == rxfill[i].prod
      requires Distinct(supply) && FreshFrom(supply, base, rxStore[..])
      requires EdmaRx.Reaches(d0, RxView())
      modifies this`rxfill, this`rxWord, this`rxPosted, this`obtained, this`wasted, rxStore
      ensures EdmaRx.Reaches(d0, RxView())
      ensures |rxfill| == |old(rxfill)|
      ensures forall k :: 0 <= k < |rxfill| && k != i ==> rxfill[k] == old(rxfill[k])
      ensures Refilled(old(rxfill[i]), rxfill[i], old(rxStore[..]), rxStore[..], supply, base, num)
      ensures rxPosted == old(rxPosted) + Supplied(supply, base, num)
      ensures base + num <= pos <= base + num + 1
      ensures obtained == old(obtained) + Supplied(supply, base, num) + Supplied(supply, base + num, pos - (base + num))
      ensures wasted == old(wasted) + Supplied(supply, base + num, pos - (base + num))
      ensures base + num <= pos && FreshFrom(supply, pos, rxStore[..])
      ensures FillStopped(i, supply(base + num))
    {
      EdmaRx.ReachesNext(d0, RxView(), EdmaRx.Plain(Look(i)));
      LookFill(i);
      num, pos := FillLoop(i, supply, base, d0);
      if num > 0 {
        EdmaRx.ReachesNext(d0, RxView(), EdmaRx.Plain(Publish(i)));
        PublishFill(i);
      }
    }

    // ---------------------------------------------------- receive hardware

    /** One hardware step of the receive direction. */
    method RxHardwareStep(h: Event)
      requires Stores() && (h.Fetch? || h.Deliver?)
      modifies this`rxfill, this`rxdesc, this`rxFly
      ensures RxView() == EdmaRx.RxStep(old(RxView()), EdmaRx.Plain(h))
    {
      if h.Fetch? {
        if h.i < |rxfill| && rxfill[h.i].cons != rxfill[h.i].reg {
          var ring := rxfill[h.i];
          var b := ring.desc[ring.cons];
          rxFly := rxFly + [NO_REPORT.(buf := b, tag := if b in rxWord then rxWord[b] else 0)];
          rxfill := rxfill[h.i := ring.(cons := Succ(ring.cons))];
        }
      } else if h.k < |rxFly| && h.j < |rxdesc| && Succ(rxdesc[h.j].prod) != rxdesc[h.j].reg {
        var ring := rxdesc[h.j];
        var x := rxFly[h.k].(srcInfo := h.srcInfo, rxPre4 := h.rxPre4, status := h.status);
        rxFly := rxFly[..h.k] + rxFly[h.k + 1..];
        rxdesc := rxdesc[h.j := ring.(desc := ring.desc[ring.prod := x], prod := Succ(ring.prod))];
      }
    }

    /** The hardware does nothing during a poll. */
    static ghost predicate NoHardware(env: (nat, nat) -> seq<Event>) {
      forall j: nat, n: nat :: env(j, n) == []
    }

    static predicate HardwareOnly(hs: seq<Event>) {
      forall k :: 0 <= k < |hs| ==> hs[k].Fetch? || hs[k].Deliver?
    }

    /** One hardware step in a state a run has reached. */
    method RxHardwareTurn(h: Event, ghost d0: RxDev)
      requires Stores() && (h.Fetch? || h.Deliver?) && EdmaRx.Reaches(d0, RxView())
      modifies this`rxfill, this`rxdesc, this`rxFly
      ensures EdmaRx.Reaches(d0, RxView())
      ensures EdmaRx.FillKept(old(rxfill), rxfill) && EdmaRx.AllGrown(old(rxdesc), rxdesc)
    {
      ghost var d := RxView();
      EdmaRx.ReachedRings(d0, d);
      EdmaRx.HardwareFrame(d, h);
      EdmaRx.ReachesNext(d0, d, EdmaRx.Plain(h));
      RxHardwareStep(h);
    }

    /** The hardware runs for a while. */
    method RxHardware(hs: seq<Event>, ghost d0: RxDev)
      requires Stores() && HardwareOnly(hs) && EdmaRx.Reaches(d0, RxView())
      modifies this`rxfill, this`rxdesc, this`rxFly
      ensures EdmaRx.Reaches(d0, RxView())
      ensures EdmaRx.FillKept(old(rxfill), rxfill) && EdmaRx.AllGrown(old(rxdesc), rxdesc)
      ensures hs == [] ==> rxfill == old(rxfill) && rxdesc == old(rxdesc)
    {
      for n := 0 to |hs|
        invariant EdmaRx.Reaches(d0, RxView())
        invariant EdmaRx.FillKept(old(rxfill), rxfill) && EdmaRx.AllGrown(old(rxdesc), rxdesc)
        invariant n == 0 ==> rxfill == old(rxfill) && rxdesc == old(rxdesc)
      {
        RxHardwareTurn(hs[n], d0);
      }
    }

    // ------------------------------------------------------- RXDESC rings

    /** Reads the producer index register of an RXDESC ring. */
    method PeekDesc(j: nat)
      requires Stores() && j < |rxdesc|
      modifies this`rxdesc
      ensures RxView() == EdmaRx.RxStep(old(RxView()), EdmaRx.Plain(Peek(j)))
      ensures rxdesc == old(rxdesc)[j := old(rxdesc)[j].(seen := old(rxdesc)[j].prod)]
    {
      rxdesc := rxdesc[j := rxdesc[j].(seen := rxdesc[j].prod)];
    }

    /** Writes the consumer index register of an RXDESC ring. */
    method ReleaseDesc(j: nat)
      requires Stores() && j < |rxdesc|
      modifies this`rxdesc
      ensures RxView() == EdmaRx.RxStep(old(RxView()), EdmaRx.Plain(Release(j)))
      ensures rxdesc == old(rxdesc)[j := old(rxdesc)[j].(reg := old(rxdesc)[j].cons)]
    {
      rxdesc := rxdesc[j := rxdesc[j].(reg := rxdesc[j].cons)];
    }

    /** One turn of the loop of `edma_clean_rx`: the tag is read from the
        preheader in the buffer the report names. */
    method DescOne(j: nat, ports: seq<EdmaRx.Port>)
      requires Stores() && CanReap(RxView().p, j)
      requires var x := Head(RxView().p, j); x.tag < RING_SIZE && x.buf in rxWord && rxWord[x.buf] == x.tag
      modifies this`rxdesc, this`rxReaped, this`delivered, this`dropped, this`rxMissing, rxStore
      ensures RxView() == EdmaRx.RxStep(old(RxView()), EdmaRx.DescTurn(j, ports))
    {
      var ring := rxdesc[j];
      var x := ring.desc[ring.cons];
      var storeIndex := rxWord[x.buf];
      var skb := rxStore[storeIndex];
      rxStore[storeIndex] := None;
      if skb.None? {
        rxMissing := rxMissing + 1;
      } else {
        rxReaped := rxReaped + [skb.value];
        var o := EdmaRx.Classify(x, ports);
        if o.Passed? {
          delivered := delivered + [EdmaRx.Delivery(skb.value, o.port, o.len, o.ptp)];
        } else {
          dropped := dropped + [skb.value];
        }
      }
      rxdesc := rxdesc[j := ring.(cons := Succ(ring.cons))];
    }

    /** The hardware runs, then the driver reads the producer index of ring `j`. */
    method PollDesc(j: nat, hs: seq<Event>, ghost d0: RxDev)
      requires Stores() && j < |rxdesc| && HardwareOnly(hs)
      requires EdmaRx.Reaches(d0, RxView())
      modifies this`rxfill, this`rxdesc, this`rxFly
      ensures EdmaRx.Reaches(d0, RxView())
      ensures EdmaRx.FillKept(old(rxfill), rxfill) && OthersKept(old(rxdesc), rxdesc, j)
      ensures var s, t := old(rxdesc[j]), rxdesc[j];
              && t.reg == s.reg && t.cons == s.cons && t.seen == t.prod
              && Unread(s) <= Unread(t) && (hs == [] ==> Unread(s) == Unread(t))
      ensures hs == [] ==> rxdesc == old(rxdesc)[j := rxdesc[j]]
    {
      RxHardware(hs, d0);
      EdmaRx.ReachesNext(d0, RxView(), EdmaRx.Plain(Peek(j)));
      PeekDesc(j);
    }

    /** A receive-loop turn as seen by the loop. */
    method DescTurnOf(j: nat, ports: seq<EdmaRx.Port>, ghost d0: RxDev)
      requires Stores() && j < |rxdesc| && rxdesc[j].seen == rxdesc[j].prod && rxdesc[j].cons != rxdesc[j].prod
      requires EdmaRx.Reaches(d0, RxView())
      modifies this`rxdesc, this`rxReaped, this`delivered, this`dropped, this`rxMissing, rxStore
      ensures EdmaRx.Reaches(d0, RxView())
      ensures |rxdesc| == |old(rxdesc)|
      ensures rxdesc == old(rxdesc)[j := old(rxdesc[j]).(cons := Succ(old(rxdesc[j].cons)))]
      ensures var q := Unread(old(rxdesc[j]));
              && q != [] && q == [q[0]] + Unread(rxdesc[j])
              && rxReaped == old(rxReaped) + [q[0].buf]
              && delivered == old(delivered) + EdmaRx.Passing(q[0], ports)
              && dropped == old(dropped) + EdmaRx.Freeing(q[0], ports)
      ensures Shrunk(old(rxStore[..]), rxStore[..])
    {
      ghost var d := RxView();
      EdmaRx.HeadFoundIn(d0, d, j);
      EdmaRx.TurnFrame(d, j, ports);
      EdmaRx.TurnDisposes(d, j, ports);
      SpanDrop(rxdesc[j].desc, rxdesc[j].cons, rxdesc[j].prod);
      forall t: Index ensures var st := EdmaRx.RxStep(d, EdmaRx.DescTurn(j, ports)).p.store;
                              st[t] == d.p.store[t] || st[t].None? {
        EdmaRx.TurnShrinks(d, j, ports, t);
      }
      EdmaRx.ReachesNext(d0, d, EdmaRx.DescTurn(j, ports));
      DescOne(j, ports);
    }

    /** One turn of the loop of `edma_clean_rx` that began at `d` and has taken
        `taken`, after the hardware ran `hs`.  The ring is dry, or one more report
        is taken if `allowed`. */
    method DescTry(j: nat, hs: seq<Event>, allowed: bool, ports: seq<EdmaRx.Port>, ghost d0: RxDev,
                   ghost d: RxDev, ghost taken: seq<Report>)
      returns (dry: bool, ghost now: seq<Report>)
      requires Stores() && j < |rxdesc| && HardwareOnly(hs)
      requires EdmaRx.Reaches(d0, RxView()) && Took(d, RxView(), j, taken, ports)
      modifies this`rxfill, this`rxdesc, this`rxFly, this`rxReaped, this`delivered, this`dropped,
               this`rxMissing, rxStore
      ensures EdmaRx.Reaches(d0, RxView()) && Took(d, RxView(), j, now, ports)
      ensures EdmaRx.FillKept(old(rxfill), rxfill) && OthersKept(old(rxdesc), rxdesc, j)
      ensures rxdesc[j].reg == old(rxdesc[j].reg) && (dry ==> rxdesc[j].cons == rxdesc[j].prod)
      ensures Shrunk(old(rxStore[..]), rxStore[..])
      ensures var k := if !dry && allowed then 1 else 0;
              |now| == |taken| + k && |rxReaped| == |old(rxReaped)| + k
      ensures hs == [] ==> now + Unread(rxdesc[j]) == taken + Unread(old(rxdesc[j]))
      ensures hs == [] ==> rxdesc == old(rxdesc)[j := rxdesc[j]]
    {
      ghost var a := RxView();
      PollDesc(j, hs, d0);
      ghost var b := RxView();
      TookWaits(d, a, b, j, taken, ports);
      dry, now := rxdesc[j].cons == rxdesc[j].seen, taken;
      if dry || !allowed {
        return;
      }
      DescTurnOf(j, ports, d0);
      ghost var x := Unread(b.p.sink[j])[0];
      TookNext(d, b, RxView(), j, taken, x, ports);
      EdmaRx.Assoc(taken, [x], Unread(rxdesc[j]));
      now := taken + [x];
    }

    /** The loop of `edma_clean_rx`.  The hardware runs `env(n)` before turn
        `n` reads the producer index.  `drained` tells which of the two breaks
        ended the loop.  `taken` are the reports taken, in ring order: one skb
        each, passed up or freed as `Classify` says. */
    method DescLoop(j: nat, workToDo: nat, ports: seq<EdmaRx.Port>, env: nat -> seq<Event>, ghost d0: RxDev)
      returns (work: nat, drained: bool, ghost taken: seq<Report>)
      requires Stores() && j < |rxdesc| && (forall n: nat :: HardwareOnly(env(n)))
      requires EdmaRx.Reaches(d0, RxView())
      modifies this`rxfill, this`rxdesc, this`rxFly, this`rxReaped, this`delivered, this`dropped,
               this`rxMissing, rxStore
      ensures EdmaRx.Reaches(d0, RxView())
      ensures EdmaRx.FillKept(old(rxfill), rxfill) && OthersKept(old(rxdesc), rxdesc, j)
      ensures rxdesc[j].reg == old(rxdesc[j].reg)
      ensures Shrunk(old(rxStore[..]), rxStore[..])
      ensures if drained then rxdesc[j].cons == rxdesc[j].prod else work == workToDo
      ensures |taken| == work <= workToDo && |rxReaped| == |old(rxReaped)| + work
      ensures Took(old(RxView()), RxView(), j, taken, ports)
      ensures (forall n: nat :: env(n) == []) ==> Unread(old(rxdesc[j])) == taken + Unread(rxdesc[j])
      ensures (forall n: nat :: env(n) == []) ==> rxdesc == old(rxdesc)[j := rxdesc[j]]
    {
      work, drained, taken := 0, false, [];
      ghost var d := RxView();
      TookNone(d, j, ports);
      while true
        invariant EdmaRx.Reaches(d0, RxView())
        invariant EdmaRx.FillKept(old(rxfill), rxfill) && OthersKept(old(rxdesc), rxdesc, j)
        invariant rxdesc[j].reg == old(rxdesc[j].reg)
        invariant Shrunk(old(rxStore[..]), rxStore[..])
        invariant |taken| == work <= workToDo && |rxReaped| == |old(rxReaped)| + work
        invariant Took(d, RxView(), j, taken, ports)
        invariant (forall n: nat :: env(n) == []) ==> Unread(old(rxdesc[j])) == taken + Unread(rxdesc[j])
        invariant (forall n: nat :: env(n) == []) ==> rxdesc == old(rxdesc)[j := rxdesc[j]]
        decreases workToDo - work
      {
        drained, taken := DescTry(j, env(work), work < workToDo, ports, d0, d, taken);
        if drained || work >= workToDo {
          break;
        }
        work := work + 1;
      }
    }

    /** `edma_clean_rx`: reap, refill the ring's fill ring, publish the
        consumer index; `end` is the state between the first two. */
    method CleanRx(j: nat, workToDo: nat, ports: seq<EdmaRx.Port>, env: nat -> seq<Event>,
                   supply: nat -> Alloc, base: nat, ghost d0: RxDev)
      returns (poll: RingPoll, pos: nat, ghost end: RxDev, ghost taken: seq<Report>)
      requires Stores() && j < |rxdesc| && (forall n: nat :: HardwareOnly(env(n)))
      requires j < |fillOf| && fillOf[j] < |rxfill| && RxAtRest()
      requires Distinct(supply) && FreshFrom(supply, base, rxStore[..])
      requires EdmaRx.Reaches(d0, RxView())
      modifies this`rxfill, this`rxdesc, this`rxFly, this`rxReaped, this`delivered, this`dropped,
               this`rxMissing, this`rxWord, this`rxPosted, this`obtained, this`wasted, rxStore
      ensures EdmaRx.Reaches(d0, RxView())
      ensures Drained(old(RxView()), end, j, poll.work, poll.drained, workToDo, ports, taken)
      ensures Restocked(end, RxView(), j, fillOf[j], supply, base, poll.num)
      ensures FillStopped(fillOf[j], supply(base + poll.num))
      ensures |rxfill| == |old(rxfill)| && |rxdesc| == |old(rxdesc)| && RxAtRest()
      ensures base <= pos && FreshFrom(supply, pos, rxStore[..])
      ensures |rxReaped| == |old(rxReaped)| + poll.work
      ensures poll.drained ==> Unread(rxdesc[j]) == []
      ensures (forall n: nat :: env(n) == []) ==> Unread(old(rxdesc[j])) == taken + Unread(rxdesc[j])
      ensures (forall n: nat :: env(n) == []) ==> rxdesc == old(rxdesc)[j := rxdesc[j]]
    {
      ghost var d := RxView();
      EdmaRx.ReachedBegins(d0, d);
      var work, drained;
      work, drained, taken := DescLoop(j, workToDo, ports, env, d);
      end := RxView();
      EdmaRx.ReachesOn(d0, d, end);
      EdmaRx.ReachedBegins(d, end);
      var num;
      num, pos := Restock(j, fillOf[j], supply, base, end);
      EdmaRx.ReachesOn(d0, end, RxView());
      poll := RingPoll(work, drained, num);
    }

    /** The second half of `edma_clean_rx`, from state `end`. */
    method Restock(j: nat, f: nat, supply: nat -> Alloc, base: nat, ghost end: RxDev) returns (num: nat, pos: nat)
      requires Stores() && j < |rxdesc| && f < |rxfill| && rxfill[f].reg == rxfill[f].prod
      requires Distinct(supply) && FreshFrom(supply, base, rxStore[..])
      requires end == RxView() && EdmaRx.Reaches(end, end)
      modifies this`rxfill, this`rxdesc, this`rxWord, this`rxPosted, this`obtained, this`wasted, rxStore
      ensures Restocked(end, RxView(), j, f, supply, base, num)
      ensures FillStopped(f, supply(base + num))
      ensures base <= pos && FreshFrom(supply, pos, rxStore[..])
    {
      num, pos := AllocRxBuffer(f, supply, base, end);
      EdmaRx.ReachesNext(end, RxView(), EdmaRx.Plain(Release(j)));
      ReleaseDesc(j);
    }

    // -------------------------------------------------------- transmit rings

    /** `edma_ring_xmit`: the caller passes an skb that is not in the store. */
    method RingXmit(i: nat, skb: Skb, mapped: bool) returns (r: EdmaTx.TxResult)
      requires Stores() && i < |txdesc| && txdesc[i].reg == txdesc[i].prod && Some(skb) !in txStore[..]
      modifies this`txdesc, this`txWord, this`txPosted, this`unmapped, txStore
      ensures TxView() == EdmaTx.TxStep(old(TxView()), EdmaTx.Send(i, skb, mapped))
      ensures r == EdmaTx.Xmit(old(TxView()), i, skb, mapped).1
    {
      var nextToUse: nat := txdesc[i].reg;
      var nextToClean := txdesc[i].cons;
      txdesc := txdesc[i := txdesc[i].(seen := nextToClean)];
      MaskStep(nextToUse);
      var checkIndex: nat := BitAnd(nextToUse + 1, RING_SIZE - 1);
      if checkIndex == nextToClean {
        return EdmaTx.TxDesc;
      }
      var storeIndex := nextToUse;
      if txStore[storeIndex].Some? {
        txWord := txWord[skb := 0];
        return EdmaTx.TxDesc;
      }
      txStore[storeIndex] := Some(skb);
      txWord := txWord[skb := storeIndex];
      var ring := txdesc[i];
      if !mapped {
        txdesc := txdesc[i := ring.(desc := ring.desc[nextToUse := 0])];
        unmapped := unmapped + [skb];
        txStore[storeIndex] := None;
        assert txStore[..] == old(txStore[..]);
        return EdmaTx.TxOk;
      }
      var next := Succ(nextToUse);
      txdesc := txdesc[i := ring.(desc := ring.desc[nextToUse := skb], prod := next, reg := next)];
      txPosted := txPosted + [skb];
      return EdmaTx.TxOk;
    }

    /** One turn of the loop of `edma_clean_tx`. */
    method CompleteOne(j: nat)
      requires Stores() && CanReap(TxView().p, j) && Head(TxView().p, j).tag < RING_SIZE
      modifies this`txcmpl, this`txReaped, this`txMissing, txStore
      ensures TxView() == EdmaTx.TxStep(old(TxView()), EdmaTx.CmplTurn(j))
    {
      var ring := txcmpl[j];
      var storeIndex := ring.desc[ring.cons].tag;
      var skb := txStore[storeIndex];
      txStore[storeIndex] := None;
      if skb.None? {
        txMissing := txMissing + 1;
      } else {
        txReaped := txReaped + [skb.value];
      }
      txcmpl := txcmpl[j := ring.(cons := Succ(ring.cons))];
    }

    method PeekCmpl(j: nat)
      requires Stores() && j < |txcmpl|
      modifies this`txcmpl
      ensures TxView() == EdmaTx.TxStep(old(TxView()), EdmaTx.Plain(Peek(j)))
      ensures txcmpl == old(txcmpl)[j := old(txcmpl)[j].(seen := old(txcmpl)[j].prod)]
    {
      txcmpl := txcmpl[j := txcmpl[j].(seen := txcmpl[j].prod)];
    }

    method ReleaseCmpl(j: nat)
      requires Stores() && j < |txcmpl|
      modifies this`txcmpl
      ensures TxView() == EdmaTx.TxStep(old(TxView()), EdmaTx.Plain(Release(j)))
      ensures txcmpl == old(txcmpl)[j := old(txcmpl)[j].(reg := old(txcmpl)[j].cons)]
    {
      txcmpl := txcmpl[j := txcmpl[j].(reg := txcmpl[j].cons)];
    }

    /** One hardware step of the transmit direction. */
    method TxHardwareStep(h: Event)
      requires Stores() && (h.Fetch? || h.Deliver?)
      modifies this`txdesc, this`txcmpl, this`txFly
      ensures TxView() == EdmaTx.TxStep(old(TxView()), EdmaTx.Plain(h))
    {
      if h.Fetch? {
        if h.i < |txdesc| && txdesc[h.i].cons != txdesc[h.i].reg {
          var ring := txdesc[h.i];
          var b := ring.desc[ring.cons];
          txFly := txFly + [NO_REPORT.(buf := b, tag := if b in txWord then txWord[b] else 0)];
          txdesc := txdesc[h.i := ring.(cons := Succ(ring.cons))];
        }
      } else if h.k < |txFly| && h.j < |txcmpl| && Succ(txcmpl[h.j].prod) != txcmpl[h.j].reg {
        var ring := txcmpl[h.j];
        var x := txFly[h.k].(srcInfo := h.srcInfo, rxPre4 := h.rxPre4, status := h.status);
        txFly := txFly[..h.k] + txFly[h.k + 1..];
        txcmpl := txcmpl[h.j := ring.(desc := ring.desc[ring.prod := x], prod := Succ(ring.prod))];
      }
    }

    /** A completion turn as seen by the loop. */
    method CmplTurnOf(j: nat, ghost d0: TxDev)
      requires Stores() && j < |txcmpl| && txcmpl[j].seen == txcmpl[j].prod && txcmpl[j].cons != txcmpl[j].prod
      requires EdmaTx.Reaches(d0, TxView())
      modifies this`txcmpl, this`txReaped, this`txMissing, txStore
      ensures EdmaTx.Reaches(d0, TxView())
      ensures |txcmpl| == |old(txcmpl)|
      ensures txcmpl == old(txcmpl)[j := old(txcmpl[j]).(cons := Succ(old(txcmpl[j].cons)))]
      ensures |Unread(txcmpl[j])| == |Unread(old(txcmpl[j]))| - 1
      ensures Ledger(txReaped, txcmpl[j]) == Ledger(old(txReaped), old(txcmpl[j]))
      ensures Shrunk(old(txStore[..]), txStore[..])
    {
      ghost var d := TxView();
      forall t: Index ensures var st := EdmaTx.TxStep(d, EdmaTx.CmplTurn(j)).p.store;
                              st[t] == d.p.store[t] || st[t].None? {
        EdmaTx.CompleteShrinks(d, j, t);
      }
      EdmaTx.HeadFoundIn(d0, d, j);
      EdmaTx.CompleteFrame(d, j);
      EdmaTx.ReachesNext(d0, d, EdmaTx.CmplTurn(j));
      CompleteOne(j);
      LedgerTurn(old(txReaped), old(txcmpl[j]), txcmpl[j]);
    }

    /** The loop of `edma_clean_tx`. */
    method CmplLoop(j: nat, ghost d0: TxDev) returns (consumed: nat)
      requires Stores() && j < |txcmpl| && txcmpl[j].seen == txcmpl[j].prod
      requires EdmaTx.Reaches(d0, TxView())
      modifies this`txcmpl, this`txReaped, this`txMissing, txStore
      ensures EdmaTx.Reaches(d0, TxView())
      ensures |txcmpl| == |old(txcmpl)|
      ensures txcmpl == old(txcmpl)[j := old(txcmpl[j]).(cons := old(txcmpl[j].prod))]
      ensures consumed == |Unread(old(txcmpl[j]))| && Unread(txcmpl[j]) == []
      ensures txReaped == old(txReaped) + Bufs(Unread(old(txcmpl[j])))
      ensures Shrunk(old(txStore[..]), txStore[..])
    {
      consumed := 0;
      while txcmpl[j].cons != txcmpl[j].seen
        invariant EdmaTx.Reaches(d0, TxView())
        invariant |txcmpl| == |old(txcmpl)|
        invariant txcmpl == old(txcmpl)[j := old(txcmpl[j]).(cons := txcmpl[j].cons)]
        invariant consumed + |Unread(txcmpl[j])| == |Unread(old(txcmpl[j]))|
        invariant Ledger(txReaped, txcmpl[j]) == Ledger(old(txReaped), old(txcmpl[j]))
        invariant Shrunk(old(txStore[..]), txStore[..])
        decreases |Unread(txcmpl[j])|
      {
        CmplTurnOf(j, d0);
        consumed := consumed + 1;
      }
      LedgerRest(old(txReaped), txReaped, old(txcmpl[j]), txcmpl[j]);
    }

    /** `edma_clean_tx`: consumes exactly the completions between the two index
        registers and frees their skbs in ring order. */
    method CleanTx(j: nat, ghost d0: TxDev) returns (consumed: nat)
      requires Stores() && j < |txcmpl| && txcmpl[j].reg == txcmpl[j].cons
      requires EdmaTx.Reaches(d0, TxView())
      modifies this`txcmpl, this`txReaped, this`txMissing, txStore
      ensures EdmaTx.Reaches(d0, TxView())
      ensures |txcmpl| == |old(txcmpl)|
      ensures forall k :: 0 <= k < |txcmpl| && k != j ==> txcmpl[k] == old(txcmpl[k])
      ensures consumed == |Unread(old(txcmpl[j]))| == Off(old(txcmpl[j].reg), old(txcmpl[j].prod))
      ensures txReaped == old(txReaped) + Bufs(Unread(old(txcmpl[j])))
      ensures Unread(txcmpl[j]) == [] && txcmpl[j].reg == txcmpl[j].cons
      ensures Shrunk(old(txStore[..]), txStore[..])
    {
      EdmaTx.ReachesNext(d0, TxView(), EdmaTx.Plain(Peek(j)));
      PeekCmpl(j);
      consumed := CmplLoop(j, d0);
      if consumed > 0 {
        EdmaTx.ReachesNext(d0, TxView(), EdmaTx.Plain(Release(j)));
        ReleaseCmpl(j);
      }
    }

    // ------------------------------------------------------------------ NAPI

    /** All RXDESC rings of one poll, ring by ring: what each loop did is told by
        `polls`, and `t` are the states in between. */
    method CleanAllRx(budget: nat, ports: seq<EdmaRx.Port>, env: (nat, nat) -> seq<Event>,
                      supply: nat -> Alloc, ghost d0: RxDev)
      returns (polls: seq<RingPoll>, pos: nat, ghost t: RxTrail)
      requires Stores() && RxAtRest() && |fillOf| == |rxdesc|
      requires forall j :: 0 <= j < |fillOf| ==> fillOf[j] < |rxfill|
      requires forall j: nat, n: nat :: HardwareOnly(env(j, n))
      requires Distinct(supply) && FreshFrom(supply, 0, rxStore[..])
      requires EdmaRx.Reaches(d0, RxView())
      modifies this`rxfill, this`rxdesc, this`rxFly, this`rxReaped, this`delivered, this`dropped,
               this`rxMissing, this`rxWord, this`rxPosted, this`obtained, this`wasted, rxStore
      ensures EdmaRx.Reaches(d0, RxView())
      ensures |rxfill| == |old(rxfill)| && |rxdesc| == |old(rxdesc)| && RxAtRest()
      ensures FreshFrom(supply, pos, rxStore[..])
      ensures |polls| == |rxdesc| && RxPolled(t, polls, budget, ports, fillOf, supply)
      ensures t.states[0] == old(RxView()) && t.states[|polls|] == RxView()
      ensures |rxReaped| == |old(rxReaped)| + TotalWork(polls)
      ensures EdmaRx.Disposed(old(RxView()), RxView(), Flat(t.taken), ports)
      ensures NoHardware(env) ==> forall j :: 0 <= j < |polls| && polls[j].drained ==> Unread(rxdesc[j]) == []
      ensures TxView() == old(TxView())
    {
      polls, pos, t := [], 0, RxTrail([RxView()], [], [], []);
      for j := 0 to |rxdesc|
        invariant EdmaRx.Reaches(d0, RxView())
        invariant |rxfill| == |old(rxfill)| && |rxdesc| == |old(rxdesc)| && RxAtRest()
        invariant FreshFrom(supply, pos, rxStore[..])
        invariant |polls| == j && RxPolled(t, polls, budget, ports, fillOf, supply)
        invariant t.states[0] == old(RxView()) && t.states[j] == RxView()
        invariant |rxReaped| == |old(rxReaped)| + TotalWork(polls)
        invariant NoHardware(env) ==> forall k :: 0 <= k < j && polls[k].drained ==> Unread(rxdesc[k]) == []
      {
        var r;
        ghost var end, base, q := RxView(), pos, [];
        r, pos, end, q := CleanRx(j, budget, ports, (n: nat) => env(j, n), supply, pos, d0);
        RxPolledNext(t, polls, budget, ports, fillOf, supply, r, end, RxView(), base, q);
        TotalWorkNext(polls, r);
        t := RxTrail(t.states + [RxView()], t.ends + [end], t.bases + [base], t.taken + [q]);
        polls := polls + [r];
      }
      TrailDisposes(t, polls, budget, ports, fillOf, supply, |polls|);
      assert t.taken[..|polls|] == t.taken;
    }

    method CleanAllTx(ghost d0: TxDev) returns (work: nat)
      requires Stores() && TxAtRest() && EdmaTx.Reaches(d0, TxView())
      modifies this`txcmpl, this`txReaped, this`txMissing, txStore
      ensures EdmaTx.Reaches(d0, TxView())
      ensures |txcmpl| == |old(txcmpl)| && TxAtRest()
      ensures forall j :: 0 <= j < |txcmpl| ==> Unread(txcmpl[j]) == []
      ensures |txReaped| == |old(txReaped)| + work
      ensures Shrunk(old(txStore[..]), txStore[..])
      ensures RxView() == old(RxView())
    {
      work := 0;
      for j := 0 to |txcmpl|
        invariant EdmaTx.Reaches(d0, TxView())
        invariant |txcmpl| == |old(txcmpl)| && TxAtRest()
        invariant forall k :: 0 <= k < j ==> Unread(txcmpl[k]) == []
        invariant |txReaped| == |old(txReaped)| + work
        invariant Shrunk(old(txStore[..]), txStore[..])
      {
        var w := CleanTx(j, d0);
        work := work + w;
      }
    }

    /** The refill of every RXFILL ring, in turn. */
    method FillAll(supply: nat -> Alloc, base: nat, ghost d0: RxDev)
      returns (nums: seq<nat>, pos: nat, ghost t: FillTrail)
      requires Stores() && RxAtRest()
      requires Distinct(supply) && FreshFrom(supply, base, rxStore[..])
      requires EdmaRx.Reaches(d0, RxView())
      modifies this`rxfill, this`rxWord, this`rxPosted, this`obtained, this`wasted, rxStore
      ensures EdmaRx.Reaches(d0, RxView())
      ensures |nums| == |rxfill| == |old(rxfill)| && RxAtRest()
      ensures AllRefilled(old(rxfill), rxfill, t, supply, nums)
      ensures t.stores[0] == old(rxStore[..]) && t.stores[|nums|] == rxStore[..]
      ensures |rxPosted| == |old(rxPosted)| + Sum(nums)
      ensures FreshFrom(supply, pos, rxStore[..])
      ensures TxView() == old(TxView())
    {
      nums, pos, t := [], base, FillTrail([rxStore[..]], []);
      for i := 0 to |rxfill|
        invariant EdmaRx.Reaches(d0, RxView())
        invariant |nums| == i && |rxfill| == |old(rxfill)| && RxAtRest()
        invariant AllRefilled(old(rxfill), rxfill, t, supply, nums)
        invariant t.stores[0] == old(rxStore[..]) && t.stores[i] == rxStore[..]
        invariant |rxPosted| == |old(rxPosted)| + Sum(nums)
        invariant FreshFrom(supply, pos, rxStore[..])
      {
        ghost var mid, base := rxfill, pos;
        var n;
        n, pos := AllocRxBuffer(i, supply, pos, d0);
        AllRefilledNext(old(rxfill), mid, rxfill, t, supply, nums, rxStore[..], base, n);
        SumNext(nums, n);
        t := FillTrail(t.stores + [rxStore[..]], t.bases + [base]);
        nums := nums + [n];
      }
    }

    // ------------------------------------------------------ interrupt masks

    predicate OneMaskPerRing()
      reads this`rxdescMask, this`txcmplMask, this`rxfillMask, this`rxdesc, this`txcmpl, this`rxfill
    {
      |rxdescMask| == |rxdesc| && |txcmplMask| == |txcmpl| && |rxfillMask| == |rxfill|
    }

    predicate Armed()
      reads this`rxdescMask, this`txcmplMask, this`rxfillMask
    {
      AllAre(rxdescMask, RXDESC_INT_MASK) && AllAre(txcmplMask, TXCMPL_INT_MASK) && AllAre(rxfillMask, RXFILL_INT_MASK)
    }

    predicate Disarmed()
      reads this`rxdescMask, this`txcmplMask, this`rxfillMask
    {
      AllAre(rxdescMask, INT_DISABLE) && AllAre(txcmplMask, INT_DISABLE) && AllAre(rxfillMask, INT_DISABLE)
    }

    /** What armed masks let through: every bit the interrupt handler looks for on
        TXCMPL and RXFILL rings, and the packet bit on RXDESC rings (the second
        bit of that mask is named a timer disable bit). */
    lemma ArmedLetsThrough(status: bv32, j: nat)
      requires Armed()
      ensures j < |txcmplMask| ==> (Fires(status & txcmplMask[j], TXCMPL_STATUS_MASK) <==> Fires(status, TXCMPL_STATUS_MASK))
      ensures j < |rxfillMask| ==> (Fires(status & rxfillMask[j], RXFILL_STATUS_MASK) <==> Fires(status, RXFILL_STATUS_MASK))
      ensures j < |rxdescMask| ==> (Fires(status & rxdescMask[j], RXDESC_STATUS_MASK) <==> status & 0x1 != 0)
    {
      MaskBits(status);
    }

    /** Disabled masks let nothing through. */
    lemma DisarmedLetsNothing(status: bv32, j: nat)
      requires Disarmed()
      ensures j < |txcmplMask| ==> status & txcmplMask[j] == 0
      ensures j < |rxfillMask| ==> status & rxfillMask[j] == 0
      ensures j < |rxdescMask| ==> status & rxdescMask[j] == 0
    {
    }

    /** With any ring at all, armed is not disarmed. */
    lemma MasksExclude()
      requires OneMaskPerRing() && Armed()
      requires |rxdesc| > 0 || |txcmpl| > 0 || |rxfill| > 0
      ensures !Disarmed()
    {
      if |rxdesc| > 0 {
        assert rxdescMask[0] != INT_DISABLE;
      } else if |txcmpl| > 0 {
        assert txcmplMask[0] != INT_DISABLE;
      } else {
        assert rxfillMask[0] != INT_DISABLE;
      }
    }

    /** Writes the interrupt masks of all rings and completes NAPI. */
    method Rearm()
      modifies this`rxdescMask, this`txcmplMask, this`rxfillMask, this`napiScheduled
      ensures Armed() && !napiScheduled
      ensures |rxdescMask| == |old(rxdescMask)| && |txcmplMask| == |old(txcmplMask)| && |rxfillMask| == |old(rxfillMask)|
    {
      napiScheduled := false;
      rxdescMask := WriteAll(rxdescMask, RXDESC_INT_MASK);
      txcmplMask := WriteAll(txcmplMask, TXCMPL_INT_MASK);
      rxfillMask := WriteAll(rxfillMask, RXFILL_INT_MASK);
    }

    /** Writes one value to the mask register of every ring. */
    static method WriteAll(masks: seq<bv32>, v: bv32) returns (r: seq<bv32>)
      ensures |r| == |masks| && AllAre(r, v)
    {
      r := masks;
      for i := 0 to |masks|
        invariant |r| == |masks| && forall k :: 0 <= k < i ==> r[k] == v
      {
        r := r[i := v];
      }
    }

    /** ORs the interrupt status of all rings of one kind. */
    static method ReadAll(status: seq<bv32>, mask: bv32) returns (acc: bv32)
      ensures acc == 0 <==> Quiet(status, mask)
    {
      acc := 0;
      for i := 0 to |status|
        invariant acc == 0 <==> Quiet(status[..i], mask)
      {
        OrStays(acc, status[i], mask);
        QuietNext(status, i, mask);
        acc := acc | (status[i] & mask);
      }
      assert status[..|status|] == status;
    }

    /** `edma_handle_irq`: disables every interrupt whatever the status says, and
        schedules a poll exactly when some ring reports one.  After a spurious
        interrupt (`handled` false) nothing but an earlier schedule brings the
        masks back. */
    method HandleIrq(rxStatus: seq<bv32>, txStatus: seq<bv32>, fillStatus: seq<bv32>) returns (handled: bool)
      requires |rxStatus| == |rxdesc| && |txStatus| == |txcmpl| && |fillStatus| == |rxfill|
      modifies this`rxdescMask, this`txcmplMask, this`rxfillMask, this`napiScheduled
      ensures handled <==> !(Quiet(rxStatus, 0x3) && Quiet(txStatus, 0x3) && Quiet(fillStatus, 0x1))
      ensures Disarmed()
      ensures |rxdescMask| == |old(rxdescMask)| && |txcmplMask| == |old(txcmplMask)| && |rxfillMask| == |old(rxfillMask)|
      ensures old(OneMaskPerRing()) ==> OneMaskPerRing()
      ensures napiScheduled <==> old(napiScheduled) || handled
    {
      var rx := ReadAll(rxStatus, RXDESC_STATUS_MASK);
      rxdescMask := WriteAll(rxdescMask, INT_DISABLE);
      var tx := ReadAll(txStatus, TXCMPL_STATUS_MASK);
      txcmplMask := WriteAll(txcmplMask, INT_DISABLE);
      var fill := ReadAll(fillStatus, RXFILL_STATUS_MASK);
      rxfillMask := WriteAll(rxfillMask, INT_DISABLE);
      if rx == 0 && tx == 0 && fill == 0 {
        return false;
      }
      rxdescMask := WriteAll(rxdescMask, INT_DISABLE);
      napiScheduled := true;
      return true;
    }

    /** The ring work of `edma_napi`: all RXDESC rings, all TXCMPL rings, all
        RXFILL rings; `work` counts reports and completions taken and buffers
        posted by the final refill, exactly. */
    method PollRings(budget: nat, ports: seq<EdmaRx.Port>, env: (nat, nat) -> seq<Event>, supply: nat -> Alloc,
                     ghost d0: RxDev, ghost t0: TxDev)
      returns (work: nat, polls: seq<RingPoll>, nums: seq<nat>, ghost t: RxTrail, ghost ft: FillTrail)
      requires Stores() && RxAtRest() && TxAtRest() && |fillOf| == |rxdesc|
      requires forall j :: 0 <= j < |fillOf| ==> fillOf[j] < |rxfill|
      requires forall j: nat, n: nat :: HardwareOnly(env(j, n))
      requires Distinct(supply) && FreshFrom(supply, 0, rxStore[..])
      requires EdmaRx.Reaches(d0, RxView())
      requires EdmaTx.Reaches(t0, TxView())
      modifies this`rxfill, this`rxdesc, this`rxFly, this`rxReaped, this`delivered, this`dropped,
               this`rxMissing, this`rxWord, this`rxPosted, this`obtained, this`wasted, rxStore
      modifies this`txcmpl, this`txReaped, this`txMissing, txStore
      ensures EdmaRx.Reaches(d0, RxView()) && EdmaTx.Reaches(t0, TxView())
      ensures |rxfill| == |old(rxfill)| && |rxdesc| == |old(rxdesc)| && |txcmpl| == |old(txcmpl)|
      ensures RxAtRest() && TxAtRest()
      ensures Polled(old(RxView()), RxView(), budget, ports, fillOf, supply, polls, nums, t, ft)
      ensures work == TotalWork(polls) + (|txReaped| - |old(txReaped)|) + Sum(nums)
      ensures |txReaped| >= |old(txReaped)| && forall j :: 0 <= j < |txcmpl| ==> Unread(txcmpl[j]) == []
      ensures Shrunk(old(txStore[..]), txStore[..])
      ensures work < budget ==>
                forall j :: 0 <= j < |polls| ==>
                  && polls[j].drained
                  && j < |t.ends[j].p.sink| && t.ends[j].p.sink[j].cons == t.ends[j].p.sink[j].prod
      ensures NoHardware(env) && work < budget ==> forall j :: 0 <= j < |rxdesc| ==> Unread(rxdesc[j]) == []
    {
      var pos;
      polls, pos, t := CleanAllRx(budget, ports, env, supply, d0);
      var completed := CleanAllTx(t0);
      nums, pos, ft := FillAll(supply, pos, d0);
      work := TotalWork(polls) + completed + Sum(nums);
      if work < budget {
        forall j | 0 <= j < |polls|
          ensures polls[j].drained && j < |t.ends[j].p.sink| && t.ends[j].p.sink[j].cons == t.ends[j].p.sink[j].prod
        {
          BelowBudgetDrained(t, polls, budget, ports, fillOf, supply, j);
        }
      }
    }

    /** The end of a poll, on the masks alone. */
    method FinishPoll(done: bool)
      requires Stores()
      modifies this`rxdescMask, this`txcmplMask, this`rxfillMask, this`napiScheduled
      ensures if done then Armed() && !napiScheduled
              else rxdescMask == old(rxdescMask) && txcmplMask == old(txcmplMask)
                   && rxfillMask == old(rxfillMask) && napiScheduled == old(napiScheduled)
      ensures old(OneMaskPerRing()) ==> OneMaskPerRing()
      ensures RxView() == old(RxView()) && TxView() == old(TxView())
    {
      if done {
        Rearm();
      }
    }

    /** `edma_napi`: re-arms all interrupt masks or none of them, and only when
        the receive loop of every RXDESC ring ended by seeing its consumer index
        at the producer index (`t.ends[j]` is the state ring `j`'s loop ended
        in).  When the hardware was idle during the poll, no report is then left
        unread. */
    method Napi(budget: nat, ports: seq<EdmaRx.Port>, env: (nat, nat) -> seq<Event>, supply: nat -> Alloc,
                ghost d0: RxDev, ghost t0: TxDev)
      returns (work: nat, polls: seq<RingPoll>, nums: seq<nat>, ghost t: RxTrail, ghost ft: FillTrail)
      requires Stores() && RxAtRest() && TxAtRest() && |fillOf| == |rxdesc|
      requires forall j :: 0 <= j < |fillOf| ==> fillOf[j] < |rxfill|
      requires forall j: nat, n: nat :: HardwareOnly(env(j, n))
      requires Distinct(supply) && FreshFrom(supply, 0, rxStore[..])
      requires EdmaRx.Reaches(d0, RxView())
      requires EdmaTx.Reaches(t0, TxView())
      modifies this`rxfill, this`rxdesc, this`rxFly, this`rxReaped, this`delivered, this`dropped,
               this`rxMissing, this`rxWord, this`rxPosted, this`obtained, this`wasted, rxStore
      modifies this`txcmpl, this`txReaped, this`txMissing, txStore
      modifies this`rxdescMask, this`txcmplMask, this`rxfillMask, this`napiScheduled
      ensures EdmaRx.Reaches(d0, RxView()) && EdmaTx.Reaches(t0, TxView())
      ensures |rxfill| == |old(rxfill)| && |rxdesc| == |old(rxdesc)| && |txcmpl| == |old(txcmpl)|
      ensures RxAtRest() && TxAtRest()
      ensures Polled(old(RxView()), RxView(), budget, ports, fillOf, supply, polls, nums, t, ft)
      ensures work == TotalWork(polls) + (|txReaped| - |old(txReaped)|) + Sum(nums)
      ensures |txReaped| >= |old(txReaped)| && forall j :: 0 <= j < |txcmpl| ==> Unread(txcmpl[j]) == []
      ensures Shrunk(old(txStore[..]), txStore[..])
      ensures work < budget ==>
                forall j :: 0 <= j < |polls| ==>
                  && polls[j].drained
                  && j < |t.ends[j].p.sink| && t.ends[j].p.sink[j].cons == t.ends[j].p.sink[j].prod
      ensures NoHardware(env) && work < budget ==> forall j :: 0 <= j < |rxdesc| ==> Unread(rxdesc[j]) == []
      ensures if work < budget then Armed() && !napiScheduled
              else rxdescMask == old(rxdescMask) && txcmplMask == old(txcmplMask)
                   && rxfillMask == old(rxfillMask) && napiScheduled == old(napiScheduled)
      ensures old(OneMaskPerRing()) ==> OneMaskPerRing()
    {
      work, polls, nums, t, ft := PollRings(budget, ports, env, supply, d0, t0);
      FinishPoll(work < budget);
    }
  }

  /** `edma_configure_rings`: empty stores, then a first refill of every RXFILL
      ring.  From here on every routine of the class may be called. */
  method ConfigureRings(fillRings: nat, fillOf: seq<nat>, txRings: nat, cmplRings: nat, supply: nat -> Alloc)
    returns (hw: EdmaHw, nums: seq<nat>, ghost t: FillTrail)
    requires forall j :: 0 <= j < |fillOf| ==> fillOf[j] < fillRings
    requires Distinct(supply)
    ensures fresh(hw) && fresh(hw.rxStore) && fresh(hw.txStore) && hw.Stores()
    ensures hw.fillOf == fillOf && |hw.rxdesc| == |fillOf| && |hw.rxfill| == |nums| == fillRings
    ensures |hw.txdesc| == txRings && |hw.txcmpl| == cmplRings
    ensures EdmaRx.Reaches(EdmaRuns.RxStart(fillRings, |fillOf|), hw.RxView())
    ensures EdmaTx.Reaches(EdmaRuns.TxStart(txRings, cmplRings), hw.TxView())
    ensures hw.TxView() == EdmaRuns.TxStart(txRings, cmplRings)
    ensures hw.RxAtRest() && hw.TxAtRest() && hw.OneMaskPerRing() && hw.Disarmed() && !hw.napiScheduled
    ensures AllRefilled(EdmaRuns.RxStart(fillRings, |fillOf|).p.src, hw.rxfill, t, supply, nums)
    ensures t.stores[0] == EdmaRuns.RxStart(fillRings, |fillOf|).p.store && t.stores[|nums|] == hw.rxStore[..]
    ensures |hw.rxPosted| == Sum(nums)
    ensures EdmaRefill.Generous(supply) ==>
              forall i :: 0 <= i < fillRings ==>
                nums[i] == |Posted(hw.rxfill[i])| == if i == 0 then RING_SIZE - 1 else 0
  {
    hw := new EdmaHw(fillRings, fillOf, txRings, cmplRings);
    EdmaRuns.StartReaches(fillRings, |fillOf|, txRings, cmplRings);
    ghost var before := hw.rxfill;
    var pos;
    nums, pos, t := hw.FillAll(supply, 0, hw.RxView());
    if EdmaRefill.Generous(supply) {
      forall i | 0 <= i < fillRings
        ensures nums[i] == |Posted(hw.rxfill[i])| == if i == 0 then RING_SIZE - 1 else 0
      {
        FirstRingTakesAll(before, hw.rxfill, t, supply, nums, i);
      }
    }
  }
}

/** The buffer circuit both EDMA directions share: the driver posts buffers in
    producer rings, the hardware takes them and later reports them in consumer
    rings, and a store of 128 slots, common to all rings of the direction,
    remembers the skb behind each slot number ("opaque") that travels with a
    buffer.

    For receive the producer rings are the RXFILL rings and the consumer rings
    the RXDESC rings; for transmit they are TXDESC and TXCMPL.  Driver loops are
    split into single turns and register accesses, so a run may interleave
    them with hardware steps and with other rings in any order. */
module EdmaPipe {
  import opened Wrappers
  import opened RingIndex

  type Skb = nat

  type Index = i: nat | i < RING_SIZE

  /** What the hardware writes when it reports a buffer: the buffer it is
      about, the tag (opaque word) that came with it, and what it says about it. */
  datatype Report = Report(buf: Skb, tag: nat, srcInfo: bv16, rxPre4: bv32, status: bv32)

  const NO_REPORT := Report(0, 0, 0, 0, 0)

  type BufMem = s: seq<Skb> | |s| == RING_SIZE witness seq(RING_SIZE, _ => 0)
  type ReportMem = s: seq<Report> | |s| == RING_SIZE witness seq(RING_SIZE, _ => NO_REPORT)
  type Store = s: seq<Option<Skb>> | |s| == RING_SIZE witness seq(RING_SIZE, _ => None)

  /** A ring the driver produces into.  `cons` and `reg` are the index
      registers; `prod` is the driver's own producer index, ahead of `reg`
      until published; `seen` is the consumer index the driver last read. */
  datatype Source = Source(desc: BufMem, cons: Index, reg: Index, prod: Index, seen: Index)

  /** A ring the driver consumes from.  `prod` and `reg` are the index
      registers; `cons` is the driver's own consumer index, ahead of `reg`
      until published; `seen` is the producer index the driver last read. */
  datatype Sink = Sink(desc: ReportMem, prod: Index, reg: Index, cons: Index, seen: Index)

  datatype Pipe = Pipe(
    store: Store,
    word: map<Skb, nat>,      // opaque word in the preheader of each buffer
    src: seq<Source>,
    fly: seq<Report>,         // buffers the hardware holds
    sink: seq<Sink>,
    posted: seq<Skb>,         // every skb put in the store, in order
    reaped: seq<Skb>)         // every skb taken out of the store, in order

  // --------------------------------------------------------------- windows

  /** The entries from index `a` up to, not including, index `b`. */
  function Span<T>(mem: seq<T>, a: Index, b: Index): (q: seq<T>)
    requires |mem| == RING_SIZE
    ensures |q| == Off(a, b)
  {
    seq(Off(a, b), k requires 0 <= k < Off(a, b) => mem[Idx(a, k)])
  }

  lemma SpanAppend<T>(mem: seq<T>, a: Index, b: Index, x: T)
    requires |mem| == RING_SIZE && Off(a, b) < RING_SIZE - 1
    ensures Span(mem[b := x], a, Succ(b)) == Span(mem, a, b) + [x]
  {
  }

  lemma SpanDrop<T>(mem: seq<T>, a: Index, b: Index)
    requires |mem| == RING_SIZE && a != b
    ensures Span(mem, a, b) != [] && Span(mem, a, b)[0] == mem[a]
    ensures Span(mem, Succ(a), b) == Span(mem, a, b)[1..]
  {
  }

  lemma SpanOutside<T>(mem: seq<T>, a: Index, b: Index, x: T)
    requires |mem| == RING_SIZE
    ensures Span(mem[b := x], a, b) == Span(mem, a, b)
  {
  }

  function Posted(s: Source): seq<Skb> { Span(s.desc, s.cons, s.prod) }

  function Unread(s: Sink): seq<Report> { Span(s.desc, s.cons, s.prod) }

  function Bufs(q: seq<Report>): (b: seq<Skb>)
    ensures |b| == |q|
  {
    seq(|q|, k requires 0 <= k < |q| => q[k].buf)
  }

  /** Index registers and driver indices of a producer ring are in step: what
      is published is posted, and the driver's view of the consumer is not
      ahead of the real one. */
  predicate SourceOk(s: Source) {
    Off(s.cons, s.reg) <= Off(s.cons, s.prod) <= Off(s.seen, s.prod)
  }

  predicate SinkOk(s: Sink) {
    Off(s.reg, s.cons) <= Off(s.reg, s.prod) && Off(s.cons, s.seen) <= Off(s.cons, s.prod)
  }

  // ----------------------------------------------------- outstanding buffers

  function Union(parts: seq<multiset<Skb>>): multiset<Skb> {
    if parts == [] then multiset{} else Union(parts[..|parts| - 1]) + parts[|parts| - 1]
  }

  function SourceParts(src: seq<Source>): (m: seq<multiset<Skb>>)
    ensures |m| == |src|
  {
    seq(|src|, i requires 0 <= i < |src| => multiset(Posted(src[i])))
  }

  function SinkParts(sink: seq<Sink>): (m: seq<multiset<Skb>>)
    ensures |m| == |sink|
  {
    seq(|sink|, j requires 0 <= j < |sink| => multiset(Bufs(Unread(sink[j]))))
  }

  /** Every buffer that is posted, held by the hardware, or reported and not
      yet read. */
  function Outstanding(p: Pipe): multiset<Skb> {
    Union(SourceParts(p.src)) + multiset(Bufs(p.fly)) + Union(SinkParts(p.sink))
  }

  lemma Exchange(u: multiset<Skb>, a: multiset<Skb>, v: multiset<Skb>, b: multiset<Skb>,
                 k: multiset<Skb>, l: multiset<Skb>)
    requires u + a == v + b
    ensures (u + k) + a == (v + k) + b
    ensures (u + k + l) + a == (v + k + l) + b
    ensures (k + l + u) + a == (k + l + v) + b
  {
    assert (u + k) + a == (u + a) + k;
    assert (v + k) + b == (v + b) + k;
    assert (u + k + l) + a == (u + a) + (k + l);
    assert (v + k + l) + b == (v + b) + (k + l);
    assert (k + l + u) + a == (u + a) + (k + l);
    assert (k + l + v) + b == (v + b) + (k + l);
  }

  lemma {:induction false} UnionUpdate(parts: seq<multiset<Skb>>, i: nat, m: multiset<Skb>)
    requires i < |parts|
    ensures Union(parts[i := m]) + parts[i] == Union(parts) + m
  {
    var n := |parts| - 1;
    if i == n {
      assert parts[i := m][..n] == parts[..n];
    } else {
      UnionUpdate(parts[..n], i, m);
      assert parts[i := m][..n] == parts[..n][i := m];
      Exchange(Union(parts[..n][i := m]), parts[i], Union(parts[..n]), m, parts[n], multiset{});
    }
  }

  lemma {:induction false} UnionMember(parts: seq<multiset<Skb>>, i: nat, b: Skb)
    requires i < |parts| && b in parts[i]
    ensures b in Union(parts)
  {
    if i < |parts| - 1 {
      UnionMember(parts[..|parts| - 1], i, b);
    }
  }

  lemma {:induction false} UnionEmpty(parts: seq<multiset<Skb>>)
    requires forall i :: 0 <= i < |parts| ==> parts[i] == multiset{}
    ensures Union(parts) == multiset{}
  {
    if parts != [] {
      UnionEmpty(parts[..|parts| - 1]);
    }
  }

  /** Changing one producer ring changes the outstanding buffers by what its
      window gained and lost. */
  lemma SourceUpdate(p: Pipe, i: nat, s: Source)
    requires i < |p.src|
    ensures Outstanding(p.(src := p.src[i := s])) + multiset(Posted(p.src[i])) == Outstanding(p) + multiset(Posted(s))
  {
    var parts, m := SourceParts(p.src), multiset(Posted(s));
    assert SourceParts(p.src[i := s]) == parts[i := m];
    UnionUpdate(parts, i, m);
    Exchange(Union(parts[i := m]), parts[i], Union(parts), m, multiset(Bufs(p.fly)), Union(SinkParts(p.sink)));
  }

  lemma SinkUpdate(p: Pipe, j: nat, s: Sink)
    requires j < |p.sink|
    ensures Outstanding(p.(sink := p.sink[j := s])) + multiset(Bufs(Unread(p.sink[j])))
         == Outstanding(p) + multiset(Bufs(Unread(s)))
  {
    var parts, m := SinkParts(p.sink), multiset(Bufs(Unread(s)));
    assert SinkParts(p.sink[j := s]) == parts[j := m];
    UnionUpdate(parts, j, m);
    Exchange(Union(parts[j := m]), parts[j], Union(parts), m, Union(SourceParts(p.src)), multiset(Bufs(p.fly)));
  }

  lemma BufOfMember(q: seq<Report>, x: Report)
    requires x in q
    ensures x.buf in multiset(Bufs(q))
  {
    var k :| 0 <= k < |q| && q[k] == x;
    assert Bufs(q)[k] == x.buf;
  }

  lemma PostedIsOutstanding(p: Pipe, i: nat, b: Skb)
    requires i < |p.src| && b in Posted(p.src[i])
    ensures b in Outstanding(p)
  {
    UnionMember(SourceParts(p.src), i, b);
  }

  lemma UnreadIsOutstanding(p: Pipe, j: nat, x: Report)
    requires j < |p.sink| && x in Unread(p.sink[j])
    ensures x.buf in Outstanding(p)
  {
    BufOfMember(Unread(p.sink[j]), x);
    UnionMember(SinkParts(p.sink), j, x.buf);
  }

  lemma FlyingIsOutstanding(p: Pipe, x: Report)
    requires x in p.fly
    ensures x.buf in Outstanding(p)
  {
    BufOfMember(p.fly, x);
  }

  // ------------------------------------------------------------------- steps

  datatype Event =
    | Look(i: nat)                       // driver reads the consumer index of a producer ring
    | Post(i: nat, b: Skb)               // driver stores, tags and posts one buffer
    | Spoil(i: nat, b: Skb)              // as Post, but mapping fails and the store slot is cleared again
    | Retag(b: Skb)                      // driver clears the tag of an skb that is not in the store
    | Publish(i: nat)                    // driver writes the producer index register
    | Fetch(i: nat)                      // hardware takes the oldest published buffer
    | Deliver(k: nat, j: nat, srcInfo: bv16, rxPre4: bv32, status: bv32)
                                         // hardware reports one of the buffers it holds
    | Peek(j: nat)                       // driver reads the producer index of a consumer ring
    | Reap(j: nat)                       // driver takes one report and clears its store slot
    | Release(j: nat)                    // driver writes the consumer index register

  /** The driver may put `b` into slot `prod`: the ring has room as far as the
      driver knows, the store slot is free, and the skb is the driver's own. */
  predicate CanPost(p: Pipe, i: nat, b: Skb) {
    && i < |p.src|
    && Succ(p.src[i].prod) != p.src[i].seen
    && p.store[p.src[i].prod].None?
    && Some(b) !in p.store
  }

  function PostTo(p: Pipe, i: nat, b: Skb): Pipe
    requires CanPost(p, i, b)
  {
    var s := p.src[i];
    p.(store := p.store[s.prod := Some(b)],
       word := p.word[b := s.prod],
       src := p.src[i := s.(desc := s.desc[s.prod := b], prod := Succ(s.prod))],
       posted := p.posted + [b])
  }

  function SpoilAt(p: Pipe, i: nat, b: Skb): Pipe
    requires CanPost(p, i, b)
  {
    var s := p.src[i];
    p.(word := p.word[b := s.prod], src := p.src[i := s.(desc := s.desc[s.prod := 0])])
  }

  predicate CanFetch(p: Pipe, i: nat) {
    i < |p.src| && p.src[i].cons != p.src[i].reg
  }

  /** The hardware reads the descriptor and the tag in the buffer it names. */
  function FetchFrom(p: Pipe, i: nat): Pipe
    requires CanFetch(p, i)
  {
    var s := p.src[i];
    var b := s.desc[s.cons];
    p.(src := p.src[i := s.(cons := Succ(s.cons))],
       fly := p.fly + [NO_REPORT.(buf := b, tag := if b in p.word then p.word[b] else 0)])
  }

  predicate CanDeliver(p: Pipe, k: nat, j: nat) {
    k < |p.fly| && j < |p.sink| && Succ(p.sink[j].prod) != p.sink[j].reg
  }

  function DeliverTo(p: Pipe, k: nat, j: nat, srcInfo: bv16, rxPre4: bv32, status: bv32): Pipe
    requires CanDeliver(p, k, j)
  {
    var s := p.sink[j];
    var x := p.fly[k].(srcInfo := srcInfo, rxPre4 := rxPre4, status := status);
    p.(fly := p.fly[..k] + p.fly[k + 1..],
       sink := p.sink[j := s.(desc := s.desc[s.prod := x], prod := Succ(s.prod))])
  }

  predicate CanReap(p: Pipe, j: nat) {
    j < |p.sink| && p.sink[j].cons != p.sink[j].seen
  }

  /** The report the next reap of ring `j` will read. */
  function Head(p: Pipe, j: nat): Report
    requires j < |p.sink|
  {
    p.sink[j].desc[p.sink[j].cons]
  }

  /** Reading a report clears the store slot its tag names, whatever is in
      it. */
  function ReapFrom(p: Pipe, j: nat): Pipe
    requires CanReap(p, j) && Head(p, j).tag < RING_SIZE
  {
    var s, t := p.sink[j], Head(p, j).tag;
    p.(store := p.store[t := None],
       sink := p.sink[j := s.(cons := Succ(s.cons))],
       reaped := if p.store[t].Some? then p.reaped + [p.store[t].value] else p.reaped)
  }

  function Step(p: Pipe, e: Event): Pipe {
    match e
    case Look(i) => if i < |p.src| then p.(src := p.src[i := p.src[i].(seen := p.src[i].cons)]) else p
    case Post(i, b) => if CanPost(p, i, b) then PostTo(p, i, b) else p
    case Spoil(i, b) => if CanPost(p, i, b) then SpoilAt(p, i, b) else p
    case Retag(b) => if Some(b) !in p.store then p.(word := p.word[b := 0]) else p
    case Publish(i) => if i < |p.src| then p.(src := p.src[i := p.src[i].(reg := p.src[i].prod)]) else p
    case Fetch(i) => if CanFetch(p, i) then FetchFrom(p, i) else p
    case Deliver(k, j, si, pre4, st) => if CanDeliver(p, k, j) then DeliverTo(p, k, j, si, pre4, st) else p
    case Peek(j) => if j < |p.sink| then p.(sink := p.sink[j := p.sink[j].(seen := p.sink[j].prod)]) else p
    case Reap(j) => if CanReap(p, j) && Head(p, j).tag < RING_SIZE then ReapFrom(p, j) else p
    case Release(j) => if j < |p.sink| then p.(sink := p.sink[j := p.sink[j].(reg := p.sink[j].cons)]) else p
  }

  function Run(p: Pipe, es: seq<Event>): Pipe {
    if es == [] then p else Step(Run(p, es[..|es| - 1]), es[|es| - 1])
  }

  lemma {:induction false} RunConcat(p: Pipe, a: seq<Event>, b: seq<Event>)
    ensures Run(p, a + b) == Run(Run(p, a), b)
  {
    if b == [] {
      assert a + b == a;
    } else {
      RunConcat(p, a, b[..|b| - 1]);
      assert (a + b)[..|a + b| - 1] == a + b[..|b| - 1];
    }
  }

  // --------------------------------------------------------------- invariant

  ghost predicate RingsOk(p: Pipe) {
    && (forall i :: 0 <= i < |p.src| ==> SourceOk(p.src[i]))
    && (forall j :: 0 <= j < |p.sink| ==> SinkOk(p.sink[j]))
  }

  /** The store and the outstanding buffers are the same thing seen from two
      sides: no buffer is outstanding twice, the tag in each outstanding buffer
      names its own skb, and every occupied slot belongs to an outstanding
      buffer. */
  ghost predicate StoreMatches(store: Store, word: map<Skb, nat>, out: multiset<Skb>) {
    && (forall b :: out[b] <= 1)
    && (forall b :: b in out ==> b in word && word[b] < RING_SIZE && store[word[b]] == Some(b))
    && (forall t :: 0 <= t < RING_SIZE && store[t].Some? ==> store[t].value in out && word[store[t].value] == t)
  }

  predicate Tagged(word: map<Skb, nat>, x: Report) {
    x.buf in word && x.tag == word[x.buf]
  }

  ghost predicate AllTagged(word: map<Skb, nat>, q: seq<Report>) {
    forall k :: 0 <= k < |q| ==> Tagged(word, q[k])
  }

  /** Reports carry the tag of the buffer they are about. */
  ghost predicate ReportsOk(p: Pipe) {
    && AllTagged(p.word, p.fly)
    && (forall j :: 0 <= j < |p.sink| ==> AllTagged(p.word, Unread(p.sink[j])))
  }

  ghost predicate Conserved(p: Pipe) {
    multiset(p.posted) == Outstanding(p) + multiset(p.reaped)
  }

  ghost predicate Facts(p: Pipe) {
    && RingsOk(p)
    && StoreMatches(p.store, p.word, Outstanding(p))
    && ReportsOk(p)
    && Conserved(p)
  }

  /** The pipe invariant.  Its facts sit behind a quantifier that only `Open`
      instantiates, so that proofs about whole steps and runs do not carry them
      around opened. */
  ghost predicate Inv(p: Pipe) {
    forall u: bool {:trigger Opened(p, u)} :: Opened(p, u) ==> Facts(p)
  }

  predicate Opened(p: Pipe, u: bool) { true }

  lemma Open(p: Pipe)
    requires Inv(p)
    ensures Facts(p)
  {
    assert Opened(p, true);
  }

  lemma Close(p: Pipe)
    requires RingsOk(p)
    requires StoreMatches(p.store, p.word, Outstanding(p))
    requires ReportsOk(p)
    requires Conserved(p)
    ensures Inv(p)
  {
  }

  // --------------------------------------- how steps move outstanding buffers

  lemma PostAdds(p: Pipe, i: nat, b: Skb)
    requires CanPost(p, i, b) && SourceOk(p.src[i])
    ensures Outstanding(PostTo(p, i, b)) == Outstanding(p) + multiset{b}
    ensures SourceOk(PostTo(p, i, b).src[i])
  {
    var s, s' := p.src[i], PostTo(p, i, b).src[i];
    SpanAppend(s.desc, s.cons, s.prod, b);
    SourceUpdate(p, i, s');
    Cancel(Outstanding(p.(src := p.src[i := s'])), Outstanding(p), multiset(Posted(s)), multiset{b});
  }

  lemma Cancel(u: multiset<Skb>, v: multiset<Skb>, a: multiset<Skb>, b: multiset<Skb>)
    requires u + a == v + (a + b)
    ensures u == v + b
  {
    forall x ensures u[x] == (v + b)[x] {
      assert (u + a)[x] == (v + (a + b))[x];
    }
  }

  lemma SpoilKeeps(p: Pipe, i: nat, b: Skb)
    requires CanPost(p, i, b)
    ensures Outstanding(SpoilAt(p, i, b)) == Outstanding(p)
    ensures Posted(SpoilAt(p, i, b).src[i]) == Posted(p.src[i])
  {
    var s, s' := p.src[i], SpoilAt(p, i, b).src[i];
    SpanOutside(s.desc, s.cons, s.prod, 0);
    SourceUpdate(p, i, s');
    Cancel(Outstanding(p.(src := p.src[i := s'])), Outstanding(p), multiset(Posted(s)), multiset{});
  }

  lemma HeadAndTail(q: seq<Skb>)
    requires q != []
    ensures multiset(q) == multiset(q[1..]) + multiset{q[0]}
  {
    assert q == [q[0]] + q[1..];
  }

  lemma FetchMoves(p: Pipe, i: nat)
    requires CanFetch(p, i) && SourceOk(p.src[i])
    ensures Outstanding(FetchFrom(p, i)) == Outstanding(p)
    ensures SourceOk(FetchFrom(p, i).src[i])
    ensures p.src[i].desc[p.src[i].cons] in Posted(p.src[i])
  {
    var p1 := p.(src := p.src[i := p.src[i].(cons := Succ(p.src[i].cons))]);
    OldestLeaves(p, i);
    FlyAppend(p1, FetchFrom(p, i).fly[|p.fly|]);
  }

  /** Moving the consumer index past the oldest posted buffer takes it out. */
  lemma OldestLeaves(p: Pipe, i: nat)
    requires CanFetch(p, i) && SourceOk(p.src[i])
    ensures var s := p.src[i];
            var s' := s.(cons := Succ(s.cons));
            && SourceOk(s')
            && Posted(s) != [] && Posted(s)[0] == s.desc[s.cons] && Posted(s') == Posted(s)[1..]
            && Outstanding(p) == Outstanding(p.(src := p.src[i := s'])) + multiset{s.desc[s.cons]}
  {
    var s := p.src[i];
    var s' := s.(cons := Succ(s.cons));
    SpanDrop(s.desc, s.cons, s.prod);
    HeadAndTail(Posted(s));
    SourceUpdate(p, i, s');
    Cancel(Outstanding(p), Outstanding(p.(src := p.src[i := s'])), multiset(Posted(s')), multiset{s.desc[s.cons]});
  }

  lemma Middle(a: multiset<Skb>, u: multiset<Skb>, v: multiset<Skb>, x: multiset<Skb>, c: multiset<Skb>)
    requires u == v + x
    ensures (a + u) + c == ((a + v) + c) + x
  {
  }

  lemma FlyAppend(p: Pipe, x: Report)
    ensures Outstanding(p.(fly := p.fly + [x])) == Outstanding(p) + multiset{x.buf}
  {
    assert Bufs(p.fly + [x]) == Bufs(p.fly) + [x.buf];
    Middle(Union(SourceParts(p.src)), multiset(Bufs(p.fly + [x])), multiset(Bufs(p.fly)), multiset{x.buf},
           Union(SinkParts(p.sink)));
  }

  lemma FlyRemove(p: Pipe, k: nat)
    requires k < |p.fly|
    ensures Outstanding(p) == Outstanding(p.(fly := p.fly[..k] + p.fly[k + 1..])) + multiset{p.fly[k].buf}
  {
    var b, fly := Bufs(p.fly), p.fly[..k] + p.fly[k + 1..];
    assert Bufs(fly) == b[..k] + b[k + 1..];
    RemoveAt(b, k);
    Middle(Union(SourceParts(p.src)), multiset(b), multiset(Bufs(fly)), multiset{b[k]}, Union(SinkParts(p.sink)));
  }

  lemma RemoveAt(b: seq<Skb>, k: nat)
    requires k < |b|
    ensures multiset(b) == multiset(b[..k] + b[k + 1..]) + multiset{b[k]}
  {
    assert b == b[..k] + [b[k]] + b[k + 1..];
  }

  lemma DeliverMoves(p: Pipe, k: nat, j: nat, srcInfo: bv16, rxPre4: bv32, status: bv32)
    requires CanDeliver(p, k, j) && SinkOk(p.sink[j])
    ensures var p' := DeliverTo(p, k, j, srcInfo, rxPre4, status);
            && Outstanding(p') == Outstanding(p)
            && SinkOk(p'.sink[j])
            && Unread(p'.sink[j]) == Unread(p.sink[j]) + [p.fly[k].(srcInfo := srcInfo, rxPre4 := rxPre4, status := status)]
  {
    var p' := DeliverTo(p, k, j, srcInfo, rxPre4, status);
    var s, s', x := p.sink[j], p'.sink[j], p.fly[k].(srcInfo := srcInfo, rxPre4 := rxPre4, status := status);
    SpanAppend(s.desc, s.cons, s.prod, x);
    assert Bufs(Unread(s) + [x]) == Bufs(Unread(s)) + [x.buf];
    var p1 := p.(fly := p'.fly);
    FlyRemove(p, k);
    SinkUpdate(p1, j, s');
    Cancel(Outstanding(p'), Outstanding(p1), multiset(Bufs(Unread(s))), multiset{x.buf});
  }

  lemma ReapRemoves(p: Pipe, j: nat)
    requires CanReap(p, j) && Head(p, j).tag < RING_SIZE && SinkOk(p.sink[j])
    ensures Outstanding(p) == Outstanding(ReapFrom(p, j)) + multiset{Head(p, j).buf}
    ensures SinkOk(ReapFrom(p, j).sink[j])
    ensures Head(p, j) in Unread(p.sink[j])
    ensures Unread(ReapFrom(p, j).sink[j]) == Unread(p.sink[j])[1..]
  {
    var s, s', x := p.sink[j], ReapFrom(p, j).sink[j], Head(p, j);
    SpanDrop(s.desc, s.cons, s.prod);
    assert Bufs(Unread(s))[1..] == Bufs(Unread(s'));
    HeadAndTail(Bufs(Unread(s)));
    SinkUpdate(p, j, s');
    Cancel(Outstanding(p), Outstanding(p.(sink := p.sink[j := s'])), multiset(Bufs(Unread(s'))), multiset{x.buf});
  }

  // ------------------------------------------------- the store and the steps

  lemma Foreign(store: Store, word: map<Skb, nat>, out: multiset<Skb>, b: Skb)
    requires StoreMatches(store, word, out) && Some(b) !in store
    ensures b !in out
  {
  }

  lemma StorePut(store: Store, word: map<Skb, nat>, out: multiset<Skb>, t: Index, b: Skb)
    requires StoreMatches(store, word, out) && store[t].None? && Some(b) !in store
    ensures StoreMatches(store[t := Some(b)], word[b := t], out + multiset{b})
  {
    Foreign(store, word, out, b);
  }

  lemma StoreRetag(store: Store, word: map<Skb, nat>, out: multiset<Skb>, t: Index, b: Skb)
    requires StoreMatches(store, word, out) && Some(b) !in store
    ensures StoreMatches(store, word[b := t], out)
  {
    Foreign(store, word, out, b);
  }

  lemma StoreTake(store: Store, word: map<Skb, nat>, out: multiset<Skb>, b: Skb)
    requires StoreMatches(store, word, out + multiset{b})
    ensures b in word && word[b] < RING_SIZE && store[word[b]] == Some(b)
    ensures StoreMatches(store[word[b] := None], word, out)
  {
    assert (out + multiset{b})[b] == out[b] + 1;
    assert b in out + multiset{b};
    forall x ensures out[x] <= 1 {
      assert (out + multiset{b})[x] <= 1;
    }
    forall x | x in out ensures x in word && word[x] < RING_SIZE && store[word[b] := None][word[x]] == Some(x) {
      assert x in out + multiset{b};
    }
  }

  lemma ReportsRetag(p: Pipe, t: nat, b: Skb)
    requires ReportsOk(p) && b !in Outstanding(p)
    ensures ReportsOk(p.(word := p.word[b := t]))
  {
    var word := p.word[b := t];
    forall k | 0 <= k < |p.fly| ensures Tagged(word, p.fly[k]) {
      FlyingIsOutstanding(p, p.fly[k]);
    }
    forall j | 0 <= j < |p.sink| ensures AllTagged(word, Unread(p.sink[j])) {
      UnreadRetag(p, j, t, b);
    }
  }

  lemma UnreadRetag(p: Pipe, j: nat, t: nat, b: Skb)
    requires j < |p.sink| && AllTagged(p.word, Unread(p.sink[j])) && b !in Outstanding(p)
    ensures AllTagged(p.word[b := t], Unread(p.sink[j]))
  {
    var q := Unread(p.sink[j]);
    forall k | 0 <= k < |q| ensures Tagged(p.word[b := t], q[k]) {
      UnreadIsOutstanding(p, j, q[k]);
    }
  }

  // One lemma per operation and fact, then the operation as a whole.

  lemma RingsAfterSource(p: Pipe, p': Pipe, i: nat)
    requires RingsOk(p) && i < |p.src| == |p'.src| && SourceOk(p'.src[i]) && p'.sink == p.sink
    requires p'.src == p.src[i := p'.src[i]]
    ensures RingsOk(p')
  {
  }

  lemma RingsAfterSink(p: Pipe, p': Pipe, j: nat)
    requires RingsOk(p) && j < |p.sink| == |p'.sink| && SinkOk(p'.sink[j]) && p'.src == p.src
    requires p'.sink == p.sink[j := p'.sink[j]]
    ensures RingsOk(p')
  {
  }

  lemma PostStore(p: Pipe, i: nat, b: Skb)
    requires StoreMatches(p.store, p.word, Outstanding(p)) && CanPost(p, i, b) && SourceOk(p.src[i])
    ensures var p' := PostTo(p, i, b); StoreMatches(p'.store, p'.word, Outstanding(p'))
  {
    PostAdds(p, i, b);
    StorePut(p.store, p.word, Outstanding(p), p.src[i].prod, b);
  }

  lemma PostReports(p: Pipe, i: nat, b: Skb)
    requires ReportsOk(p) && CanPost(p, i, b) && b !in Outstanding(p)
    ensures ReportsOk(PostTo(p, i, b))
  {
    ReportsRetag(p, p.src[i].prod, b);
  }

  lemma PostConserves(p: Pipe, i: nat, b: Skb)
    requires Conserved(p) && CanPost(p, i, b) && SourceOk(p.src[i])
    ensures Conserved(PostTo(p, i, b))
  {
    var out := Outstanding(p);
    PostAdds(p, i, b);
    assert multiset(p.posted + [b]) == multiset(p.posted) + multiset{b};
    assert (out + multiset(p.reaped)) + multiset{b} == (out + multiset{b}) + multiset(p.reaped);
  }

  lemma PostKeepsInv(p: Pipe, i: nat, b: Skb)
    requires Inv(p) && CanPost(p, i, b)
    ensures Inv(PostTo(p, i, b))
  {
    Open(p);
    PostAdds(p, i, b);
    RingsAfterSource(p, PostTo(p, i, b), i);
    Foreign(p.store, p.word, Outstanding(p), b);
    PostStore(p, i, b);
    PostReports(p, i, b);
    PostConserves(p, i, b);
    Close(PostTo(p, i, b));
  }

  lemma SpoilStore(p: Pipe, i: nat, b: Skb)
    requires StoreMatches(p.store, p.word, Outstanding(p)) && CanPost(p, i, b)
    ensures var p' := SpoilAt(p, i, b); StoreMatches(p'.store, p'.word, Outstanding(p'))
  {
    SpoilKeeps(p, i, b);
    StoreRetag(p.store, p.word, Outstanding(p), p.src[i].prod, b);
  }

  lemma SpoilReports(p: Pipe, i: nat, b: Skb)
    requires ReportsOk(p) && CanPost(p, i, b) && b !in Outstanding(p)
    ensures ReportsOk(SpoilAt(p, i, b))
  {
    ReportsRetag(p, p.src[i].prod, b);
  }

  /** A post whose mapping fails leaves the store, every index and every window
      as they were. */
  lemma SpoilKeepsInv(p: Pipe, i: nat, b: Skb)
    requires Inv(p) && CanPost(p, i, b)
    ensures Inv(SpoilAt(p, i, b))
    ensures var p' := SpoilAt(p, i, b);
            && p'.store == p.store && p'.sink == p.sink && p'.fly == p.fly
            && p'.src == p.src[i := p.src[i].(desc := p'.src[i].desc)]
            && Posted(p'.src[i]) == Posted(p.src[i])
            && Outstanding(p') == Outstanding(p)
  {
    Open(p);
    SpoilKeeps(p, i, b);
    RingsAfterSource(p, SpoilAt(p, i, b), i);
    Foreign(p.store, p.word, Outstanding(p), b);
    SpoilStore(p, i, b);
    SpoilReports(p, i, b);
    Close(SpoilAt(p, i, b));
  }

  lemma FetchReports(p: Pipe, i: nat)
    requires ReportsOk(p) && CanFetch(p, i) && p.src[i].desc[p.src[i].cons] in p.word
    ensures ReportsOk(FetchFrom(p, i))
  {
  }

  lemma FetchKeepsInv(p: Pipe, i: nat)
    requires Inv(p) && CanFetch(p, i)
    ensures Inv(FetchFrom(p, i))
  {
    Open(p);
    FetchMoves(p, i);
    RingsAfterSource(p, FetchFrom(p, i), i);
    PostedIsOutstanding(p, i, p.src[i].desc[p.src[i].cons]);
    FetchReports(p, i);
    Close(FetchFrom(p, i));
  }

  lemma DeliverKeepsInv(p: Pipe, k: nat, j: nat, srcInfo: bv16, rxPre4: bv32, status: bv32)
    requires Inv(p) && CanDeliver(p, k, j)
    ensures Inv(DeliverTo(p, k, j, srcInfo, rxPre4, status))
  {
    var p' := DeliverTo(p, k, j, srcInfo, rxPre4, status);
    Open(p);
    DeliverMoves(p, k, j, srcInfo, rxPre4, status);
    RingsAfterSink(p, p', j);
    DeliverTags(p, k, j, p.fly[k].(srcInfo := srcInfo, rxPre4 := rxPre4, status := status), p');
    Close(p');
  }

  lemma DeliverTags(p: Pipe, k: nat, j: nat, x: Report, p': Pipe)
    requires ReportsOk(p) && k < |p.fly| && j < |p.sink|
    requires x.buf == p.fly[k].buf && x.tag == p.fly[k].tag
    requires p'.word == p.word && p'.fly == p.fly[..k] + p.fly[k + 1..]
    requires |p'.sink| == |p.sink| && Unread(p'.sink[j]) == Unread(p.sink[j]) + [x]
    requires forall j' :: 0 <= j' < |p.sink| && j' != j ==> p'.sink[j'] == p.sink[j']
    ensures ReportsOk(p')
  {
    assert Tagged(p.word, p.fly[k]);
    assert AllTagged(p.word, Unread(p.sink[j]));
    forall j' | 0 <= j' < |p'.sink| ensures AllTagged(p.word, Unread(p'.sink[j'])) {
      if j' != j {
        assert AllTagged(p.word, Unread(p.sink[j']));
      }
    }
  }

  lemma ReapTags(p: Pipe, j: nat, p': Pipe)
    requires ReportsOk(p) && j < |p.sink| && Unread(p.sink[j]) != []
    requires p'.word == p.word && p'.fly == p.fly
    requires |p'.sink| == |p.sink| && Unread(p'.sink[j]) == Unread(p.sink[j])[1..]
    requires forall j' :: 0 <= j' < |p.sink| && j' != j ==> p'.sink[j'] == p.sink[j']
    ensures ReportsOk(p')
  {
    assert AllTagged(p.word, Unread(p.sink[j]));
    forall j' | 0 <= j' < |p'.sink| ensures AllTagged(p.word, Unread(p'.sink[j'])) {
      if j' != j {
        assert AllTagged(p.word, Unread(p.sink[j']));
      }
    }
  }

  /** The report at the head of a consumer ring names, through its tag, the
      store slot that holds the very skb it is about; the store check that
      warns of a missing skb can never fire. */
  lemma HeadNamesItsSkb(p: Pipe, j: nat)
    requires Inv(p) && CanReap(p, j)
    ensures Head(p, j).tag < RING_SIZE
    ensures p.store[Head(p, j).tag] == Some(Head(p, j).buf)
  {
    Open(p);
    var s := p.sink[j];
    SpanDrop(s.desc, s.cons, s.prod);
    assert AllTagged(p.word, Unread(s)) && Unread(s)[0] == Head(p, j);
    UnreadIsOutstanding(p, j, Head(p, j));
  }

  lemma ReapStore(p: Pipe, j: nat)
    requires Inv(p) && CanReap(p, j) && Head(p, j).tag < RING_SIZE
    ensures var p' := ReapFrom(p, j);
            && StoreMatches(p'.store, p'.word, Outstanding(p'))
            && p'.reaped == p.reaped + [Head(p, j).buf]
  {
    Open(p);
    HeadNamesItsSkb(p, j);
    ReapRemoves(p, j);
    StoreTake(p.store, p.word, Outstanding(ReapFrom(p, j)), Head(p, j).buf);
  }

  lemma ReapConserves(p: Pipe, j: nat)
    requires Conserved(p) && CanReap(p, j) && Head(p, j).tag < RING_SIZE && SinkOk(p.sink[j])
    requires ReapFrom(p, j).reaped == p.reaped + [Head(p, j).buf]
    ensures Conserved(ReapFrom(p, j))
  {
    var p', b := ReapFrom(p, j), Head(p, j).buf;
    ReapRemoves(p, j);
    assert multiset(p.reaped + [b]) == multiset(p.reaped) + multiset{b};
    assert (Outstanding(p') + multiset{b}) + multiset(p.reaped)
        == Outstanding(p') + (multiset(p.reaped) + multiset{b});
  }

  lemma ReapKeepsInv(p: Pipe, j: nat)
    requires Inv(p) && CanReap(p, j) && Head(p, j).tag < RING_SIZE
    ensures Inv(ReapFrom(p, j))
    ensures ReapFrom(p, j).reaped == p.reaped + [Head(p, j).buf]
  {
    Open(p);
    ReapStore(p, j);
    ReapConserves(p, j);
    ReapRemoves(p, j);
    RingsAfterSink(p, ReapFrom(p, j), j);
    ReapTags(p, j, ReapFrom(p, j));
    Close(ReapFrom(p, j));
  }

  // ----------------------------------------------------------- whole runs

  /** Reading or writing an index register moves no buffer. */
  lemma SourceIndexKeepsInv(p: Pipe, i: nat, s: Source)
    requires Inv(p) && i < |p.src| && (SourceOk(p.src[i]) ==> SourceOk(s))
    requires s.desc == p.src[i].desc && s.cons == p.src[i].cons && s.prod == p.src[i].prod
    ensures Inv(p.(src := p.src[i := s]))
  {
    Open(p);
    var p' := p.(src := p.src[i := s]);
    assert SourceParts(p'.src) == SourceParts(p.src);
    assert Outstanding(p') == Outstanding(p);
    assert RingsOk(p') && ReportsOk(p') && Conserved(p');
  }

  lemma UnreadKept(p: Pipe, j: nat, s: Sink)
    requires ReportsOk(p) && j < |p.sink|
    requires s.desc == p.sink[j].desc && s.cons == p.sink[j].cons && s.prod == p.sink[j].prod
    ensures ReportsOk(p.(sink := p.sink[j := s]))
    ensures SinkParts(p.sink[j := s]) == SinkParts(p.sink)
  {
    var sink := p.sink[j := s];
    forall k | 0 <= k < |sink| ensures AllTagged(p.word, Unread(sink[k])) {
      assert Unread(sink[k]) == Unread(p.sink[k]);
    }
  }

  lemma SinkIndexKeepsInv(p: Pipe, j: nat, s: Sink)
    requires Inv(p) && j < |p.sink| && (SinkOk(p.sink[j]) ==> SinkOk(s))
    requires s.desc == p.sink[j].desc && s.cons == p.sink[j].cons && s.prod == p.sink[j].prod
    ensures Inv(p.(sink := p.sink[j := s]))
  {
    Open(p);
    var p' := p.(sink := p.sink[j := s]);
    UnreadKept(p, j, s);
    assert Outstanding(p') == Outstanding(p);
    assert RingsOk(p') && Conserved(p');
  }

  lemma LookKeepsInv(p: Pipe, i: nat)
    requires Inv(p) && i < |p.src|
    ensures Inv(Step(p, Look(i)))
  {
    SourceIndexKeepsInv(p, i, p.src[i].(seen := p.src[i].cons));
  }

  lemma PublishKeepsInv(p: Pipe, i: nat)
    requires Inv(p) && i < |p.src|
    ensures Inv(Step(p, Publish(i)))
  {
    SourceIndexKeepsInv(p, i, p.src[i].(reg := p.src[i].prod));
  }

  lemma PeekKeepsInv(p: Pipe, j: nat)
    requires Inv(p) && j < |p.sink|
    ensures Inv(Step(p, Peek(j)))
  {
    SinkIndexKeepsInv(p, j, p.sink[j].(seen := p.sink[j].prod));
  }

  lemma ReleaseKeepsInv(p: Pipe, j: nat)
    requires Inv(p) && j < |p.sink|
    ensures Inv(Step(p, Release(j)))
  {
    SinkIndexKeepsInv(p, j, p.sink[j].(reg := p.sink[j].cons));
  }

  lemma RetagKeepsInv(p: Pipe, b: Skb)
    requires Inv(p) && Some(b) !in p.store
    ensures Inv(p.(word := p.word[b := 0]))
  {
    Open(p);
    Foreign(p.store, p.word, Outstanding(p), b);
    StoreRetag(p.store, p.word, Outstanding(p), 0, b);
    ReportsRetag(p, 0, b);
  }

  lemma StepKeepsInv(p: Pipe, e: Event)
    requires Inv(p)
    ensures Inv(Step(p, e))
  {
    match e
    case Post(i, b) => if CanPost(p, i, b) { PostKeepsInv(p, i, b); }
    case Spoil(i, b) => if CanPost(p, i, b) { SpoilKeepsInv(p, i, b); }
    case Fetch(i) => if CanFetch(p, i) { FetchKeepsInv(p, i); }
    case Deliver(k, j, si, pre4, st) => if CanDeliver(p, k, j) { DeliverKeepsInv(p, k, j, si, pre4, st); }
    case Reap(j) => if CanReap(p, j) && Head(p, j).tag < RING_SIZE { ReapKeepsInv(p, j); }
    case Retag(b) => if Some(b) !in p.store { RetagKeepsInv(p, b); }
    case Look(i) => if i < |p.src| { LookKeepsInv(p, i); }
    case Publish(i) => if i < |p.src| { PublishKeepsInv(p, i); }
    case Peek(j) => if j < |p.sink| { PeekKeepsInv(p, j); }
    case Release(j) => if j < |p.sink| { ReleaseKeepsInv(p, j); }
  }

  lemma {:induction false} RunKeepsInv(p: Pipe, es: seq<Event>)
    requires Inv(p)
    ensures Inv(Run(p, es))
  {
    if es != [] {
      RunKeepsInv(p, es[..|es| - 1]);
      StepKeepsInv(Run(p, es[..|es| - 1]), es[|es| - 1]);
    }
  }
}

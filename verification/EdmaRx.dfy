/** The receive direction of the EDMA: what becomes of every skb the driver
    allocates for the RXFILL rings. */
module EdmaRx {
  import opened Wrappers
  import opened RingIndex
  import opened EdmaPipe

  // ------------------------------------------------- what a report leads to

  const SRC_INFO_TYPE_PORT: bv16 := 0x20
  const PORT_NUM_BITS: bv16 := 0x0fff
  const PACKET_LEN_MASK: bv32 := 0x3fff
  const PTP_EVENT_SERVICE_CODE: bv32 := 0x9
  const START_IFNUM: nat := 1

  /** The netdev registered for a port, if any, and whether it is running. */
  datatype Port = NoNetdev | Stopped | Running

  datatype Outcome =
    | WrongType                                       // source info is not a port
    | BadPort                                         // port number out of range
    | Unregistered                                    // no netdev for the port
    | NotRunning                                      // netdev is down
    | Passed(port: nat, len: bv32, ptp: bool)         // handed to the stack or to the PHY driver

  function SrcType(srcInfo: bv16): bv16 { (srcInfo >> 8) & 0xf0 }

  function PortNum(srcInfo: bv16): nat { (srcInfo & PORT_NUM_BITS) as nat }

  function PktLength(status: bv32): bv32 { status & PACKET_LEN_MASK }

  predicate PtpService(rxPre4: bv32) { rxPre4 & 0xff == PTP_EVENT_SERVICE_CODE }

  /** The checks of the receive loop, in order. */
  function Classify(x: Report, ports: seq<Port>): Outcome {
    var port := PortNum(x.srcInfo);
    if SrcType(x.srcInfo) != SRC_INFO_TYPE_PORT then WrongType
    else if port < START_IFNUM || port > |ports| then BadPort
    else if ports[port - 1].NoNetdev? then Unregistered
    else if ports[port - 1].Stopped? then NotRunning
    else Passed(port, PktLength(x.status), PtpService(x.rxPre4))
  }

  datatype Delivery = Delivery(skb: Skb, port: nat, len: bv32, ptp: bool)

  datatype RxDev = RxDev(
    p: Pipe,
    obtained: seq<Skb>,        // every skb the allocator returned
    wasted: seq<Skb>,           // freed by the refill loop: slot occupied or mapping failed
    delivered: seq<Delivery>,   // passed up, in order
    dropped: seq<Skb>,          // freed by the receive loop
    missing: nat)               // reports whose store slot was empty

  datatype RxEvent =
    | Plain(e: Event)                                 // hardware step or index register access
    | FillTurn(i: nat, b: Skb, mapped: bool)          // refill turn with an allocated skb
    | DescTurn(j: nat, ports: seq<Port>)              // receive-loop turn

  predicate IsPlain(e: Event) { !e.Post? && !e.Spoil? && !e.Reap? && !e.Retag? }

  /** A refill turn: the ring has room as far as the driver knows, and the
      allocator returned an skb the driver does not hold yet. */
  predicate CanFill(p: Pipe, i: nat, b: Skb) {
    i < |p.src| && Succ(p.src[i].prod) != p.src[i].seen && Some(b) !in p.store
  }

  function Fill(d: RxDev, i: nat, b: Skb, mapped: bool): RxDev
    requires CanFill(d.p, i, b)
  {
    var d1 := d.(obtained := d.obtained + [b]);
    if d.p.store[d.p.src[i].prod].Some? then
      d1.(wasted := d.wasted + [b])
    else if !mapped then
      d1.(p := SpoilAt(d.p, i, b), wasted := d.wasted + [b])
    else
      d1.(p := PostTo(d.p, i, b))
  }

  /** What the receive loop does with the skb it found. */
  function Dispose(d: RxDev, skb: Option<Skb>, o: Outcome): RxDev {
    match skb
    case None => d.(missing := d.missing + 1)
    case Some(b) =>
      match o
      case Passed(port, len, ptp) => d.(delivered := d.delivered + [Delivery(b, port, len, ptp)])
      case _ => d.(dropped := d.dropped + [b])
  }

  function Turn(d: RxDev, j: nat, ports: seq<Port>): RxDev
    requires CanReap(d.p, j) && Head(d.p, j).tag < RING_SIZE
  {
    var x := Head(d.p, j);
    Dispose(d, d.p.store[x.tag], Classify(x, ports)).(p := ReapFrom(d.p, j))
  }

  function RxStep(d: RxDev, e: RxEvent): RxDev {
    match e
    case Plain(h) => if IsPlain(h) then d.(p := Step(d.p, h)) else d
    case FillTurn(i, b, mapped) => if CanFill(d.p, i, b) then Fill(d, i, b, mapped) else d
    case DescTurn(j, ports) => if CanReap(d.p, j) && Head(d.p, j).tag < RING_SIZE then Turn(d, j, ports) else d
  }

  function RxRun(d: RxDev, es: seq<RxEvent>): RxDev {
    if es == [] then d else RxStep(RxRun(d, es[..|es| - 1]), es[|es| - 1])
  }

  // ----------------------------------------------- outcomes of many reports

  /** The number in the low twelve bits of the source information. */
  function SourcePort(srcInfo: bv16): nat { (srcInfo & 0x0FFF) as nat }

  /** A frame is to be passed up exactly when its source information is a port
      (type 2 in the top four bits), of a netdev that exists and is running. */
  predicate GoesUp(srcInfo: bv16, ports: seq<Port>) {
    && IsPortInfo(srcInfo)
    && 1 <= SourcePort(srcInfo) <= |ports|
    && ports[SourcePort(srcInfo) - 1] == Running
  }

  predicate IsPortInfo(srcInfo: bv16) { srcInfo >> 12 == 2 }

  /** The frame length is the low 14 bits of the status. */
  function FrameLength(status: bv32): bv32 { status & 0x3FFF }

  /** Service code 9 marks a PTP event. */
  predicate IsPtpEvent(rxPre4: bv32) { rxPre4 & 0xFF == 9 }

  /** What one report adds to the skbs passed up, and to those freed. */
  function Passing(x: Report, ports: seq<Port>): seq<Delivery> {
    if GoesUp(x.srcInfo, ports) then
      [Delivery(x.buf, SourcePort(x.srcInfo), FrameLength(x.status), IsPtpEvent(x.rxPre4))]
    else []
  }

  function Freeing(x: Report, ports: seq<Port>): seq<Skb> {
    if GoesUp(x.srcInfo, ports) then [] else [x.buf]
  }

  lemma TypeBits(srcInfo: bv16)
    ensures SrcType(srcInfo) == SRC_INFO_TYPE_PORT <==> IsPortInfo(srcInfo)
  {
  }

  lemma PortBits(srcInfo: bv16)
    ensures PortNum(srcInfo) == SourcePort(srcInfo)
  {
  }

  lemma WordBits(status: bv32, rxPre4: bv32)
    ensures PktLength(status) == FrameLength(status) && PtpService(rxPre4) == IsPtpEvent(rxPre4)
  {
  }

  /** The checks of the receive loop decide just that. */
  lemma ClassifyDecides(x: Report, ports: seq<Port>)
    ensures if GoesUp(x.srcInfo, ports) then
              Classify(x, ports) == Passed(SourcePort(x.srcInfo), FrameLength(x.status), IsPtpEvent(x.rxPre4))
            else !Classify(x, ports).Passed?
  {
    TypeBits(x.srcInfo);
    PortBits(x.srcInfo);
    WordBits(x.status, x.rxPre4);
  }

  function PassedUp(q: seq<Report>, ports: seq<Port>): seq<Delivery> {
    if q == [] then [] else PassedUp(q[..|q| - 1], ports) + Passing(q[|q| - 1], ports)
  }

  function FreedOf(q: seq<Report>, ports: seq<Port>): seq<Skb> {
    if q == [] then [] else FreedOf(q[..|q| - 1], ports) + Freeing(q[|q| - 1], ports)
  }

  /** From `d` to `d'` the reports `q` were taken, in order: one skb each out of
      the store, passed up or freed as the checks of the receive loop say. */
  ghost predicate Disposed(d: RxDev, d': RxDev, q: seq<Report>, ports: seq<Port>) {
    && d'.p.reaped == d.p.reaped + Bufs(q)
    && d'.delivered == d.delivered + PassedUp(q, ports)
    && d'.dropped == d.dropped + FreedOf(q, ports)
  }

  lemma DisposedNext(d: RxDev, a: RxDev, b: RxDev, q: seq<Report>, x: Report, ports: seq<Port>)
    requires Disposed(d, a, q, ports)
    requires b.p.reaped == a.p.reaped + [x.buf]
    requires b.delivered == a.delivered + Passing(x, ports) && b.dropped == a.dropped + Freeing(x, ports)
    ensures Disposed(d, b, q + [x], ports)
  {
    assert (q + [x])[..|q|] == q;
    assert Bufs(q + [x]) == Bufs(q) + [x.buf];
  }

  lemma Assoc<T>(a: seq<T>, b: seq<T>, c: seq<T>)
    ensures a + (b + c) == (a + b) + c
  {
  }

  lemma {:induction false} PassedConcat(a: seq<Report>, b: seq<Report>, ports: seq<Port>)
    ensures PassedUp(a + b, ports) == PassedUp(a, ports) + PassedUp(b, ports)
  {
    if b == [] {
      assert a + b == a;
    } else {
      var c, x := b[..|b| - 1], b[|b| - 1];
      PassedConcat(a, c, ports);
      assert (a + b)[..|a + b| - 1] == a + c;
      Assoc(PassedUp(a, ports), PassedUp(c, ports), Passing(x, ports));
    }
  }

  lemma {:induction false} FreedConcat(a: seq<Report>, b: seq<Report>, ports: seq<Port>)
    ensures FreedOf(a + b, ports) == FreedOf(a, ports) + FreedOf(b, ports)
  {
    if b == [] {
      assert a + b == a;
    } else {
      var c, x := b[..|b| - 1], b[|b| - 1];
      FreedConcat(a, c, ports);
      assert (a + b)[..|a + b| - 1] == a + c;
      Assoc(FreedOf(a, ports), FreedOf(c, ports), Freeing(x, ports));
    }
  }

  lemma BufsConcat(a: seq<Report>, b: seq<Report>)
    ensures Bufs(a + b) == Bufs(a) + Bufs(b)
  {
  }

  lemma DisposedOn(d0: RxDev, d1: RxDev, d2: RxDev, a: seq<Report>, b: seq<Report>, ports: seq<Port>)
    requires Disposed(d0, d1, a, ports) && Disposed(d1, d2, b, ports)
    ensures Disposed(d0, d2, a + b, ports)
  {
    PassedConcat(a, b, ports);
    FreedConcat(a, b, ports);
    BufsConcat(a, b);
    Assoc(d0.p.reaped, Bufs(a), Bufs(b));
    Assoc(d0.delivered, PassedUp(a, ports), PassedUp(b, ports));
    Assoc(d0.dropped, FreedOf(a, ports), FreedOf(b, ports));
  }

  /** A turn at a report whose skb is found passes it up or frees it. */
  lemma TurnDisposes(d: RxDev, j: nat, ports: seq<Port>)
    requires CanReap(d.p, j) && Head(d.p, j).tag < RING_SIZE
    requires d.p.store[Head(d.p, j).tag] == Some(Head(d.p, j).buf)
    ensures var d', x := RxStep(d, DescTurn(j, ports)), Head(d.p, j);
            && d'.delivered == d.delivered + Passing(x, ports)
            && d'.dropped == d.dropped + Freeing(x, ports)
  {
    var x := Head(d.p, j);
    ClassifyDecides(x, ports);
    assert RxStep(d, DescTurn(j, ports)) == Turn(d, j, ports);
  }

  // ------------------------------------------------------------ conservation

  function Skbs(q: seq<Delivery>): (s: seq<Skb>)
    ensures |s| == |q|
  {
    seq(|q|, k requires 0 <= k < |q| => q[k].skb)
  }

  /** Every skb taken out of the store was passed up or freed, and no report
      ever found its slot empty. */
  ghost predicate Settled(d: RxDev) {
    && multiset(d.p.reaped) == multiset(Skbs(d.delivered)) + multiset(d.dropped)
    && multiset(d.obtained) == multiset(d.p.posted) + multiset(d.wasted)
    && d.missing == 0
  }

  ghost predicate RxInv(d: RxDev) { Inv(d.p) && Settled(d) }

  lemma PipeStepKeeps(d: RxDev, h: Event)
    requires RxInv(d) && IsPlain(h)
    ensures RxInv(d.(p := Step(d.p, h)))
  {
    StepKeepsInv(d.p, h);
    LogsKept(d.p, h);
  }

  lemma LogsKept(p: Pipe, h: Event)
    requires IsPlain(h)
    ensures Step(p, h).posted == p.posted && Step(p, h).reaped == p.reaped
  {
  }

  lemma Append(s: seq<Skb>, b: Skb)
    ensures multiset(s + [b]) == multiset(s) + multiset{b}
  {
  }

  lemma FillSettles(d: RxDev, i: nat, b: Skb, mapped: bool)
    requires Settled(d) && CanFill(d.p, i, b)
    ensures Settled(Fill(d, i, b, mapped))
  {
    Append(d.obtained, b);
    Append(d.wasted, b);
    Append(d.p.posted, b);
  }

  lemma FillKeeps(d: RxDev, i: nat, b: Skb, mapped: bool)
    requires RxInv(d) && CanFill(d.p, i, b)
    ensures RxInv(Fill(d, i, b, mapped))
  {
    FillSettles(d, i, b, mapped);
    if d.p.store[d.p.src[i].prod].None? {
      if mapped {
        PostKeepsInv(d.p, i, b);
      } else {
        SpoilKeepsInv(d.p, i, b);
      }
    }
  }

  lemma TurnKeeps(d: RxDev, j: nat, ports: seq<Port>)
    requires RxInv(d) && CanReap(d.p, j) && Head(d.p, j).tag < RING_SIZE
    ensures RxInv(Turn(d, j, ports))
  {
    var x := Head(d.p, j);
    HeadNamesItsSkb(d.p, j);
    ReapKeepsInv(d.p, j);
    Append(d.p.reaped, x.buf);
    TurnSettles(d, x.buf, Classify(x, ports), ReapFrom(d.p, j));
  }

  lemma TurnSettles(d: RxDev, b: Skb, o: Outcome, p': Pipe)
    requires Settled(d) && p'.reaped == d.p.reaped + [b] && p'.posted == d.p.posted
    ensures Settled(Dispose(d, Some(b), o).(p := p'))
  {
    Append(d.p.reaped, b);
    Append(d.dropped, b);
    if o.Passed? {
      var dv := Delivery(b, o.port, o.len, o.ptp);
      assert Skbs(d.delivered + [dv]) == Skbs(d.delivered) + [b];
      Append(Skbs(d.delivered), b);
    }
  }

  lemma RxStepKeeps(d: RxDev, e: RxEvent)
    requires RxInv(d)
    ensures RxInv(RxStep(d, e))
  {
    match e
    case Plain(h) =>
      if IsPlain(h) {
        PipeStepKeeps(d, h);
        assert RxStep(d, e) == d.(p := Step(d.p, h));
      }
    case FillTurn(i, b, mapped) =>
      if CanFill(d.p, i, b) {
        FillKeeps(d, i, b, mapped);
        assert RxStep(d, e) == Fill(d, i, b, mapped);
      }
    case DescTurn(j, ports) =>
      if CanReap(d.p, j) && Head(d.p, j).tag < RING_SIZE {
        TurnKeeps(d, j, ports);
        assert RxStep(d, e) == Turn(d, j, ports);
      }
  }

  lemma {:induction false} RxRunKeeps(d: RxDev, es: seq<RxEvent>)
    requires RxInv(d)
    ensures RxInv(RxRun(d, es))
  {
    if es != [] {
      RxRunKeeps(d, es[..|es| - 1]);
      RxStepKeeps(RxRun(d, es[..|es| - 1]), es[|es| - 1]);
    }
  }

  // ------------------------------------------------ in terms of the pipe

  /** The pipe steps one receive step is made of; a refill turn that finds its
      slot occupied is a post that does not happen. */
  function RxMoves(e: RxEvent): seq<Event> {
    match e
    case Plain(h) => if IsPlain(h) then [h] else []
    case FillTurn(i, b, mapped) => [if mapped then Post(i, b) else Spoil(i, b)]
    case DescTurn(j, _) => [Reap(j)]
  }

  function RxRunMoves(es: seq<RxEvent>): seq<Event> {
    if es == [] then [] else RxRunMoves(es[..|es| - 1]) + RxMoves(es[|es| - 1])
  }

  lemma RxStepIsPipeRun(d: RxDev, e: RxEvent)
    ensures RxStep(d, e).p == Run(d.p, RxMoves(e))
  {
    if RxMoves(e) != [] {
      assert RxMoves(e)[..0] == [];
      assert Run(d.p, RxMoves(e)) == Step(d.p, RxMoves(e)[0]);
    }
  }

  /** Every receive run is a run of the pipe. */
  lemma {:induction false} RxRunIsPipeRun(d: RxDev, es: seq<RxEvent>)
    ensures RxRun(d, es).p == Run(d.p, RxRunMoves(es))
  {
    if es != [] {
      var n := |es| - 1;
      RxRunIsPipeRun(d, es[..n]);
      RxStepIsPipeRun(RxRun(d, es[..n]), es[n]);
      EdmaPipe.RunConcat(d.p, RxRunMoves(es[..n]), RxMoves(es[n]));
    }
  }

  // ------------------------------------------------------- loops as runs

  /** Some run leads from `d0`, a state that satisfies the invariant, to `d`.
      This sits behind a quantifier that only `RunTo` instantiates, so that the
      driver loops carry it unopened. */
  ghost predicate Reaches(d0: RxDev, d: RxDev) {
    forall u: bool {:trigger Opened(d0, d, u)} ::
      Opened(d0, d, u) ==> RxInv(d0) && exists es :: d == RxRun(d0, es)
  }

  predicate Opened(d0: RxDev, d: RxDev, u: bool) { true }

  lemma RunTo(d0: RxDev, d: RxDev) returns (es: seq<RxEvent>)
    requires Reaches(d0, d)
    ensures RxInv(d0) && d == RxRun(d0, es)
  {
    assert Opened(d0, d, true);
    es :| d == RxRun(d0, es);
  }

  lemma ReachesItself(d: RxDev)
    requires RxInv(d)
    ensures Reaches(d, d)
  {
    assert d == RxRun(d, []);
  }

  lemma ReachesNext(d0: RxDev, d: RxDev, e: RxEvent)
    requires Reaches(d0, d)
    ensures Reaches(d0, RxStep(d, e))
  {
    var es := RunTo(d0, d);
    assert (es + [e])[..|es|] == es;
    assert RxStep(d, e) == RxRun(d0, es + [e]);
  }

  lemma {:induction false} RunConcat(d: RxDev, a: seq<RxEvent>, b: seq<RxEvent>)
    ensures RxRun(d, a + b) == RxRun(RxRun(d, a), b)
  {
    if b == [] {
      assert a + b == a;
    } else {
      RunConcat(d, a, b[..|b| - 1]);
      assert (a + b)[..|a + b| - 1] == a + b[..|b| - 1];
    }
  }

  lemma ReachesOn(d0: RxDev, d1: RxDev, d2: RxDev)
    requires Reaches(d0, d1) && Reaches(d1, d2)
    ensures Reaches(d0, d2)
  {
    var a := RunTo(d0, d1);
    var b := RunTo(d1, d2);
    RunConcat(d0, a, b);
    assert d2 == RxRun(d0, a + b);
  }

  /** A state reached by a run may itself begin one. */
  lemma ReachedBegins(d0: RxDev, d: RxDev)
    requires Reaches(d0, d)
    ensures Reaches(d, d)
  {
    ReachedInv(d0, d);
    ReachesItself(d);
  }

  lemma ReachedInv(d0: RxDev, d: RxDev)
    requires Reaches(d0, d)
    ensures RxInv(d)
  {
    var es := RunTo(d0, d);
    RxRunKeeps(d0, es);
  }

  /** The ring `i` and the store after a successful refill turn. */
  lemma FillPosts(d: RxDev, i: nat, b: Skb)
    requires CanFill(d.p, i, b) && d.p.store[d.p.src[i].prod].None?
    requires d.p.src[i].seen == d.p.src[i].cons
    ensures var p' := RxStep(d, FillTurn(i, b, true)).p;
            && p'.src == d.p.src[i := p'.src[i]]
            && p'.src[i].cons == d.p.src[i].cons && p'.src[i].seen == d.p.src[i].seen
            && p'.src[i].prod == Succ(d.p.src[i].prod)
            && Posted(p'.src[i]) == Posted(d.p.src[i]) + [b]
            && p'.store == d.p.store[d.p.src[i].prod := Some(b)]
            && p'.sink == d.p.sink
    ensures var d' := RxStep(d, FillTurn(i, b, true)); d'.obtained == d.obtained + [b] && d'.wasted == d.wasted
  {
    var s := d.p.src[i];
    SpanAppend(s.desc, s.cons, s.prod, b);
  }

  /** A refill turn that posts nothing leaves windows, indices and store. */
  lemma FillWastes(d: RxDev, i: nat, b: Skb, mapped: bool)
    requires CanFill(d.p, i, b) && (d.p.store[d.p.src[i].prod].Some? || !mapped)
    ensures var p' := RxStep(d, FillTurn(i, b, mapped)).p;
            && p'.src == d.p.src[i := p'.src[i]]
            && p'.src[i] == d.p.src[i].(desc := p'.src[i].desc)
            && Posted(p'.src[i]) == Posted(d.p.src[i])
            && p'.store == d.p.store && p'.sink == d.p.sink
    ensures var d' := RxStep(d, FillTurn(i, b, mapped)); d'.obtained == d.obtained + [b] && d'.wasted == d.wasted + [b]
  {
    var s := d.p.src[i];
    SpanOutside(s.desc, s.cons, s.prod, 0);
  }

  /** A receive-loop turn touches only the store and its own ring. */
  lemma TurnFrame(d: RxDev, j: nat, ports: seq<Port>)
    requires CanReap(d.p, j) && Head(d.p, j).tag < RING_SIZE
    requires d.p.store[Head(d.p, j).tag] == Some(Head(d.p, j).buf)
    requires d.p.sink[j].seen == d.p.sink[j].prod
    ensures var p' := RxStep(d, DescTurn(j, ports)).p;
            && p'.src == d.p.src
            && p'.sink == d.p.sink[j := d.p.sink[j].(cons := Succ(d.p.sink[j].cons))]
            && Unread(d.p.sink[j]) != []
            && Unread(p'.sink[j]) == Unread(d.p.sink[j])[1..]
            && p'.reaped == d.p.reaped + [Unread(d.p.sink[j])[0].buf]
  {
    var s := d.p.sink[j];
    SpanDrop(s.desc, s.cons, s.prod);
  }

  /** In a sound state the tag in the buffer of the head report leads to its
      skb. */
  lemma HeadFound(d: RxDev, j: nat)
    requires RxInv(d) && CanReap(d.p, j)
    ensures var x := Head(d.p, j);
            && x.tag < RING_SIZE && d.p.store[x.tag] == Some(x.buf)
            && x.buf in d.p.word && d.p.word[x.buf] == x.tag
  {
    HeadNamesItsSkb(d.p, j);
    HeadTagged(d.p, j);
  }

  lemma HeadTagged(p: Pipe, j: nat)
    requires Inv(p) && CanReap(p, j)
    ensures Tagged(p.word, Head(p, j))
  {
    Open(p);
    var s := p.sink[j];
    SpanDrop(s.desc, s.cons, s.prod);
    assert AllTagged(p.word, Unread(s)) && Unread(s)[0] == Head(p, j);
  }

  /** The driver's indices are as they were, and reports were only appended. */
  ghost predicate Grown(s: Sink, t: Sink) {
    t.reg == s.reg && t.cons == s.cons && t.seen == s.seen && Unread(s) <= Unread(t)
  }

  ghost predicate AllGrown(before: seq<Sink>, now: seq<Sink>) {
    |now| == |before| && forall j :: 0 <= j < |now| ==> Grown(before[j], now[j])
  }

  /** Fill rings have the producer side they had. */
  ghost predicate FillKept(before: seq<Source>, now: seq<Source>) {
    |now| == |before| && forall i :: 0 <= i < |now| ==> now[i].reg == before[i].reg && now[i].prod == before[i].prod
  }

  lemma DeliverGrows(p: Pipe, k: nat, j: nat, srcInfo: bv16, rxPre4: bv32, status: bv32)
    requires CanDeliver(p, k, j) && SinkOk(p.sink[j])
    ensures AllGrown(p.sink, DeliverTo(p, k, j, srcInfo, rxPre4, status).sink)
  {
    var s, x := p.sink[j], p.fly[k].(srcInfo := srcInfo, rxPre4 := rxPre4, status := status);
    SpanAppend(s.desc, s.cons, s.prod, x);
  }

  /** A hardware step posts nothing and reads nothing: fill rings keep their
      producer side and reports are only appended. */
  lemma HardwareFrame(d: RxDev, h: Event)
    requires RingsOk(d.p) && (h.Fetch? || h.Deliver?)
    ensures var p' := RxStep(d, Plain(h)).p; FillKept(d.p.src, p'.src) && AllGrown(d.p.sink, p'.sink)
  {
    if h.Deliver? && CanDeliver(d.p, h.k, h.j) {
      DeliverGrows(d.p, h.k, h.j, h.srcInfo, h.rxPre4, h.status);
    }
  }

  lemma ReachedRings(d0: RxDev, d: RxDev)
    requires Reaches(d0, d)
    ensures RingsOk(d.p)
  {
    ReachedInv(d0, d);
    Open(d.p);
  }

  lemma HeadFoundIn(d0: RxDev, d: RxDev, j: nat)
    requires Reaches(d0, d) && CanReap(d.p, j)
    ensures var x := Head(d.p, j);
            && x.tag < RING_SIZE && d.p.store[x.tag] == Some(x.buf)
            && x.buf in d.p.word && d.p.word[x.buf] == x.tag
  {
    ReachedInv(d0, d);
    HeadFound(d, j);
  }

  /** A receive-loop turn only empties store slots. */
  lemma TurnShrinks(d: RxDev, j: nat, ports: seq<Port>, t: Index)
    ensures var store := RxStep(d, DescTurn(j, ports)).p.store;
            store[t] == d.p.store[t] || store[t].None?
  {
  }
}

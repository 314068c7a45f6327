/** The transmit direction of the EDMA: `edma_ring_xmit` on any TXDESC ring,
    completions on any TXCMPL ring, one store for all of them. */
module EdmaTx {
  import opened Wrappers
  import opened RingIndex
  import opened EdmaPipe

  datatype TxResult = TxOk | TxDesc

  datatype TxDev = TxDev(
    p: Pipe,
    unmapped: seq<Skb>,   // accepted but freed because the buffer could not be mapped
    missing: nat)         // completions whose store slot was empty

  /** One call of `edma_ring_xmit`, atomic because the store is shared by all
      rings while the locks are per ring.  The caller hands over an skb that is
      not in the store. */
  function Xmit(d: TxDev, i: nat, b: Skb, mapped: bool): (TxDev, TxResult)
    requires i < |d.p.src| && Some(b) !in d.p.store
  {
    var p := Step(d.p, Look(i));
    var s := p.src[i];
    if Succ(s.prod) == s.cons then
      (d.(p := p), TxDesc)
    else if p.store[s.prod].Some? then
      (d.(p := p.(word := p.word[b := 0])), TxDesc)
    else if !mapped then
      (d.(p := SpoilAt(p, i, b), unmapped := d.unmapped + [b]), TxOk)
    else
      (d.(p := Step(PostTo(p, i, b), Publish(i))), TxOk)
  }

  /** One turn of the loop of `edma_clean_tx`. */
  function Complete(d: TxDev, j: nat): TxDev
    requires CanReap(d.p, j) && Head(d.p, j).tag < RING_SIZE
  {
    d.(p := ReapFrom(d.p, j),
       missing := if d.p.store[Head(d.p, j).tag].None? then d.missing + 1 else d.missing)
  }

  datatype TxEvent =
    | Plain(e: Event)                      // hardware step or index register access
    | Send(i: nat, b: Skb, mapped: bool)   // edma_ring_xmit
    | CmplTurn(j: nat)                     // completion-loop turn

  predicate IsPlain(e: Event) { !e.Post? && !e.Spoil? && !e.Reap? && !e.Retag? && !e.Publish? }

  function TxStep(d: TxDev, e: TxEvent): TxDev {
    match e
    case Plain(h) => if IsPlain(h) then d.(p := Step(d.p, h)) else d
    case Send(i, b, mapped) => if i < |d.p.src| && Some(b) !in d.p.store then Xmit(d, i, b, mapped).0 else d
    case CmplTurn(j) => if CanReap(d.p, j) && Head(d.p, j).tag < RING_SIZE then Complete(d, j) else d
  }

  function TxRun(d: TxDev, es: seq<TxEvent>): TxDev {
    if es == [] then d else TxStep(TxRun(d, es[..|es| - 1]), es[|es| - 1])
  }

  ghost predicate TxInv(d: TxDev) {
    && Inv(d.p)
    && d.missing == 0
    && forall i :: 0 <= i < |d.p.src| ==> d.p.src[i].reg == d.p.src[i].prod
  }

  /** Reading the consumer register changes only what the driver has seen. */
  lemma LookFrame(p: Pipe, i: nat)
    requires Inv(p) && i < |p.src|
    ensures var p' := Step(p, Look(i));
            && Inv(p')
            && p' == p.(src := p.src[i := p.src[i].(seen := p.src[i].cons)])
  {
    LookKeepsInv(p, i);
  }

  lemma PostPublishKeepsInv(p: Pipe, i: nat, b: Skb)
    requires Inv(p) && CanPost(p, i, b)
    ensures Inv(Step(PostTo(p, i, b), Publish(i)))
  {
    PostKeepsInv(p, i, b);
    PublishKeepsInv(PostTo(p, i, b), i);
  }

  lemma XmitKeepsInv(d: TxDev, i: nat, b: Skb, mapped: bool)
    requires Inv(d.p) && i < |d.p.src| && Some(b) !in d.p.store
    ensures Inv(Xmit(d, i, b, mapped).0.p)
  {
    LookFrame(d.p, i);
    var p := Step(d.p, Look(i));
    var s := p.src[i];
    if Succ(s.prod) == s.cons {
      assert Xmit(d, i, b, mapped).0.p == p;
    } else if p.store[s.prod].Some? {
      RetagKeepsInv(p, b);
      assert Xmit(d, i, b, mapped).0.p == p.(word := p.word[b := 0]);
    } else if !mapped {
      SpoilKeepsInv(p, i, b);
      assert Xmit(d, i, b, mapped).0.p == SpoilAt(p, i, b);
    } else {
      PostPublishKeepsInv(p, i, b);
      assert Xmit(d, i, b, mapped).0.p == Step(PostTo(p, i, b), Publish(i));
    }
  }

  /** After every xmit the producer register shows everything posted. */
  lemma XmitPublishes(d: TxDev, i: nat, b: Skb, mapped: bool)
    requires i < |d.p.src| && Some(b) !in d.p.store
    requires forall k :: 0 <= k < |d.p.src| ==> d.p.src[k].reg == d.p.src[k].prod
    ensures var p' := Xmit(d, i, b, mapped).0.p;
            && |p'.src| == |d.p.src|
            && (forall k :: 0 <= k < |p'.src| ==> p'.src[k].reg == p'.src[k].prod)
            && Xmit(d, i, b, mapped).0.missing == d.missing
  {
  }

  lemma PlainPublished(p: Pipe, h: Event)
    requires IsPlain(h)
    requires forall k :: 0 <= k < |p.src| ==> p.src[k].reg == p.src[k].prod
    ensures var p' := Step(p, h);
            |p'.src| == |p.src| && forall k :: 0 <= k < |p'.src| ==> p'.src[k].reg == p'.src[k].prod
  {
  }

  lemma TxStepKeeps(d: TxDev, e: TxEvent)
    requires TxInv(d)
    ensures TxInv(TxStep(d, e))
  {
    match e
    case Plain(h) =>
      if IsPlain(h) {
        StepKeepsInv(d.p, h);
        PlainPublished(d.p, h);
        assert TxStep(d, e) == d.(p := Step(d.p, h));
      }
    case Send(i, b, mapped) =>
      if i < |d.p.src| && Some(b) !in d.p.store {
        XmitKeepsInv(d, i, b, mapped);
        XmitPublishes(d, i, b, mapped);
        assert TxStep(d, e) == Xmit(d, i, b, mapped).0;
      }
    case CmplTurn(j) =>
      if CanReap(d.p, j) && Head(d.p, j).tag < RING_SIZE {
        HeadNamesItsSkb(d.p, j);
        ReapKeepsInv(d.p, j);
        assert TxStep(d, e) == d.(p := ReapFrom(d.p, j));
      }
  }

  lemma {:induction false} TxRunKeeps(d: TxDev, es: seq<TxEvent>)
    requires TxInv(d)
    ensures TxInv(TxRun(d, es))
  {
    if es != [] {
      TxRunKeeps(d, es[..|es| - 1]);
      TxStepKeeps(TxRun(d, es[..|es| - 1]), es[|es| - 1]);
    }
  }

  // ------------------------------------------------ in terms of the pipe

  /** The pipe steps one transmit step is made of. */
  function TxMoves(d: TxDev, e: TxEvent): seq<Event> {
    match e
    case Plain(h) => if IsPlain(h) then [h] else []
    case Send(i, b, mapped) =>
      if i < |d.p.src| && Some(b) !in d.p.store then
        var s := d.p.src[i];
        if Succ(s.prod) == s.cons then [Look(i)]
        else if d.p.store[s.prod].Some? then [Look(i), Retag(b)]
        else if !mapped then [Look(i), Spoil(i, b)]
        else [Look(i), Post(i, b), Publish(i)]
      else []
    case CmplTurn(j) => [Reap(j)]
  }

  function TxRunMoves(d: TxDev, es: seq<TxEvent>): seq<Event> {
    if es == [] then []
    else
      var n := |es| - 1;
      TxRunMoves(d, es[..n]) + TxMoves(TxRun(d, es[..n]), es[n])
  }

  lemma RunOne(p: Pipe, e: Event)
    ensures Run(p, [e]) == Step(p, e)
  {
    assert [e][..0] == [];
  }

  lemma RunTwo(p: Pipe, e: Event, f: Event)
    ensures Run(p, [e, f]) == Step(Step(p, e), f)
  {
    RunOne(p, e);
    assert [e, f][..1] == [e];
  }

  lemma RunThree(p: Pipe, e: Event, f: Event, g: Event)
    ensures Run(p, [e, f, g]) == Step(Step(Step(p, e), f), g)
  {
    RunTwo(p, e, f);
    assert [e, f, g][..2] == [e, f];
  }

  lemma XmitIsPipeRun(d: TxDev, i: nat, b: Skb, mapped: bool)
    requires i < |d.p.src| && Some(b) !in d.p.store
    ensures Xmit(d, i, b, mapped).0.p == Run(d.p, TxMoves(d, Send(i, b, mapped)))
  {
    var p := Step(d.p, Look(i));
    RunOne(d.p, Look(i));
    RunTwo(d.p, Look(i), Retag(b));
    RunTwo(d.p, Look(i), Spoil(i, b));
    RunThree(d.p, Look(i), Post(i, b), Publish(i));
    var s := p.src[i];
    if Succ(s.prod) != s.cons && p.store[s.prod].None? {
      assert CanPost(p, i, b);
    }
  }

  lemma TxStepIsPipeRun(d: TxDev, e: TxEvent)
    ensures TxStep(d, e).p == Run(d.p, TxMoves(d, e))
  {
    match e
    case Plain(h) => RunOne(d.p, h);
    case Send(i, b, mapped) =>
      if i < |d.p.src| && Some(b) !in d.p.store {
        XmitIsPipeRun(d, i, b, mapped);
      }
    case CmplTurn(j) => RunOne(d.p, Reap(j));
  }

  /** Every transmit run is a run of the pipe. */
  lemma {:induction false} TxRunIsPipeRun(d: TxDev, es: seq<TxEvent>)
    ensures TxRun(d, es).p == Run(d.p, TxRunMoves(d, es))
  {
    if es != [] {
      var n := |es| - 1;
      TxRunIsPipeRun(d, es[..n]);
      TxStepIsPipeRun(TxRun(d, es[..n]), es[n]);
      EdmaPipe.RunConcat(d.p, TxRunMoves(d, es[..n]), TxMoves(TxRun(d, es[..n]), es[n]));
    }
  }

  /** `edma_ring_xmit` refuses exactly when the ring holds 127 buffers or the
      store slot for its producer index is still in use by some ring. */
  lemma XmitRefusesIff(d: TxDev, i: nat, b: Skb, mapped: bool)
    requires i < |d.p.src| && Some(b) !in d.p.store
    ensures Xmit(d, i, b, mapped).1 == TxDesc <==>
            |Posted(d.p.src[i])| == RING_SIZE - 1 || d.p.store[d.p.src[i].prod].Some?
  {
    var s := d.p.src[i];
    assert Succ(s.prod) == s.cons <==> Off(s.cons, s.prod) == RING_SIZE - 1;
  }

  /** An accepted skb is posted last in its ring, and the slot its tag names
      holds it. */
  lemma XmitPosts(d: TxDev, i: nat, b: Skb)
    requires i < |d.p.src| && Some(b) !in d.p.store && Xmit(d, i, b, true).1 == TxOk
    ensures var p' := Xmit(d, i, b, true).0.p;
            && |p'.src| == |d.p.src|
            && Posted(p'.src[i]) == Posted(d.p.src[i]) + [b]
            && b in p'.word && p'.word[b] == d.p.src[i].prod
            && p'.store == d.p.store[d.p.src[i].prod := Some(b)]
            && p'.src[i].reg == Succ(d.p.src[i].prod)
  {
    var s := d.p.src[i];
    SpanAppend(s.desc, s.cons, s.prod, b);
  }

  /** An skb that was not refused and could not be mapped is freed, and the ring
      and the store are as before. */
  lemma XmitFrees(d: TxDev, i: nat, b: Skb)
    requires i < |d.p.src| && Some(b) !in d.p.store && Xmit(d, i, b, true).1 == TxOk
    ensures Xmit(d, i, b, false).1 == TxOk
    ensures var d' := Xmit(d, i, b, false).0;
            && d'.unmapped == d.unmapped + [b]
            && |d'.p.src| == |d.p.src| && Posted(d'.p.src[i]) == Posted(d.p.src[i])
            && d'.p.store == d.p.store && d'.p.posted == d.p.posted
            && d'.p.src[i].reg == d.p.src[i].reg && d'.p.src[i].prod == d.p.src[i].prod
  {
    var s := d.p.src[i];
    SpanOutside(s.desc, s.cons, s.prod, 0);
  }

  /** A refused skb leaves ring and store as before, and nothing is freed. */
  lemma XmitRefusalKeeps(d: TxDev, i: nat, b: Skb, mapped: bool)
    requires i < |d.p.src| && Some(b) !in d.p.store && Xmit(d, i, b, mapped).1 == TxDesc
    ensures var d' := Xmit(d, i, b, mapped).0;
            && d'.unmapped == d.unmapped && d'.p.store == d.p.store && d'.p.posted == d.p.posted
            && d'.p.src == d.p.src[i := d.p.src[i].(seen := d.p.src[i].cons)]
  {
  }

  // ------------------------------------------------------- loops as runs

  /** Some run leads from `d0`, a state that satisfies the invariant, to `d`;
      see `EdmaRx.Reaches`. */
  ghost predicate Reaches(d0: TxDev, d: TxDev) {
    forall u: bool {:trigger Opened(d0, d, u)} ::
      Opened(d0, d, u) ==> TxInv(d0) && exists es :: d == TxRun(d0, es)
  }

  predicate Opened(d0: TxDev, d: TxDev, u: bool) { true }

  lemma RunTo(d0: TxDev, d: TxDev) returns (es: seq<TxEvent>)
    requires Reaches(d0, d)
    ensures TxInv(d0) && d == TxRun(d0, es)
  {
    assert Opened(d0, d, true);
    es :| d == TxRun(d0, es);
  }

  lemma ReachesItself(d: TxDev)
    requires TxInv(d)
    ensures Reaches(d, d)
  {
    assert d == TxRun(d, []);
  }

  lemma ReachesNext(d0: TxDev, d: TxDev, e: TxEvent)
    requires Reaches(d0, d)
    ensures Reaches(d0, TxStep(d, e))
  {
    var es := RunTo(d0, d);
    assert (es + [e])[..|es|] == es;
    assert TxStep(d, e) == TxRun(d0, es + [e]);
  }

  lemma {:induction false} RunConcat(d: TxDev, a: seq<TxEvent>, b: seq<TxEvent>)
    ensures TxRun(d, a + b) == TxRun(TxRun(d, a), b)
  {
    if b == [] {
      assert a + b == a;
    } else {
      RunConcat(d, a, b[..|b| - 1]);
      assert (a + b)[..|a + b| - 1] == a + b[..|b| - 1];
    }
  }

  lemma HeadFoundIn(d0: TxDev, d: TxDev, j: nat)
    requires Reaches(d0, d) && CanReap(d.p, j)
    ensures var x := Head(d.p, j); x.tag < RING_SIZE && d.p.store[x.tag] == Some(x.buf)
  {
    var es := RunTo(d0, d);
    TxRunKeeps(d0, es);
    HeadNamesItsSkb(d.p, j);
  }

  /** A completion turn touches only the store and its own ring. */
  lemma CompleteFrame(d: TxDev, j: nat)
    requires CanReap(d.p, j) && Head(d.p, j).tag < RING_SIZE
    requires d.p.store[Head(d.p, j).tag] == Some(Head(d.p, j).buf)
    requires d.p.sink[j].seen == d.p.sink[j].prod
    ensures var p' := TxStep(d, CmplTurn(j)).p;
            && p'.src == d.p.src
            && p'.sink == d.p.sink[j := d.p.sink[j].(cons := Succ(d.p.sink[j].cons))]
            && Unread(d.p.sink[j]) != []
            && Unread(p'.sink[j]) == Unread(d.p.sink[j])[1..]
            && p'.reaped == d.p.reaped + [Unread(d.p.sink[j])[0].buf]
  {
    var s := d.p.sink[j];
    SpanDrop(s.desc, s.cons, s.prod);
  }

  /** A completion turn only empties store slots. */
  lemma CompleteShrinks(d: TxDev, j: nat, t: Index)
    ensures var store := TxStep(d, CmplTurn(j)).p.store;
            store[t] == d.p.store[t] || store[t].None?
  {
  }
}

/** Slow-protocol filter bookkeeping of the switch driver: a port bitmap, one
    installed control-packet profile per port, and one ethertype register
    shared by all ports, kept in step through switch calls that may each fail. */
module SlowProto {

  const ETH_P_SLOW: nat := 0x8809
  const ETH_P_NONE: nat := 0

  const BR_STATE_DISABLED: int := 0
  const BR_STATE_LISTENING: int := 1
  const BR_STATE_LEARNING: int := 2
  const BR_STATE_FORWARDING: int := 3
  const BR_STATE_BLOCKING: int := 4

  const EOPNOTSUPP: int := 95
  const EINVAL: int := 22

  /** Port numbers that fit the 8-bit bitmap. */
  type Port = p: nat | p < 8

  /** `1 << macid` */
  function PortBit(p: Port): bv8 {
    if p == 0 then 1 else if p == 1 then 2 else if p == 2 then 4 else if p == 3 then 8
    else if p == 4 then 16 else if p == 5 then 32 else if p == 6 then 64 else 128
  }

  datatype Ctx = Ctx(bm: bv8, profiles: set<Port>, ethtype: nat, stp: map<Port, int>)

  /** Which of the switch calls of one filter update succeed; a failed call
      changes nothing. */
  datatype Calls = Calls(add: bool, eth: bool, del: bool)

  const ALL_OK := Calls(true, true, true)

  predicate Member(bm: bv8, p: Port) { bm & PortBit(p) != 0 }

  function Enable(c: Ctx, p: Port, o: Calls): Ctx {
    if !o.add then c
    else
      var added := c.(profiles := c.profiles + {p});
      if c.bm == 0 then
        if !o.eth then
          if o.del then added.(profiles := added.profiles - {p}) else added
        else
          added.(ethtype := ETH_P_SLOW, bm := c.bm | PortBit(p))
      else
        added.(bm := c.bm | PortBit(p))
  }

  function Disable(c: Ctx, p: Port, o: Calls): Ctx {
    if !o.del then c
    else
      var bm := c.bm & !PortBit(p);
      c.(profiles := c.profiles - {p}, bm := bm,
         ethtype := if bm == 0 && o.eth then ETH_P_NONE else c.ethtype)
  }

  function SetFilter(c: Ctx, p: Port, on: bool, o: Calls): Ctx {
    if on then Enable(c, p, o) else Disable(c, p, o)
  }

  predicate KnownState(state: int) {
    BR_STATE_DISABLED <= state <= BR_STATE_BLOCKING
  }

  /** `nss_dp_stp_state_set`: `o1` are the filter calls before the STP call,
      `o2` those of the rollback. */
  function StpSet(c: Ctx, p: Port, state: int, o1: Calls, stpOk: bool, o2: Calls): (r: (Ctx, int)) {
    if !KnownState(state) then (c, -EOPNOTSUPP)
    else
      var c1 := if state == BR_STATE_DISABLED then SetFilter(c, p, true, o1)
                else if state == BR_STATE_FORWARDING then SetFilter(c, p, false, o1)
                else c;
      if stpOk then (c1.(stp := c1.stp[p := state]), 0)
      else
        var c2 := if state == BR_STATE_DISABLED then SetFilter(c1, p, false, o2)
                  else if state == BR_STATE_FORWARDING then SetFilter(c1, p, true, o2)
                  else c1;
        (c2, -EINVAL)
  }

  datatype Event =
    | Stp(p: Port, state: int, o1: Calls, stpOk: bool, o2: Calls)
    | Probe                                                         // clears the bitmap and nothing else

  function Step(c: Ctx, e: Event): Ctx {
    match e
    case Stp(p, state, o1, stpOk, o2) => StpSet(c, p, state, o1, stpOk, o2).0
    case Probe => c.(bm := 0)
  }

  function Run(c: Ctx, es: seq<Event>): Ctx {
    if es == [] then c else Step(Run(c, es[..|es| - 1]), es[|es| - 1])
  }

  const START := Ctx(0, {}, ETH_P_NONE, map[])

  // ---------------------------------------------------------------- invariant

  /** While any port is in the bitmap the ethertype filter is set, and every
      port in the bitmap has its profile installed. */
  ghost predicate Inv(c: Ctx) {
    && (c.bm != 0 ==> c.ethtype == ETH_P_SLOW)
    && Covered(c.bm, c.profiles)
  }

  lemma BitSet(bm: bv8, p: Port, q: Port)
    ensures bm | PortBit(p) != 0
    ensures Member(bm | PortBit(p), q) <==> p == q || Member(bm, q)
  {
  }

  lemma BitCleared(bm: bv8, p: Port, q: Port)
    ensures Member(bm & !PortBit(p), q) <==> p != q && Member(bm, q)
  {
  }

  /** Every port in the bitmap has its profile. */
  ghost predicate Covered(bm: bv8, profiles: set<Port>) {
    forall p: Port :: Member(bm, p) ==> p in profiles
  }

  lemma CoveredWith(bm: bv8, profiles: set<Port>, p: Port)
    requires Covered(bm, profiles)
    ensures Covered(bm | PortBit(p), profiles + {p})
  {
    forall q: Port | Member(bm | PortBit(p), q) ensures q in profiles + {p} {
      BitSet(bm, p, q);
    }
  }

  lemma CoveredWithout(bm: bv8, profiles: set<Port>, p: Port)
    requires Covered(bm, profiles)
    ensures Covered(bm & !PortBit(p), profiles - {p})
  {
    forall q: Port | Member(bm & !PortBit(p), q) ensures q in profiles - {p} {
      BitCleared(bm, p, q);
    }
  }

  lemma NoMember(p: Port)
    ensures !Member(0, p)
  {
  }

  /** A bitmap that is not empty has a clear one as its part only if it lost bits. */
  lemma ClearedIsPart(bm: bv8, p: Port)
    ensures bm & !PortBit(p) != 0 ==> bm != 0
  {
  }

  lemma EnableKeeps(c: Ctx, p: Port, o: Calls)
    requires Inv(c)
    ensures Inv(Enable(c, p, o))
  {
    CoveredWith(c.bm, c.profiles, p);
    if c.bm == 0 {
      forall q: Port ensures !Member(c.bm, q) {
        NoMember(q);
      }
    }
  }

  lemma DisableKeeps(c: Ctx, p: Port, o: Calls)
    requires Inv(c)
    ensures Inv(Disable(c, p, o))
  {
    CoveredWithout(c.bm, c.profiles, p);
    ClearedIsPart(c.bm, p);
  }

  lemma SetFilterKeeps(c: Ctx, p: Port, on: bool, o: Calls)
    requires Inv(c)
    ensures Inv(SetFilter(c, p, on, o))
  {
    if on {
      EnableKeeps(c, p, o);
    } else {
      DisableKeeps(c, p, o);
    }
  }

  lemma StepKeeps(c: Ctx, e: Event)
    requires Inv(c)
    ensures Inv(Step(c, e))
  {
    match e
    case Stp(p, state, o1, stpOk, o2) =>
      SetFilterKeeps(c, p, state == BR_STATE_DISABLED, o1);
      SetFilterKeeps(SetFilter(c, p, state == BR_STATE_DISABLED, o1), p, state != BR_STATE_DISABLED, o2);
    case Probe =>
  }

  /** The invariant holds in every run, under any pattern of failing calls and
      across probe resets. */
  lemma {:induction false} EveryRunKeeps(es: seq<Event>)
    ensures Inv(Run(START, es))
  {
    if es != [] {
      EveryRunKeeps(es[..|es| - 1]);
      StepKeeps(Run(START, es[..|es| - 1]), es[|es| - 1]);
    }
  }

  // ----------------------------------------------------------------- rollback

  lemma BitAlgebra(bm: bv8, p: Port)
    ensures (bm | PortBit(p)) & !PortBit(p) == bm & !PortBit(p)
    ensures (bm & !PortBit(p)) | PortBit(p) == bm | PortBit(p)
    ensures bm & !PortBit(p) == bm <==> !Member(bm, p)
    ensures bm | PortBit(p) == bm <==> Member(bm, p)
  {
  }

  /** A failed request to disable a port, with all filter calls succeeding. */
  function FailedDisable(c: Ctx, p: Port): Ctx {
    StpSet(c, p, BR_STATE_DISABLED, ALL_OK, false, ALL_OK).0
  }

  /** A failed request to forward on a port, with all filter calls succeeding. */
  function FailedForward(c: Ctx, p: Port): Ctx {
    StpSet(c, p, BR_STATE_FORWARDING, ALL_OK, false, ALL_OK).0
  }

  /** The rollback of a failed disable restores bitmap, profiles and ethertype
      exactly when the port had neither bit nor profile and, in case no port was
      in the bitmap, the ethertype register was clear. */
  lemma DisableRollbackIff(c: Ctx, p: Port)
    ensures FailedDisable(c, p) == c <==>
            !Member(c.bm, p) && p !in c.profiles && (c.bm == 0 ==> c.ethtype == ETH_P_NONE)
  {
    BitAlgebra(c.bm, p);
    var c1 := Enable(c, p, ALL_OK);
    assert c1.bm == c.bm | PortBit(p);
    assert FailedDisable(c, p) == Disable(c1, p, ALL_OK);
    assert FailedDisable(c, p).profiles == c.profiles - {p};
    assert c.profiles - {p} == c.profiles <==> p !in c.profiles;
  }

  /** In a reachable state the rollback of a failed forward restores everything
      exactly when the port was in the bitmap. */
  lemma ForwardRollbackIff(c: Ctx, p: Port)
    requires Inv(c)
    ensures FailedForward(c, p) == c <==> Member(c.bm, p)
  {
    BitAlgebra(c.bm, p);
    var c1 := Disable(c, p, ALL_OK);
    assert FailedForward(c, p) == Enable(c1, p, ALL_OK);
    assert FailedForward(c, p).profiles == c.profiles + {p};
    if Member(c.bm, p) {
      assert c.bm != 0;
    }
  }

  /** All filter calls of the run succeed and no port is probed; STP calls may
      fail. */
  predicate Calm(es: seq<Event>) {
    forall k :: 0 <= k < |es| ==> es[k].Stp? && es[k].o1 == ALL_OK && es[k].o2 == ALL_OK
  }

  /** Bitmap, profiles and ethertype register tell the same. */
  ghost predicate InStep(c: Ctx) {
    && c.ethtype == (if c.bm == 0 then ETH_P_NONE else ETH_P_SLOW)
    && forall p: Port :: p in c.profiles <==> Member(c.bm, p)
  }

  lemma EnableInStep(c: Ctx, p: Port)
    requires InStep(c)
    ensures InStep(Enable(c, p, ALL_OK))
  {
    forall q: Port ensures q in c.profiles + {p} <==> Member(c.bm | PortBit(p), q) {
      BitSet(c.bm, p, q);
    }
    BitSet(c.bm, p, p);
  }

  lemma DisableInStep(c: Ctx, p: Port)
    requires InStep(c)
    ensures InStep(Disable(c, p, ALL_OK))
  {
    forall q: Port ensures q in c.profiles - {p} <==> Member(c.bm & !PortBit(p), q) {
      BitCleared(c.bm, p, q);
    }
    ClearedIsPart(c.bm, p);
  }

  lemma SetFilterInStep(c: Ctx, p: Port, on: bool)
    requires InStep(c)
    ensures InStep(SetFilter(c, p, on, ALL_OK))
  {
    if on {
      EnableInStep(c, p);
    } else {
      DisableInStep(c, p);
    }
  }

  lemma StepInStep(c: Ctx, e: Event)
    requires InStep(c) && e.Stp? && e.o1 == ALL_OK && e.o2 == ALL_OK
    ensures InStep(Step(c, e))
  {
    SetFilterInStep(c, e.p, e.state == BR_STATE_DISABLED);
    SetFilterInStep(SetFilter(c, e.p, e.state == BR_STATE_DISABLED, ALL_OK), e.p, e.state != BR_STATE_DISABLED);
  }

  lemma {:induction false} CalmRunInStep(es: seq<Event>)
    requires Calm(es)
    ensures InStep(Run(START, es))
  {
    if es == [] {
      forall p: Port ensures !Member(0, p) {
        NoMember(p);
      }
    } else {
      CalmRunInStep(es[..|es| - 1]);
      StepInStep(Run(START, es[..|es| - 1]), es[|es| - 1]);
    }
  }

  /** After a run without failing filter calls and probes a failed STP call
      restores everything exactly from the opposite position: a failed disable
      when the port's filter was off, a failed forward when it was on. */
  lemma CalmRunRollsBackIff(es: seq<Event>, p: Port)
    requires Calm(es)
    ensures var c := Run(START, es);
            && (FailedDisable(c, p) == c <==> !Member(c.bm, p))
            && (FailedForward(c, p) == c <==> Member(c.bm, p))
  {
    var c := Run(START, es);
    CalmRunInStep(es);
    EveryRunKeeps(es);
    DisableRollbackIff(c, p);
    ForwardRollbackIff(c, p);
  }

  // ---------------------------------------------------- what a run amounts to

  /** What the requests of a run ask of the filter of port `p`: the last request
      to disable it or to let it forward decides.  A disable turns the filter on
      if it succeeds and off if it fails, a forward the other way round. */
  predicate FilterOn(es: seq<Event>, p: Port) {
    if es == [] then false
    else
      var e := es[|es| - 1];
      if e.Stp? && e.p == p && e.state == 0 then e.stpOk
      else if e.Stp? && e.p == p && e.state == 3 then !e.stpOk
      else FilterOn(es[..|es| - 1], p)
  }

  lemma SetFilterMember(c: Ctx, p: Port, on: bool, q: Port)
    ensures Member(SetFilter(c, p, on, ALL_OK).bm, q) <==> if p == q then on else Member(c.bm, q)
  {
    if on {
      BitSet(c.bm, p, q);
    } else {
      BitCleared(c.bm, p, q);
    }
  }

  lemma CalmStepMember(c: Ctx, e: Event, q: Port)
    requires e.Stp? && e.o1 == ALL_OK && e.o2 == ALL_OK
    ensures Member(Step(c, e).bm, q) <==>
            if e.p == q && e.state == 0 then e.stpOk
            else if e.p == q && e.state == 3 then !e.stpOk
            else Member(c.bm, q)
  {
    var on := e.state == BR_STATE_DISABLED;
    SetFilterMember(c, e.p, on, q);
    SetFilterMember(SetFilter(c, e.p, on, ALL_OK), e.p, !on, q);
  }

  /** After a calm run the bitmap, the profiles and the ethertype register are what
      the requests asked for. */
  lemma {:induction false} CalmRunFilter(es: seq<Event>, p: Port)
    requires Calm(es)
    ensures var c := Run(START, es);
            && (Member(c.bm, p) <==> FilterOn(es, p))
            && (p in c.profiles <==> FilterOn(es, p))
            && (FilterOn(es, p) ==> c.ethtype == ETH_P_SLOW)
            && (c.bm == 0 ==> c.ethtype == ETH_P_NONE)
  {
    CalmRunInStep(es);
    if es == [] {
      NoMember(p);
    } else {
      CalmRunFilter(es[..|es| - 1], p);
      CalmStepMember(Run(START, es[..|es| - 1]), es[|es| - 1], p);
    }
    if Member(Run(START, es).bm, p) {
      NoMember(p);
    }
  }

  /** A forward that succeeds, with its filter calls succeeding, takes the port out
      of bitmap and profiles whatever the state before, touches no other port, and
      clears the register with the last port. */
  lemma ForwardRemoves(c: Ctx, p: Port, o2: Calls, q: Port)
    ensures var c' := StpSet(c, p, BR_STATE_FORWARDING, ALL_OK, true, o2).0;
            && (Member(c'.bm, q) <==> p != q && Member(c.bm, q))
            && (q in c'.profiles <==> p != q && q in c.profiles)
            && c'.ethtype == (if c'.bm == 0 then ETH_P_NONE else c.ethtype)
  {
    BitCleared(c.bm, p, q);
  }

  /** A disable that succeeds, with its filter calls succeeding, puts it in. */
  lemma DisableInstalls(c: Ctx, p: Port, o2: Calls, q: Port)
    ensures var c' := StpSet(c, p, BR_STATE_DISABLED, ALL_OK, true, o2).0;
            && (Member(c'.bm, q) <==> p == q || Member(c.bm, q))
            && (q in c'.profiles <==> p == q || q in c.profiles)
            && c'.ethtype == (if c.bm == 0 then ETH_P_SLOW else c.ethtype)
  {
    BitSet(c.bm, p, q);
  }

  /** When enabling puts the port into the bitmap, and what a failure leaves: the
      bitmap and the register as they were, and the profile only if it could not
      be taken back. */
  lemma EnableIff(c: Ctx, p: Port, o: Calls)
    requires !Member(c.bm, p)
    ensures var c' := Enable(c, p, o);
            && (Member(c'.bm, p) <==> o.add && (c.bm != 0 || o.eth))
            && (!Member(c'.bm, p) ==> c'.bm == c.bm && c'.ethtype == c.ethtype)
            && (!Member(c'.bm, p) && o.add ==> (p in c'.profiles <==> !o.del))
            && (!o.add ==> c' == c)
  {
    BitSet(c.bm, p, p);
  }

  /** Disabling takes the port out exactly when its profile could be removed. */
  lemma DisableIff(c: Ctx, p: Port, o: Calls)
    ensures var c' := Disable(c, p, o);
            && (o.del ==> !Member(c'.bm, p) && p !in c'.profiles)
            && (!o.del ==> c' == c)
            && (c'.ethtype != c.ethtype ==> c'.bm == 0 && o.eth && c'.ethtype == ETH_P_NONE)
            && (o.del && c'.bm == 0 && o.eth ==> c'.ethtype == ETH_P_NONE)
  {
    BitCleared(c.bm, p, p);
  }

  /** Bit number `p`, and no other. */
  lemma PortBitIs(p: Port)
    ensures PortBit(p) as nat == Power(p)
  {
  }

  function Power(p: nat): nat { if p == 0 then 1 else 2 * Power(p - 1) }

  /** A reachable state in which a failed disable does not roll back although
      the port's filter was off before: port 1 was disabled, then another port
      was probed, which cleared the bitmap but not the ethertype register.  The
      rollback for port 2 clears the register under port 1's installed
      profile. */
  lemma RollbackLosesEthertype()
    ensures var c := Run(START, [Stp(1, BR_STATE_DISABLED, ALL_OK, true, ALL_OK), Probe]);
            && !Member(c.bm, 2) && 2 !in c.profiles && 1 in c.profiles
            && c.ethtype == ETH_P_SLOW
            && FailedDisable(c, 2).ethtype == ETH_P_NONE
            && 1 in FailedDisable(c, 2).profiles
  {
    var e1, e2 := Stp(1, BR_STATE_DISABLED, ALL_OK, true, ALL_OK), Probe;
    assert [e1, e2][..1] == [e1];
    assert [e1][..0] == [];
    var c1 := Step(START, e1);
    assert Run(START, [e1]) == c1;
    var c := Run(START, [e1, e2]);
    assert c == Step(c1, e2);
    assert c.bm == 0 && c.profiles == {1};
    assert FailedDisable(c, 2) == Disable(Enable(c, 2, ALL_OK), 2, ALL_OK);
    BitAlgebra(0, 2);
  }

  // ------------------------------------------------------------ driver object

  /** The shared switch context, updated in place. */
  class SwitchCtx {
    var bm: bv8
    var profiles: set<Port>
    var ethtype: nat
    var stp: map<Port, int>

    function View(): Ctx
      reads this
    {
      Ctx(bm, profiles, ethtype, stp)
    }

    constructor ()
      ensures View() == START
    {
      bm, profiles, ethtype, stp := 0, {}, ETH_P_NONE, map[];
    }

    /** Completion of a probe. */
    method Probed()
      modifies this
      ensures View() == Step(old(View()), Probe)
    {
      bm := 0;
    }

    /** The enabling half of `nss_dp_set_slow_proto_filter`. */
    method EnableFilter(p: Port, o: Calls)
      modifies this
      ensures View() == Enable(old(View()), p, o)
    {
      if !o.add {
        return;
      }
      profiles := profiles + {p};
      if bm == 0 {
        if !o.eth {
          if o.del {
            profiles := profiles - {p};
          }
          return;
        }
        ethtype := ETH_P_SLOW;
      }
      var bit := PortBit(p);
      bm := bm | bit;
    }

    /** The disabling half. */
    method DisableFilter(p: Port, o: Calls)
      modifies this
      ensures View() == Disable(old(View()), p, o)
    {
      if !o.del {
        return;
      }
      profiles := profiles - {p};
      var bit := PortBit(p);
      bm := bm & !bit;
      if bm == 0 {
        if o.eth {
          ethtype := ETH_P_NONE;
        }
      }
    }

    /** `nss_dp_set_slow_proto_filter`. */
    method SetSlowProtoFilter(p: Port, on: bool, o: Calls)
      modifies this
      ensures View() == SetFilter(old(View()), p, on, o)
    {
      if on {
        EnableFilter(p, o);
      } else {
        DisableFilter(p, o);
      }
    }

    /** `nss_dp_stp_state_set`. */
    method StpStateSet(p: Port, state: int, o1: Calls, stpOk: bool, o2: Calls) returns (ret: int)
      modifies this
      ensures View() == Step(old(View()), Stp(p, state, o1, stpOk, o2))
      ensures ret == if !(0 <= state <= 4) then -95 else if stpOk then 0 else -22
      ensures stp == if ret == 0 then old(stp)[p := state] else old(stp)
      ensures old(Inv(View())) ==> Inv(View())
    {
      ghost var c := View();
      if Inv(c) {
        StepKeeps(c, Stp(p, state, o1, stpOk, o2));
      }
      if !KnownState(state) {
        return -EOPNOTSUPP;
      }
      if state == BR_STATE_DISABLED {
        SetSlowProtoFilter(p, true, o1);
      } else if state == BR_STATE_FORWARDING {
        SetSlowProtoFilter(p, false, o1);
      }
      if !stpOk {
        if state == BR_STATE_DISABLED {
          SetSlowProtoFilter(p, false, o2);
        } else if state == BR_STATE_FORWARDING {
          SetSlowProtoFilter(p, true, o2);
        }
        return -EINVAL;
      }
      stp := stp[p := state];
      return 0;
    }
  }
}

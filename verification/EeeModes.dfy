/** Translation of energy-efficient-ethernet link modes between the ethtool
    bit masks and the switch (FAL) bit masks, done one lowest set bit at a time. */
module EeeModes {
  import opened Wrappers

  /** The link modes that have a name on both sides. */
  datatype Mode = M10 | M100 | M1000 | M2500 | M10000

  /** SUPPORTED_* and ADVERTISED_* share these bits. */
  function Eth(q: Mode): bv32 {
    match q
    case M10 => 0x0002
    case M100 => 0x0008
    case M1000 => 0x0020
    case M2500 => 0x8000
    case M10000 => 0x1000
  }

  const KNOWN: bv32 := 0x902a

  /** The FAL_PHY_EEE_* constants; 5000BASE_T has no ethtool name. */
  datatype Fal = Fal(m10: bv32, m100: bv32, m1000: bv32, m2500: bv32, m5000: bv32, m10000: bv32)

  function FalOf(f: Fal, q: Mode): bv32 {
    match q
    case M10 => f.m10
    case M100 => f.m100
    case M1000 => f.m1000
    case M2500 => f.m2500
    case M10000 => f.m10000
  }

  predicate OneBit(b: bv32) { b != 0 && b & (b - 1) == 0 }

  predicate Has(m: bv32, b: bv32) { m & b != 0 }

  /** Single bits, no two alike. */
  ghost predicate FalOk(f: Fal) {
    && AllDiffer(f.m10, f.m100, f.m1000, f.m2500, f.m5000, f.m10000)
    && forall q :: OneBit(FalOf(f, q))
  }

  predicate AllDiffer<T(==)>(a: T, b: T, c: T, d: T, e: T, g: T) {
    && a != b && a != c && a != d && a != e && a != g
    && b != c && b != d && b != e && b != g
    && c != d && c != e && c != g
    && d != e && d != g && e != g
  }

  /** `1 << (ffs(x) - 1)`: the lowest set bit. */
  method LowestSet(x: bv32) returns (b: bv32)
    requires x != 0
    ensures OneBit(b) && x & b == b && x & (b - 1) == 0
  {
    LowestBit(x);
    b := x & (!x + 1);
  }

  lemma LowestBit(x: bv32)
    requires x != 0
    ensures var b := x & (!x + 1); b != 0 && b & (b - 1) == 0 && x & b == b && x & (b - 1) == 0
  {
  }

  lemma ClearShrinks(x: bv32, b: bv32)
    requires b != 0 && x & b == b
    ensures x & !b < x
  {
  }

  /** Whether a mask has bit `c` after its bit `b` is taken out. */
  lemma TakeBit(x: bv32, b: bv32, c: bv32)
    requires OneBit(b) && OneBit(c) && x & b == b
    ensures Has(x, c) <==> b == c || Has(x & !b, c)
  {
  }

  lemma OrSpreads(x: bv32, y: bv32, c: bv32)
    ensures (x | y) & c == (x & c) | (y & c)
  {
  }

  lemma OrIsZero(x: bv32, y: bv32)
    ensures x | y == 0 <==> x == 0 && y == 0
  {
  }

  lemma HasOr(x: bv32, y: bv32, c: bv32)
    ensures Has(x | y, c) <==> Has(x, c) || Has(y, c)
  {
    OrSpreads(x, y, c);
    OrIsZero(x & c, y & c);
  }

  // ------------------------------------------------------------ FAL to ethtool

  /** The cases of the switch, in order: the fifth and unlisted values stand for
      no mode. */
  function Select<T(==)>(a: T, b: T, c: T, d: T, e: T, g: T, x: T): Option<Mode> {
    if x == a then Some(M10)
    else if x == b then Some(M100)
    else if x == c then Some(M1000)
    else if x == d then Some(M2500)
    else if x == e then None
    else if x == g then Some(M10000)
    else None
  }

  lemma SelectIff<T>(a: T, b: T, c: T, d: T, e: T, g: T, x: T)
    requires AllDiffer(a, b, c, d, e, g)
    ensures Select(a, b, c, d, e, g, x) == Some(M10) <==> x == a
    ensures Select(a, b, c, d, e, g, x) == Some(M100) <==> x == b
    ensures Select(a, b, c, d, e, g, x) == Some(M1000) <==> x == c
    ensures Select(a, b, c, d, e, g, x) == Some(M2500) <==> x == d
    ensures Select(a, b, c, d, e, g, x) == Some(M10000) <==> x == g
  {
  }

  /** The mode a FAL bit stands for; 5000BASE_T and unknown bits stand for none. */
  function FalMode(f: Fal, b: bv32): Option<Mode> {
    Select(f.m10, f.m100, f.m1000, f.m2500, f.m5000, f.m10000, b)
  }

  /** One case of the switch: the bits it adds. */
  function ToEthtool(f: Fal, b: bv32): bv32 {
    match FalMode(f, b)
    case Some(q) => Eth(q)
    case None => 0
  }

  lemma FalModeIff(f: Fal, b: bv32, q: Mode)
    requires AllDiffer(f.m10, f.m100, f.m1000, f.m2500, f.m5000, f.m10000)
    ensures FalMode(f, b) == Some(q) <==> b == FalOf(f, q)
  {
    SelectIff(f.m10, f.m100, f.m1000, f.m2500, f.m5000, f.m10000, b);
    match q
    case M10 => assert FalOf(f, q) == f.m10;
    case M100 => assert FalOf(f, q) == f.m100;
    case M1000 => assert FalOf(f, q) == f.m1000;
    case M2500 => assert FalOf(f, q) == f.m2500;
    case M10000 => assert FalOf(f, q) == f.m10000;
  }

  /** The switch, value by value: each FAL constant and the SUPPORTED_* bit it
      becomes. */
  lemma FalTable(f: Fal)
    requires AllDiffer(f.m10, f.m100, f.m1000, f.m2500, f.m5000, f.m10000)
    ensures ToEthtool(f, f.m10) == 0x0002 && ToEthtool(f, f.m100) == 0x0008 && ToEthtool(f, f.m1000) == 0x0020
    ensures ToEthtool(f, f.m2500) == 0x8000 && ToEthtool(f, f.m5000) == 0 && ToEthtool(f, f.m10000) == 0x1000
  {
  }

  /** The other switch: each ADVERTISED_* bit and the FAL constant it becomes. */
  lemma EthTable(f: Fal)
    ensures ToMode(0x0002).Some? && FalOf(f, ToMode(0x0002).value) == f.m10
    ensures ToMode(0x0008).Some? && FalOf(f, ToMode(0x0008).value) == f.m100
    ensures ToMode(0x0020).Some? && FalOf(f, ToMode(0x0020).value) == f.m1000
    ensures ToMode(0x8000).Some? && FalOf(f, ToMode(0x8000).value) == f.m2500
    ensures ToMode(0x1000).Some? && FalOf(f, ToMode(0x1000).value) == f.m10000
  {
  }

  lemma EthHas(p: Mode, q: Mode)
    ensures Has(Eth(p), Eth(q)) <==> p == q
  {
  }

  lemma CaseHits(f: Fal, b: bv32, q: Mode)
    requires FalOk(f)
    ensures Has(ToEthtool(f, b), Eth(q)) <==> b == FalOf(f, q)
  {
    FalModeIff(f, b, q);
    match FalMode(f, b)
    case Some(p) => EthHas(p, q);
    case None => assert ToEthtool(f, b) == 0;
  }

  /** `to` is `to0` with the translation of the mask `from0` added. */
  ghost predicate Translates(f: Fal, to0: bv32, from0: bv32, to: bv32) {
    && (forall q :: Has(to, Eth(q)) <==> Has(to0, Eth(q)) || Has(from0, FalOf(f, q)))
    && to & !KNOWN == to0 & !KNOWN
  }

  lemma CaseKnown(f: Fal, b: bv32, to: bv32)
    ensures (to | ToEthtool(f, b)) & !KNOWN == to & !KNOWN
  {
  }

  /** One turn moves bit `b` across and disturbs nothing else. */
  lemma TurnMoves(f: Fal, to: bv32, from: bv32, b: bv32, q: Mode)
    requires FalOk(f) && OneBit(b) && from & b == b
    ensures Has(to, Eth(q)) || Has(from, FalOf(f, q))
        <==> Has(to | ToEthtool(f, b), Eth(q)) || Has(from & !b, FalOf(f, q))
  {
    HasOr(to, ToEthtool(f, b), Eth(q));
    CaseHits(f, b, q);
    TakeBit(from, b, FalOf(f, q));
  }

  lemma TurnTranslates(f: Fal, to: bv32, from: bv32, b: bv32, r: bv32)
    requires FalOk(f) && OneBit(b) && from & b == b
    requires Translates(f, to | ToEthtool(f, b), from & !b, r)
    ensures Translates(f, to, from, r)
  {
    CaseKnown(f, b, to);
    forall q ensures Has(r, Eth(q)) <==> Has(to, Eth(q)) || Has(from, FalOf(f, q)) {
      TurnMoves(f, to, from, b, q);
    }
  }

  lemma NothingLeft(f: Fal, to: bv32)
    ensures Translates(f, to, 0, to)
  {
  }

  /** `nss_dp_fal_to_ethtool_linkmode_xlate`; both masks are updated in place. */
  method FalToEthtool(f: Fal, to0: bv32, from0: bv32) returns (to: bv32, from: bv32)
    requires FalOk(f)
    ensures Translates(f, to0, from0, to)
    ensures from == 0
  {
    to, from := to0, from0;
    while from != 0
      invariant forall r :: Translates(f, to, from, r) ==> Translates(f, to0, from0, r)
      decreases from
    {
      var b := LowestSet(from);
      ClearShrinks(from, b);
      forall r | Translates(f, to | ToEthtool(f, b), from & !b, r) ensures Translates(f, to, from, r) {
        TurnTranslates(f, to, from, b, r);
      }
      to := to | ToEthtool(f, b);
      from := from & !b;
    }
    NothingLeft(f, to);
  }

  // ------------------------------------------------------------ ethtool to FAL

  /** One case of the switch in `nss_dp_set_eee`; `None` is the default case. */
  function ToMode(b: bv32): (q: Option<Mode>)
    ensures q.Some? ==> Eth(q.value) == b
  {
    if b == 0x0002 then Some(M10)
    else if b == 0x0008 then Some(M100)
    else if b == 0x0020 then Some(M1000)
    else if b == 0x8000 then Some(M2500)
    else if b == 0x1000 then Some(M10000)
    else None
  }

  /** Every advertised bit is a known mode, and the switch is capable of it. */
  ghost predicate Supported(f: Fal, cap: bv32, adv: bv32) {
    && adv & !KNOWN == 0
    && (forall q :: Has(adv, Eth(q)) ==> Has(cap, FalOf(f, q)))
  }

  /** `c` is the FAL bit of a mode in `adv`. */
  ghost predicate Picks(f: Fal, adv: bv32, c: bv32) {
    exists q :: FalOf(f, q) == c && Has(adv, Eth(q))
  }

  /** The single bits of `ad` are those of `ad0` and the FAL bits of the modes in `adv`. */
  ghost predicate Advertises(f: Fal, ad0: bv32, adv: bv32, ad: bv32) {
    forall c :: OneBit(c) ==> (Has(ad, c) <==> Has(ad0, c) || Picks(f, adv, c))
  }

  /** Whatever was dropped from `all` to get `left` is a mode the switch is capable of. */
  ghost predicate Dropped(f: Fal, cap: bv32, all: bv32, left: bv32) {
    forall b :: OneBit(b) && Has(all, b) && !Has(left, b) ==> exists q :: Eth(q) == b && Has(cap, FalOf(f, q))
  }

  lemma OneBitHas(b: bv32, c: bv32)
    requires OneBit(b) && OneBit(c)
    ensures Has(b, c) <==> b == c
  {
  }

  lemma EthDistinct(p: Mode, q: Mode)
    ensures OneBit(Eth(p)) && Eth(p) & !KNOWN == 0
    ensures Eth(p) == Eth(q) <==> p == q
  {
  }

  lemma UnknownBit(b: bv32)
    requires OneBit(b) && ToMode(b) == None
    ensures b & !KNOWN == b
  {
  }

  lemma TakeMode(adv: bv32, q: Mode, p: Mode)
    requires adv & Eth(q) == Eth(q)
    ensures Has(adv, Eth(p)) <==> p == q || Has(adv & !Eth(q), Eth(p))
  {
    EthDistinct(p, q);
    EthDistinct(q, p);
    TakeBit(adv, Eth(q), Eth(p));
  }

  lemma PicksStep(f: Fal, adv: bv32, q: Mode, c: bv32)
    requires adv & Eth(q) == Eth(q)
    ensures Picks(f, adv, c) <==> c == FalOf(f, q) || Picks(f, adv & !Eth(q), c)
  {
    forall p ensures Has(adv, Eth(p)) <==> p == q || Has(adv & !Eth(q), Eth(p)) {
      TakeMode(adv, q, p);
    }
  }

  lemma AdvertisesBit(f: Fal, ad0: bv32, adv: bv32, q: Mode, c: bv32)
    requires OneBit(FalOf(f, q)) && OneBit(c) && adv & Eth(q) == Eth(q)
    ensures Has(ad0, c) || Picks(f, adv, c)
       <==> Has(ad0 | FalOf(f, q), c) || Picks(f, adv & !Eth(q), c)
  {
    HasOr(ad0, FalOf(f, q), c);
    OneBitHas(FalOf(f, q), c);
    PicksStep(f, adv, q, c);
  }

  lemma AdvertisesStep(f: Fal, ad0: bv32, adv: bv32, q: Mode, ad: bv32)
    requires FalOk(f) && adv & Eth(q) == Eth(q)
    requires Advertises(f, ad0 | FalOf(f, q), adv & !Eth(q), ad)
    ensures Advertises(f, ad0, adv, ad)
  {
    forall c | OneBit(c) ensures Has(ad, c) <==> Has(ad0, c) || Picks(f, adv, c) {
      AdvertisesBit(f, ad0, adv, q, c);
    }
  }

  lemma AdvertisesTurn(f: Fal, ad0: bv32, adv: bv32, q: Mode)
    requires FalOk(f) && adv & Eth(q) == Eth(q)
    ensures forall ad :: Advertises(f, ad0 | FalOf(f, q), adv & !Eth(q), ad) ==> Advertises(f, ad0, adv, ad)
  {
    forall ad | Advertises(f, ad0 | FalOf(f, q), adv & !Eth(q), ad) ensures Advertises(f, ad0, adv, ad) {
      AdvertisesStep(f, ad0, adv, q, ad);
    }
  }

  /** A supported bit changes nothing about the rest. */
  lemma SupportedStep(f: Fal, cap: bv32, adv: bv32, q: Mode)
    requires adv & Eth(q) == Eth(q) && Has(cap, FalOf(f, q))
    ensures Supported(f, cap, adv) <==> Supported(f, cap, adv & !Eth(q))
  {
    OutsideKept(adv, q);
    forall p ensures Has(adv, Eth(p)) <==> p == q || Has(adv & !Eth(q), Eth(p)) {
      TakeMode(adv, q, p);
    }
  }

  lemma OutsideKept(adv: bv32, q: Mode)
    ensures (adv & !Eth(q)) & !KNOWN == adv & !KNOWN
  {
  }

  lemma DroppedBit(left: bv32, q: Mode, b: bv32)
    requires OneBit(b) && left & Eth(q) == Eth(q)
    ensures Has(left, b) <==> b == Eth(q) || Has(left & !Eth(q), b)
  {
    EthDistinct(q, q);
    TakeBit(left, Eth(q), b);
  }

  lemma DroppedStep(f: Fal, cap: bv32, all: bv32, left: bv32, q: Mode)
    requires Dropped(f, cap, all, left) && left & Eth(q) == Eth(q) && Has(cap, FalOf(f, q))
    ensures Dropped(f, cap, all, left & !Eth(q))
  {
    forall b | OneBit(b) ensures Has(left, b) <==> b == Eth(q) || Has(left & !Eth(q), b) {
      DroppedBit(left, q, b);
    }
  }

  /** One unsupported bit is enough. */
  lemma UnsupportedBit(f: Fal, cap: bv32, adv: bv32, b: bv32)
    requires OneBit(b) && adv & b == b
    requires match ToMode(b) case Some(q) => !Has(cap, FalOf(f, q)) case None => true
    ensures !Supported(f, cap, adv)
  {
    if ToMode(b) == None {
      UnknownBit(b);
      OutsideStays(adv, b);
    }
  }

  lemma OutsideStays(adv: bv32, b: bv32)
    requires b != 0 && adv & b == b && b & !KNOWN == b
    ensures adv & !KNOWN != 0
  {
  }

  // -------------------------------------------------------- get and set, whole

  /** `fal_port_eee_cfg_t` */
  datatype FalCfg = FalCfg(enable: bool, capability: bv32, advertisement: bv32, linkPartner: bv32,
                           lpiTx: bool, lpiTimer: bv32, status: bool)

  /** `struct ethtool_eee` */
  datatype Eee = Eee(supported: bv32, advertised: bv32, lpAdvertised: bv32, enabled: bool, active: bool,
                     txLpi: bool, txTimer: bv32)

  const EIO: int := 5

  /** `nss_dp_get_eee`; `cfg` is what the FAL call delivers, or `None` when it fails. */
  method GetEee(f: Fal, cfg: Option<FalCfg>, eee0: Eee) returns (err: int, eee: Eee)
    requires FalOk(f)
    ensures cfg == None ==> err == -EIO && eee == eee0
    ensures cfg.Some? ==>
      && err == 0
      && Translates(f, eee0.supported, cfg.value.capability, eee.supported)
      && Translates(f, eee0.advertised, cfg.value.advertisement, eee.advertised)
      && Translates(f, eee0.lpAdvertised, cfg.value.linkPartner, eee.lpAdvertised)
      && eee.enabled == cfg.value.enable && eee.active == cfg.value.status
      && eee.txLpi == cfg.value.lpiTx && eee.txTimer == cfg.value.lpiTimer
  {
    if cfg == None {
      return -EIO, eee0;
    }
    var s, _ := FalToEthtool(f, eee0.supported, cfg.value.capability);
    var a, _ := FalToEthtool(f, eee0.advertised, cfg.value.advertisement);
    var l, _ := FalToEthtool(f, eee0.lpAdvertised, cfg.value.linkPartner);
    err := 0;
    eee := Eee(s, a, l, cfg.value.enable, cfg.value.status, cfg.value.lpiTx, cfg.value.lpiTimer);
  }

  lemma Starts(f: Fal, cap: bv32, all: bv32)
    ensures Dropped(f, cap, all, all)
  {
  }

  lemma Ends(f: Fal, cap: bv32, ad: bv32)
    ensures Supported(f, cap, 0) && Advertises(f, ad, 0, ad)
  {
  }

  lemma ModeShrinks(left: bv32, q: Mode)
    requires left & Eth(q) == Eth(q)
    ensures left & !Eth(q) < left
  {
    ClearShrinks(left, Eth(q));
  }

  /** One turn of the loop of `nss_dp_set_eee`, for bit `b`; `q` is the mode it moved. */
  method AdvertiseBit(f: Fal, cap: bv32, left0: bv32, ad0: bv32, b: bv32)
    returns (ok: bool, left: bv32, ad: bv32, ghost q: Mode)
    requires OneBit(b) && left0 & b == b
    ensures ok ==> Eth(q) == b && left0 & Eth(q) == Eth(q) && Has(cap, FalOf(f, q))
    ensures ok ==> left == left0 & !Eth(q)
    ensures ok ==> ad == ad0 | FalOf(f, q)
    ensures !ok ==> left == left0 && !Supported(f, cap, left0)
  {
    var pick := ToMode(b);
    if pick == None || !Has(cap, FalOf(f, pick.value)) {
      UnsupportedBit(f, cap, left0, b);
      return false, left0, ad0, M10;
    }
    return true, left0 & !b, ad0 | FalOf(f, pick.value), pick.value;
  }

  /** The loop of `nss_dp_set_eee`. */
  method Advertise(f: Fal, cap: bv32, all: bv32) returns (ok: bool, left: bv32, ad: bv32)
    requires FalOk(f)
    ensures ok <==> Supported(f, cap, all)
    ensures ok ==> left == 0 && Advertises(f, 0, all, ad)
    ensures !ok ==> left != 0 && Dropped(f, cap, all, left)
  {
    ok, left, ad := true, all, 0;
    Starts(f, cap, all);
    while left != 0
      invariant Dropped(f, cap, all, left)
      invariant Supported(f, cap, all) <==> Supported(f, cap, left)
      invariant forall r :: Advertises(f, ad, left, r) ==> Advertises(f, 0, all, r)
      decreases left
    {
      ghost var left0, ad0 := left, ad;
      ghost var q;
      var b := LowestSet(left);
      ok, left, ad, q := AdvertiseBit(f, cap, left, ad, b);
      if !ok {
        return;
      }
      ModeShrinks(left0, q);
      DroppedStep(f, cap, all, left0, q);
      SupportedStep(f, cap, left0, q);
      AdvertisesTurn(f, ad0, left0, q);
    }
    ok := true;
    Ends(f, cap, ad);
  }

  /** `nss_dp_set_eee`. `cur` is what the FAL get call delivers (`None` when it fails), `setOk`
      whether the FAL set call succeeds; `sent` is what was handed to that call, if it was made,
      and `left` the mask the caller's record is left with. */
  method SetEee(f: Fal, cur: Option<FalCfg>, eee: Eee, setOk: bool)
    returns (err: int, sent: Option<FalCfg>, left: bv32)
    requires FalOk(f)
    ensures err == 0 || err == -EIO
    ensures err == 0 <==> cur.Some? && setOk && Supported(f, cur.value.capability, eee.advertised)
    ensures sent.Some? <==> cur.Some? && Supported(f, cur.value.capability, eee.advertised)
    ensures sent.Some? ==>
      && Advertises(f, 0, eee.advertised, sent.value.advertisement)
      && sent.value == FalCfg(eee.enabled, 0, sent.value.advertisement, 0, eee.txLpi, eee.txTimer, false)
      && left == 0
    ensures sent == None && cur.Some? ==> left != 0 && Dropped(f, cur.value.capability, eee.advertised, left)
    ensures cur == None ==> left == eee.advertised
  {
    if cur == None {
      return -EIO, None, eee.advertised;
    }
    var ok, rest, ad := Advertise(f, cur.value.capability, eee.advertised);
    if !ok {
      return -EIO, None, rest;
    }
    sent := Some(FalCfg(eee.enabled, 0, ad, 0, eee.txLpi, eee.txTimer, false));
    left := rest;
    err := if setOk then 0 else -EIO;
  }

  // ------------------------------------------------------ the two sides together

  /** A mask without unknown bits is made of its modes. */
  lemma MaskOfModes(x: bv32)
    requires x & !KNOWN == 0
    ensures x == (x & Eth(M10)) | (x & Eth(M100)) | (x & Eth(M1000)) | (x & Eth(M2500)) | (x & Eth(M10000))
  {
  }

  lemma ModeOrNothing(x: bv32, q: Mode)
    ensures x & Eth(q) == if Has(x, Eth(q)) then Eth(q) else 0
  {
  }

  lemma SameMask(x: bv32, y: bv32)
    requires x & !KNOWN == 0 && y & !KNOWN == 0
    requires forall q :: Has(x, Eth(q)) <==> Has(y, Eth(q))
    ensures x == y
  {
    forall q ensures x & Eth(q) == y & Eth(q) {
      ModeOrNothing(x, q);
      ModeOrNothing(y, q);
    }
    MaskOfModes(x);
    MaskOfModes(y);
  }

  /** What was set, read back into a cleared record, is the mask that was asked for. */
  lemma SetThenGet(f: Fal, cap: bv32, adv: bv32, ad: bv32, back: bv32)
    requires FalOk(f) && Supported(f, cap, adv)
    requires Advertises(f, 0, adv, ad) && Translates(f, 0, ad, back)
    ensures back == adv
  {
    forall q ensures Has(back, Eth(q)) <==> Has(adv, Eth(q)) {
      assert OneBit(FalOf(f, q));
      assert Has(ad, FalOf(f, q)) <==> Picks(f, adv, FalOf(f, q));
    }
    SameMask(back, adv);
  }

  lemma ModeWithin(x: bv32, y: bv32, q: Mode)
    ensures (x & Eth(q)) & !y == 0 <==> (Has(x, Eth(q)) ==> Has(y, Eth(q)))
  {
  }

  lemma SubmaskSplits(x: bv32, y: bv32)
    requires y & !KNOWN == 0
    ensures x & !y == 0 <==>
      && x & !KNOWN == 0
      && (x & Eth(M10)) & !y == 0 && (x & Eth(M100)) & !y == 0 && (x & Eth(M1000)) & !y == 0
      && (x & Eth(M2500)) & !y == 0 && (x & Eth(M10000)) & !y == 0
  {
  }

  /** Being a submask, mode by mode. */
  lemma SubmaskOfModes(x: bv32, y: bv32)
    requires y & !KNOWN == 0
    ensures x & !y == 0 <==> x & !KNOWN == 0 && forall q :: Has(x, Eth(q)) ==> Has(y, Eth(q))
  {
    forall q ensures (x & Eth(q)) & !y == 0 <==> (Has(x, Eth(q)) ==> Has(y, Eth(q))) {
      ModeWithin(x, y, q);
    }
    SubmaskSplits(x, y);
    assert (forall q :: Has(x, Eth(q)) ==> Has(y, Eth(q))) <==> forall q :: (x & Eth(q)) & !y == 0;
  }

  /** The masks that can be set are the submasks of the one that is reported as supported. */
  lemma SettableIffReported(f: Fal, cap: bv32, sup: bv32, adv: bv32)
    requires FalOk(f) && Translates(f, 0, cap, sup)
    ensures Supported(f, cap, adv) <==> adv & !sup == 0
  {
    SubmaskOfModes(adv, sup);
  }

  /** The switch is never told to advertise what it is not capable of. */
  lemma AdvertisesWithin(f: Fal, cap: bv32, adv: bv32, ad: bv32, c: bv32)
    requires FalOk(f) && Supported(f, cap, adv) && Advertises(f, 0, adv, ad) && OneBit(c)
    ensures Has(ad, c) ==> Has(cap, c)
  {
  }
}

/** Ring-to-ring mapping of the EDMA: the software pointers set up for the
    receive rings, and the 3-bit fields packed into the RXDESC2FILL and
    TXDESC2CMPL map registers, ten rings to a register. */
module EdmaMap {

  const MAX_RXDESC_RINGS: nat := 16
  const MAX_TXDESC_RINGS: nat := 24
  const RINGS_PER_REG: nat := 10
  const FIELD_MASK: bv32 := 7

  /** `id & 7`, the part of a ring id a field can hold: the id less all its
      eights. */
  function IdBits(id: nat): bv3 {
    if id >= 8 then IdBits(id - 8)
    else if id == 0 then 0 else if id == 1 then 1 else if id == 2 then 2 else if id == 3 then 3
    else if id == 4 then 4 else if id == 5 then 5 else if id == 6 then 6 else 7
  }

  /** The ring id the hardware takes a field for. */
  function IdOf(b: bv3): nat {
    if b == 0 then 0 else if b == 1 then 1 else if b == 2 then 2 else if b == 3 then 3
    else if b == 4 then 4 else if b == 5 then 5 else if b == 6 then 6 else 7
  }

  lemma {:induction false} IdBitsIsModulo(id: nat)
    ensures IdOf(IdBits(id)) == id % 8
  {
    if id >= 8 {
      IdBitsIsModulo(id - 8);
    }
  }

  /** The field reads as the id modulo 8, which is the id itself exactly when the
      id is below 8. */
  predicate Names(b: bv3, id: nat) {
    IdOf(b) == id % 8 && (IdOf(b) == id <==> id < 8)
  }

  lemma FieldNamesIff(id: nat)
    ensures Names(IdBits(id), id)
  {
    IdBitsIsModulo(id);
  }

  // ----------------------------------------------------- fields of a register

  /** `3 * k`, the position of field `k` in its register. */
  function Shift(k: nat): bv6
    requires k < RINGS_PER_REG
  {
    if k == 0 then 0 else if k == 1 then 3 else if k == 2 then 6 else if k == 3 then 9
    else if k == 4 then 12 else if k == 5 then 15 else if k == 6 then 18 else if k == 7 then 21
    else if k == 8 then 24 else 27
  }

  /** The field of ring `i` is the three bits from `3 * (i % 10)` on in register
      `i / 10`. */
  lemma FieldPlace(i: nat)
    requires i < 30
    ensures RegOf(i) == i / 10 && Shift(i % RINGS_PER_REG) as nat == 3 * (i % 10)
  {
  }

  lemma ShiftBound(k: nat)
    requires k < RINGS_PER_REG
    ensures Shift(k) <= 27
  {
  }

  lemma ShiftsApart(k: nat, l: nat)
    requires k < l < RINGS_PER_REG
    ensures Shift(k) + 3 <= Shift(l)
  {
  }

  function FieldAt(reg: bv32, a: bv6): bv3
    requires a <= 27
  {
    Masked(reg >> a);
    ((reg >> a) & FIELD_MASK) as bv3
  }

  lemma Masked(w: bv32)
    ensures w & FIELD_MASK <= 7
  {
  }

  function OrAt(reg: bv32, v: bv3, a: bv6): bv32
    requires a <= 27
  {
    reg | ((v as bv32) << a)
  }

  lemma FieldElsewhere(v: bv3, a: bv6, b: bv6)
    requires a <= 27 && b <= 27 && (a + 3 <= b || b + 3 <= a)
    ensures (((v as bv32) << a) >> b) & FIELD_MASK == 0
  {
  }

  lemma OrSplits(reg: bv32, w: bv32, b: bv6)
    requires b <= 27 && (w >> b) & FIELD_MASK == 0
    ensures ((reg | w) >> b) & FIELD_MASK == (reg >> b) & FIELD_MASK
  {
  }

  /** ORing a value in leaves every other field. */
  lemma OrKeepsField(reg: bv32, v: bv3, a: bv6, b: bv6)
    requires a <= 27 && b <= 27 && (a + 3 <= b || b + 3 <= a)
    ensures FieldAt(OrAt(reg, v, a), b) == FieldAt(reg, b)
  {
    FieldElsewhere(v, a, b);
    OrSplits(reg, (v as bv32) << a, b);
  }

  /** ORing a value into an empty field sets it. */
  lemma OrSetsField(reg: bv32, v: bv3, a: bv6)
    requires a <= 27 && FieldAt(reg, a) == 0
    ensures FieldAt(OrAt(reg, v, a), a) == v
  {
  }

  lemma OrField(reg: bv32, v: bv3, k: nat, l: nat)
    requires k < RINGS_PER_REG && l < RINGS_PER_REG
    requires Shift(k) <= 27 && Shift(l) <= 27 && FieldAt(reg, Shift(k)) == 0
    ensures FieldAt(OrAt(reg, v, Shift(k)), Shift(l)) ==
            if k == l then v else FieldAt(reg, Shift(l))
  {
    if k == l {
      OrSetsField(reg, v, Shift(k));
    } else {
      if k < l {
        ShiftsApart(k, l);
      } else {
        ShiftsApart(l, k);
      }
      OrKeepsField(reg, v, Shift(k), Shift(l));
    }
  }

  // --------------------------------------------------------- register banks

  /** The register of its bank that holds the field of ring `i`. */
  function RegOf(i: nat): (r: nat)
    ensures r <= 2
    ensures i < 20 ==> r <= 1
  {
    if i <= 9 then 0 else if i <= 19 then 1 else 2
  }

  /** The field of ring `i`, as the hardware reads it. */
  function Field(regs: seq<bv32>, i: nat): bv3
    requires RegOf(i) < |regs|
  {
    ShiftBound(i % RINGS_PER_REG);
    FieldAt(regs[RegOf(i)], Shift(i % RINGS_PER_REG))
  }

  /** The bank after `data |= (v & 7) << ((i % 10) * 3)`. */
  function Packed(regs: seq<bv32>, i: nat, v: bv3): seq<bv32>
    requires RegOf(i) < |regs|
  {
    ShiftBound(i % RINGS_PER_REG);
    regs[RegOf(i) := OrAt(regs[RegOf(i)], v, Shift(i % RINGS_PER_REG))]
  }

  lemma PackField(regs: seq<bv32>, i: nat, v: bv3, j: nat)
    requires RegOf(i) < |regs| && RegOf(j) < |regs| && i < 30 && j < 30 && Field(regs, i) == 0
    ensures Field(Packed(regs, i, v), j) == if i == j then v else Field(regs, j)
  {
    if RegOf(i) == RegOf(j) {
      SameRegister(i, j);
      ShiftBound(i % RINGS_PER_REG);
      ShiftBound(j % RINGS_PER_REG);
      OrField(regs[RegOf(i)], v, i % RINGS_PER_REG, j % RINGS_PER_REG);
    }
  }

  lemma SameRegister(i: nat, j: nat)
    requires i < 30 && j < 30 && RegOf(i) == RegOf(j)
    ensures i % RINGS_PER_REG == j % RINGS_PER_REG <==> i == j
  {
  }

  lemma ZeroFields(regs: seq<bv32>, i: nat)
    requires RegOf(i) < |regs| && regs[RegOf(i)] == 0
    ensures Field(regs, i) == 0
  {
    ShiftBound(i % RINGS_PER_REG);
    ZeroField(Shift(i % RINGS_PER_REG));
  }

  lemma ZeroField(a: bv6)
    requires a <= 27
    ensures FieldAt(0, a) == 0
  {
  }

  /** What the hardware reads back: rings from `lo` on show `ids`, one each, and
      every other ring below `max` shows 0. */
  ghost predicate Shows(regs: seq<bv32>, lo: nat, ids: seq<nat>, max: nat)
    requires lo + |ids| <= max <= 30 && forall r :: 0 <= r < max ==> RegOf(r) < |regs|
  {
    forall r: nat :: r < max ==> Field(regs, r) == if lo <= r < lo + |ids| then IdBits(ids[r - lo]) else 0
  }

  /** Packing the field of the next ring adds its id and disturbs nothing. */
  lemma PackNext(regs: seq<bv32>, lo: nat, ids: seq<nat>, id: nat, max: nat)
    requires lo + |ids| < max <= 30 && (forall r :: 0 <= r < max ==> RegOf(r) < |regs|)
    requires Shows(regs, lo, ids, max)
    ensures Shows(Packed(regs, lo + |ids|, IdBits(id)), lo, ids + [id], max)
  {
    var i, v := lo + |ids|, IdBits(id);
    forall r: nat | r < max ensures Field(Packed(regs, i, v), r) == if r == i then v else Field(regs, r) {
      PackField(regs, i, v, r);
    }
  }

  lemma ZeroShows(regs: seq<bv32>, lo: nat, max: nat)
    requires lo <= max <= 30 && forall r :: 0 <= r < max ==> RegOf(r) < |regs|
    requires forall k :: 0 <= k < |regs| ==> regs[k] == 0
    ensures Shows(regs, lo, [], max)
  {
    forall r: nat | r < max ensures Field(regs, r) == 0 {
      ZeroFields(regs, r);
    }
  }

  // ------------------------------------------------- software ring pointers

  /** The receive part of `edma_setup_ring_resources`: ids, and for each RXDESC
      ring the index of the fill ring it points to. */
  method SetupRxRings(fillStart: nat, fillRings: nat, descStart: nat, descRings: nat)
    returns (fillId: seq<nat>, descId: seq<nat>, fillOf: seq<nat>)
    requires fillRings > 0
    ensures |fillId| == fillRings && |descId| == descRings && |fillOf| == descRings
    ensures forall i :: 0 <= i < fillRings ==> fillId[i] == fillStart + i
    ensures forall i :: 0 <= i < descRings ==> descId[i] == descStart + i
    ensures forall i :: 0 <= i < descRings ==> fillOf[i] < fillRings && fillOf[i] == i % fillRings
  {
    fillId, descId, fillOf := [], [], [];
    for i := 0 to fillRings
      invariant |fillId| == i && forall k :: 0 <= k < i ==> fillId[k] == fillStart + k
    {
      fillId := fillId + [fillStart + i];
    }
    for i := 0 to descRings
      invariant |descId| == i && |fillOf| == i
      invariant forall k :: 0 <= k < i ==> descId[k] == descStart + k
      invariant forall k :: 0 <= k < i ==> fillOf[k] < fillRings && fillOf[k] == k % fillRings
    {
      var index := fillStart + i % fillRings;
      descId, fillOf := descId + [descStart + i], fillOf + [index - fillStart];
    }
  }

  // ----------------------------------------------------------- map registers

  /** Read, OR, write back: one field of register `r`. */
  method WriteField(regs: array<bv32>, r: nat, i: nat, v: bv3)
    requires r == RegOf(i) && r < regs.Length
    modifies regs
    ensures regs[..] == Packed(old(regs[..]), i, v)
  {
    var data := regs[r];
    ShiftBound(i % RINGS_PER_REG);
    regs[r] := OrAt(data, v, Shift(i % RINGS_PER_REG));
  }

  /** The register selection of the RXDESC2FILL loop. */
  method WriteRxField(regs: array<bv32>, i: nat, v: bv3)
    requires regs.Length == 2 && i < MAX_RXDESC_RINGS
    modifies regs
    ensures regs[..] == Packed(old(regs[..]), i, v)
  {
    var r := if i <= 9 then 0 else 1;
    WriteField(regs, r, i, v);
  }

  /** The register selection of the TXDESC2CMPL loop. */
  method WriteTxField(regs: array<bv32>, i: nat, v: bv3)
    requires regs.Length == 3 && i < MAX_TXDESC_RINGS
    modifies regs
    ensures regs[..] == Packed(old(regs[..]), i, v)
  {
    var r := if i <= 9 then 0 else if 10 <= i <= 19 then 1 else 2;
    WriteField(regs, r, i, v);
  }

  /** One turn of the RXDESC2FILL loop. */
  method NextRxField(regs: array<bv32>, i: nat, id: nat, ghost lo: nat, ghost ids: seq<nat>)
    requires regs.Length == 2 && i == lo + |ids| < MAX_RXDESC_RINGS && Shows(regs[..], lo, ids, MAX_RXDESC_RINGS)
    modifies regs
    ensures Shows(regs[..], lo, ids + [id], MAX_RXDESC_RINGS)
  {
    PackNext(regs[..], lo, ids, id, MAX_RXDESC_RINGS);
    WriteRxField(regs, i, IdBits(id));
  }

  /** One turn of the TXDESC2CMPL loop. */
  method NextTxField(regs: array<bv32>, i: nat, id: nat, ghost lo: nat, ghost ids: seq<nat>)
    requires regs.Length == 3 && i == lo + |ids| < MAX_TXDESC_RINGS && Shows(regs[..], lo, ids, MAX_TXDESC_RINGS)
    modifies regs
    ensures Shows(regs[..], lo, ids + [id], MAX_TXDESC_RINGS)
  {
    PackNext(regs[..], lo, ids, id, MAX_TXDESC_RINGS);
    WriteTxField(regs, i, IdBits(id));
  }

  /** Clears a bank of map registers. */
  method ClearMap(regs: array<bv32>)
    modifies regs
    ensures forall k :: 0 <= k < regs.Length ==> regs[k] == 0
  {
    for r := 0 to regs.Length
      invariant forall k :: 0 <= k < r ==> regs[k] == 0
    {
      regs[r] := 0;
    }
  }

  /** For each RXDESC ring the id of the fill ring its software pointer names. */
  function RxIds(fillId: seq<nat>, fillOf: seq<nat>): (ids: seq<nat>)
    requires forall k :: 0 <= k < |fillOf| ==> fillOf[k] < |fillId|
    ensures |ids| == |fillOf|
  {
    seq(|fillOf|, k requires 0 <= k < |fillOf| => fillId[fillOf[k]])
  }

  /** The RXDESC2FILL loop of `edma_hw_init`, on registers `regs[0]` and
      `regs[1]`: the hardware reads back, for every RXDESC ring, the id of the
      fill ring its software pointer names, and nothing in any other field. */
  method ProgramRxMap(regs: array<bv32>, descStart: nat, fillId: seq<nat>, fillOf: seq<nat>)
    requires regs.Length == 2 && descStart + |fillOf| <= MAX_RXDESC_RINGS
    requires forall k :: 0 <= k < |fillOf| ==> fillOf[k] < |fillId|
    modifies regs
    ensures Shows(regs[..], descStart, RxIds(fillId, fillOf), MAX_RXDESC_RINGS)
  {
    ghost var ids := RxIds(fillId, fillOf);
    ClearMap(regs);
    ZeroShows(regs[..], descStart, MAX_RXDESC_RINGS);
    assert ids[..0] == [];
    for i := descStart to descStart + |fillOf|
      invariant Shows(regs[..], descStart, ids[..i - descStart], MAX_RXDESC_RINGS)
    {
      ghost var k := i - descStart;
      var id := fillId[fillOf[i - descStart]];
      assert ids[..k + 1] == ids[..k] + [id];
      NextRxField(regs, i, id, descStart, ids[..k]);
    }
    assert ids[..|fillOf|] == ids;
  }

  /** The hardware and the software pointer of an RXDESC ring name the same fill
      ring exactly when its id fits a field, and fields of rings not in use are
      empty. */
  ghost predicate RxMapNames(regs: seq<bv32>, descStart: nat, fillId: seq<nat>, fillOf: seq<nat>)
    requires |regs| == 2 && descStart + |fillOf| <= MAX_RXDESC_RINGS
    requires forall k :: 0 <= k < |fillOf| ==> fillOf[k] < |fillId|
  {
    && (forall k: nat :: k < |fillOf| ==>
          Names(Field(regs, descStart + k), fillId[fillOf[k]]))
    && (forall r: nat :: r < MAX_RXDESC_RINGS && !(descStart <= r < descStart + |fillOf|) ==> Field(regs, r) == 0)
  }

  lemma RxFieldNames(regs: seq<bv32>, descStart: nat, fillId: seq<nat>, fillOf: seq<nat>, k: nat)
    requires |regs| == 2 && descStart + |fillOf| <= MAX_RXDESC_RINGS && k < |fillOf|
    requires forall k :: 0 <= k < |fillOf| ==> fillOf[k] < |fillId|
    requires Shows(regs, descStart, RxIds(fillId, fillOf), MAX_RXDESC_RINGS)
    ensures Names(Field(regs, descStart + k), fillId[fillOf[k]])
  {
    FieldNamesIff(fillId[fillOf[k]]);
    assert Field(regs, descStart + k) == IdBits(RxIds(fillId, fillOf)[k]);
  }

  lemma RxFieldNamesIff(regs: seq<bv32>, descStart: nat, fillId: seq<nat>, fillOf: seq<nat>)
    requires |regs| == 2 && descStart + |fillOf| <= MAX_RXDESC_RINGS
    requires forall k :: 0 <= k < |fillOf| ==> fillOf[k] < |fillId|
    requires Shows(regs, descStart, RxIds(fillId, fillOf), MAX_RXDESC_RINGS)
    ensures RxMapNames(regs, descStart, fillId, fillOf)
  {
    forall k: nat | k < |fillOf| ensures Names(Field(regs, descStart + k), fillId[fillOf[k]]) {
      RxFieldNames(regs, descStart, fillId, fillOf, k);
    }
  }

  /** Ring set-up and map programming together. */
  method InitRxMap(regs: array<bv32>, fillStart: nat, fillRings: nat, descStart: nat, descRings: nat)
    returns (fillId: seq<nat>, descId: seq<nat>, fillOf: seq<nat>)
    requires regs.Length == 2 && fillRings > 0 && descStart + descRings <= MAX_RXDESC_RINGS
    modifies regs
    ensures |fillId| == fillRings && |descId| == descRings && |fillOf| == descRings
    ensures forall i :: 0 <= i < fillRings ==> fillId[i] == fillStart + i
    ensures forall i :: 0 <= i < descRings ==>
              descId[i] == descStart + i && fillOf[i] < fillRings && fillOf[i] == i % fillRings
    ensures RxMapNames(regs[..], descStart, fillId, fillOf)
  {
    fillId, descId, fillOf := SetupRxRings(fillStart, fillRings, descStart, descRings);
    ProgramRxMap(regs, descStart, fillId, fillOf);
    RxFieldNamesIff(regs[..], descStart, fillId, fillOf);
  }

  /** Position of the `k`-th step of a round robin over `n` rings. */
  function RoundRobin(k: nat, n: nat): (r: nat)
    requires n > 0
    ensures r < n
  {
    if k == 0 then 0 else if RoundRobin(k - 1, n) + 1 == n then 0 else RoundRobin(k - 1, n) + 1
  }

  lemma RoundRobinStep(k: nat, n: nat)
    requires n > 0
    ensures RoundRobin(k + 1, n) == if RoundRobin(k, n) + 1 == n then 0 else RoundRobin(k, n) + 1
  {
  }

  /** `k` steps go round a number of times and then stop at the position. */
  lemma {:induction false} RoundsCompleted(k: nat, n: nat) returns (q: nat)
    requires n > 0
    ensures k == n * q + RoundRobin(k, n)
  {
    if k == 0 {
      q := 0;
    } else {
      q := RoundsCompleted(k - 1, n);
      if RoundRobin(k - 1, n) + 1 == n {
        assert n * (q + 1) == n * q + n;
        q := q + 1;
      }
    }
  }

  lemma Multiple(n: nat, t: int)
    requires n > 0
    ensures t >= 1 ==> n * t >= n
    ensures t <= -1 ==> n * t <= 0 - n
  {
  }

  /** The remainder of a division is determined by its bounds. */
  lemma Remainder(x: nat, n: nat, q: int, r: int)
    requires n > 0 && x == n * q + r && 0 <= r < n
    ensures x % n == r
  {
    var d, m := x / n, x % n;
    Multiple(n, d - q);
    assert n * (d - q) == n * d - n * q;
    assert x == n * d + m;
  }

  lemma RoundRobinIsModulo(k: nat, n: nat)
    requires n > 0
    ensures RoundRobin(k, n) == k % n
  {
    var q := RoundsCompleted(k, n);
    Remainder(k, n, q, RoundRobin(k, n));
  }

  /** The ids of the completion rings that `n` TXDESC rings are given in turn. */
  function TxIds(cmplStart: nat, cmplRings: nat, n: nat): (ids: seq<nat>)
    requires cmplRings > 0
    ensures |ids| == n
  {
    if n == 0 then [] else TxIds(cmplStart, cmplRings, n - 1) + [cmplStart + RoundRobin(n - 1, cmplRings)]
  }

  lemma {:induction false} TxIdAt(cmplStart: nat, cmplRings: nat, n: nat, k: nat)
    requires cmplRings > 0 && k < n
    ensures TxIds(cmplStart, cmplRings, n)[k] == cmplStart + RoundRobin(k, cmplRings)
  {
    if k < n - 1 {
      TxIdAt(cmplStart, cmplRings, n - 1, k);
    }
  }

  /** The completion ring after `descIndex`, the `k`-th one. */
  method NextCmpl(ghost k: nat, cmplStart: nat, cmplEnd: nat, descIndex: nat) returns (next: nat)
    requires cmplStart < cmplEnd && descIndex == cmplStart + RoundRobin(k, cmplEnd - cmplStart)
    ensures next == cmplStart + RoundRobin(k + 1, cmplEnd - cmplStart)
  {
    RoundRobinStep(k, cmplEnd - cmplStart);
    next := descIndex + 1;
    if next == cmplEnd {
      next := cmplStart;
    }
  }

  /** The TXDESC2CMPL loop of `edma_hw_init` (ipq807x): the hardware reads back
      the completion rings in turn, and nothing in any other field. */
  method ProgramTxMap(regs: array<bv32>, txStart: nat, txEnd: nat, cmplStart: nat, cmplEnd: nat)
    requires regs.Length == 3 && txStart <= txEnd <= MAX_TXDESC_RINGS && cmplStart < cmplEnd
    modifies regs
    ensures Shows(regs[..], txStart, TxIds(cmplStart, cmplEnd - cmplStart, txEnd - txStart), MAX_TXDESC_RINGS)
  {
    ghost var n := cmplEnd - cmplStart;
    ClearMap(regs);
    ZeroShows(regs[..], txStart, MAX_TXDESC_RINGS);
    assert TxIds(cmplStart, n, 0) == [];
    var descIndex := cmplStart;
    for i := txStart to txEnd
      invariant Shows(regs[..], txStart, TxIds(cmplStart, n, i - txStart), MAX_TXDESC_RINGS)
      invariant descIndex == cmplStart + RoundRobin(i - txStart, n)
    {
      NextTxField(regs, i, descIndex, txStart, TxIds(cmplStart, n, i - txStart));
      descIndex := NextCmpl(i - txStart, cmplStart, cmplEnd, descIndex);
    }
  }

  /** A TXDESC ring in use is given its completion ring by position modulo the
      number of completion rings, exactly when that ring's id fits a field. */
  lemma TxFieldNamesIff(regs: seq<bv32>, txStart: nat, txEnd: nat, cmplStart: nat, cmplRings: nat, i: nat)
    requires |regs| == 3 && cmplRings > 0 && txStart <= i < txEnd <= MAX_TXDESC_RINGS
    requires Shows(regs, txStart, TxIds(cmplStart, cmplRings, txEnd - txStart), MAX_TXDESC_RINGS)
    ensures Names(Field(regs, i), cmplStart + (i - txStart) % cmplRings)
  {
    RoundRobinIsModulo(i - txStart, cmplRings);
    FieldNamesIff(cmplStart + RoundRobin(i - txStart, cmplRings));
    TxIdAt(cmplStart, cmplRings, txEnd - txStart, i - txStart);
  }
}

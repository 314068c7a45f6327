/** The number a 32-bit word stands for, read bit by bit, and the two laws that
    make it the one: zero is 0 and the next word is one more. */
module WordValue {

  function Low(w: bv32): nat { if w & 1 == 1 then 1 else 0 }

  function Value(word: bv32): nat
    decreases word
  {
    if word == 0 then 0 else Low(word) + 2 * Value(word >> 1)
  }

  lemma ValueHalf(w: bv32)
    ensures Value(w) == Low(w) + 2 * Value(w >> 1)
  {
    if w == 0 {
      assert w >> 1 == 0;
    }
  }

  // Bit-level facts, one at a time.

  lemma HalfTop(w: bv32, h: bv32)
    requires h == w >> 1
    ensures h <= 0x7FFF_FFFF
  {
  }

  predicate IsHalf(w: bv32, h: bv32) { w == h + h || w == h + h + 1 }

  lemma OddHalf(w: bv32)
    requires w & 1 == 1
    ensures w == (w >> 1) + (w >> 1) + 1
  {
  }

  lemma EvenHalf(w: bv32)
    requires w & 1 != 1
    ensures w == (w >> 1) + (w >> 1)
  {
  }

  lemma ShiftHalves(w: bv32)
    ensures IsHalf(w, w >> 1)
  {
    if w & 1 == 1 {
      OddHalf(w);
    } else {
      EvenHalf(w);
    }
  }

  lemma Split(w: bv32) returns (h: bv32)
    ensures h <= 0x7FFF_FFFF && IsHalf(w, h)
  {
    h := w >> 1;
    ShiftHalves(w);
    HalfTop(w, h);
  }

  lemma DoubleBits(h: bv32)
    ensures Low(h + h) == 0 && Low(h + h + 1) == 1
  {
  }

  lemma DoubleHalf(h: bv32)
    requires h <= 0x7FFF_FFFF
    ensures (h + h) >> 1 == h && (h + h + 1) >> 1 == h
  {
  }

  lemma Carry(h: bv32)
    ensures h + h + 1 + 1 == (h + 1) + (h + 1)
  {
  }

  lemma CarryFits(h: bv32)
    requires h + h + 1 != 0xFFFF_FFFF && h <= 0x7FFF_FFFF
    ensures h + 1 <= 0x7FFF_FFFF && h != 0xFFFF_FFFF
  {
  }

  // ------------------------------------------------------------------ laws

  lemma DoubleValue(h: bv32)
    requires h <= 0x7FFF_FFFF
    ensures Value(h + h) == 2 * Value(h)
  {
    ValueHalf(h + h);
    DoubleBits(h);
    DoubleHalf(h);
  }

  lemma DoubleNextValue(h: bv32)
    requires h <= 0x7FFF_FFFF
    ensures Value(h + h + 1) == 2 * Value(h) + 1
  {
    ValueHalf(h + h + 1);
    DoubleBits(h);
    DoubleHalf(h);
  }

  lemma NextOfEven(h: bv32)
    requires h <= 0x7FFF_FFFF
    ensures Value(h + h + 1) == Value(h + h) + 1
  {
    DoubleValue(h);
    DoubleNextValue(h);
  }

  lemma NextOfOdd(h: bv32)
    requires h <= 0x7FFF_FFFF && h + 1 <= 0x7FFF_FFFF && Value(h + 1) == Value(h) + 1
    ensures Value(h + h + 1 + 1) == Value(h + h + 1) + 1
  {
    Carry(h);
    DoubleValue(h + 1);
    DoubleNextValue(h);
  }

  lemma EvenCase(w: bv32, h: bv32)
    requires h <= 0x7FFF_FFFF && w == h + h
    ensures Value(w + 1) == Value(w) + 1
  {
    NextOfEven(h);
  }

  lemma OddCase(w: bv32, h: bv32)
    requires h <= 0x7FFF_FFFF && h + 1 <= 0x7FFF_FFFF && w == h + h + 1 && Value(h + 1) == Value(h) + 1
    ensures Value(w + 1) == Value(w) + 1
  {
    NextOfOdd(h);
  }

  lemma OddHalfSmaller(w: bv32, h: bv32)
    requires h <= 0x7FFF_FFFF && w == h + h + 1 && w != 0xFFFF_FFFF
    ensures h + 1 <= 0x7FFF_FFFF && h != 0xFFFF_FFFF && Value(h) < Value(w)
  {
    CarryFits(h);
    DoubleNextValue(h);
  }

  /** Zero is 0, and the value of the next word is one more. */
  lemma {:induction false} ValueNext(w: bv32)
    requires w != 0xFFFF_FFFF
    ensures Value(0) == 0 && Value(w + 1) == Value(w) + 1
    decreases Value(w)
  {
    var h := Split(w);
    if w == h + h {
      EvenCase(w, h);
    } else {
      OddHalfSmaller(w, h);
      ValueNext(h);
      OddCase(w, h);
    }
  }

  /** Only zero has value 0. */
  lemma {:induction false} ValuePositive(w: bv32)
    requires w != 0
    ensures Value(w) > 0
  {
    if w & 1 != 1 {
      EvenNotHalved(w);
      ValuePositive(w >> 1);
    }
  }

  lemma EvenNotHalved(w: bv32)
    requires w != 0 && w & 1 != 1
    ensures w >> 1 != 0
  {
  }

  lemma ShiftOn(w: bv32)
    ensures (w >> 1) >> 1 == w >> 2 && (w >> 2) >> 2 == w >> 4 && (w >> 4) >> 4 == w >> 8
    ensures (w >> 4) >> 8 == w >> 12 && (w >> 12) >> 1 == w >> 13
  {
  }

  /** `hi` is what is left of `v` above bits that count less than `unit`. */
  predicate Above(v: nat, hi: nat, unit: nat) { unit * hi <= v < unit * hi + unit }

  lemma Above1(w: bv32)
    ensures Above(Value(w), Value(w >> 1), 2)
  {
    ValueHalf(w);
  }

  lemma Above2(w: bv32)
    ensures Above(Value(w), Value(w >> 2), 4)
  {
    Above1(w);
    Above1(w >> 1);
    ShiftOn(w);
  }

  lemma Above4(w: bv32)
    ensures Above(Value(w), Value(w >> 4), 16)
  {
    Above2(w);
    Above2(w >> 2);
    ShiftOn(w);
  }

  lemma Above8(w: bv32)
    ensures Above(Value(w), Value(w >> 8), 256)
  {
    Above4(w);
    Above4(w >> 4);
    ShiftOn(w);
  }

  lemma Above12(w: bv32)
    ensures Above(Value(w), Value(w >> 12), 4096)
  {
    Above4(w);
    Above8(w >> 4);
    ShiftOn(w);
  }

  /** The bits from number 13 on count 8192 each. */
  lemma Above13(w: bv32)
    ensures Above(Value(w), Value(w >> 13), 8192)
  {
    Above12(w);
    Above1(w >> 12);
    ShiftOn(w);
  }

  lemma ValueOf8191()
    ensures Value(0x1FFF) == 8191
  {
    ValueHalf(0x1FFF);
    ValueHalf(0x0FFF);
    ValueHalf(0x07FF);
    ValueHalf(0x03FF);
    ValueHalf(0x01FF);
    ValueHalf(0x00FF);
    ValueHalf(0x007F);
    ValueHalf(0x003F);
    ValueHalf(0x001F);
    ValueHalf(0x000F);
    ValueHalf(0x0007);
    ValueHalf(0x0003);
    ValueHalf(0x0001);
  }

  lemma HighIff(w: bv32)
    ensures w > 0x1FFF <==> w >> 13 != 0
  {
  }

  /** Cutting a word at 0x1FFF cuts its value at 8191. */
  lemma ValueCut(w: bv32)
    ensures Value(if w > 0x1FFF then 0x1FFF else w) == if Value(w) > 8191 then 8191 else Value(w)
  {
    HighIff(w);
    Above13(w);
    ValueOf8191();
    if w >> 13 != 0 {
      ValuePositive(w >> 13);
    }
  }
}

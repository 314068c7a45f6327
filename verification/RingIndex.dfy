/** Index arithmetic shared by every descriptor ring of the driver.

    All rings have 128 slots (SYN_DP_TX_DESC_SIZE, SYN_DP_RX_DESC_SIZE and
    EDMA_RING_SIZE).  The driver steps an index either by masking with
    `count - 1` or by comparing with `count`; both are shown to be `Succ`. */
module RingIndex {

  const RING_SIZE: nat := 128

  /** Bitwise AND of two unsigned words, bit by bit. */
  function BitAnd(x: nat, y: nat): nat
    decreases x
  {
    if x == 0 || y == 0 then 0 else (x % 2) * (y % 2) + 2 * BitAnd(x / 2, y / 2)
  }

  function Pow2(k: nat): (p: nat)
    ensures p >= 1
  {
    if k == 0 then 1 else 2 * Pow2(k - 1)
  }

  /** Masking with `count - 1` steps an index of any power-of-two ring. */
  lemma {:induction false} MaskStepPow2(x: nat, k: nat)
    requires x <= Pow2(k)
    ensures BitAnd(x, Pow2(k) - 1) == if x == Pow2(k) then 0 else x
    decreases k
  {
    if k == 0 || x == 0 {
    } else {
      var p := Pow2(k - 1);
      assert (2 * p - 1) % 2 == 1 && (2 * p - 1) / 2 == p - 1;
      MaskStepPow2(x / 2, k - 1);
      if p == 1 {
        assert x == 1 || x == 2;
      } else {
        assert BitAnd(x, 2 * p - 1) == x % 2 + 2 * BitAnd(x / 2, p - 1);
      }
    }
  }

  /** The successor of a ring index. */
  function Succ(i: nat): (j: nat)
    requires i < RING_SIZE
    ensures j < RING_SIZE
  {
    if i + 1 == RING_SIZE then 0 else i + 1
  }

  /** Stepping by `(i + 1) & (count - 1)` is stepping to the ring successor. */
  lemma MaskStep(i: nat)
    requires i < RING_SIZE
    ensures BitAnd(i + 1, RING_SIZE - 1) == Succ(i)
  {
    assert Pow2(7) == 128 by {
      assert Pow2(2) == 4;
      assert Pow2(4) == 16;
      assert Pow2(6) == 64;
    }
    MaskStepPow2(i + 1, 7);
  }

  /** The slot `k` places after slot `b`. */
  function Idx(b: nat, k: nat): (i: nat)
    requires b < RING_SIZE && k <= RING_SIZE
    ensures i < RING_SIZE
    ensures k < RING_SIZE ==> Off(b, i) == k
  {
    if b + k < RING_SIZE then b + k else b + k - RING_SIZE
  }

  /** How far slot `i` lies after slot `b`. */
  function Off(b: nat, i: nat): (k: nat)
    requires b < RING_SIZE && i < RING_SIZE
    ensures k < RING_SIZE
  {
    if b <= i then i - b else i + RING_SIZE - b
  }

  lemma IdxIsModulo(b: nat, k: nat)
    requires b < RING_SIZE && k <= RING_SIZE
    ensures Idx(b, k) == (b + k) % RING_SIZE
  {
  }
}

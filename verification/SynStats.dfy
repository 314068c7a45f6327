/** The per-frame counters of the Synopsys data plane, and what they add up to
    over a log of finished frames. */
module SynStats {
  import opened WordValue
  import opened SynDmaDesc
  import opened SynDescRing

  const ETH_FCS_LEN: int := 4

  /** The per-cause counters of a direction are kept in the order of its mask
      table. */
  datatype RxStats = RxStats(packets: nat, bytes: int, errors: nat, causes: seq<nat>)

  datatype TxStats = TxStats(packets: nat, bytes: nat, collisions: nat, errors: nat, causes: seq<nat>)

  const RX_CAUSES: seq<bv32> := [
    RX_CRC,             // mmc_rx_crc_errors
    RX_COLLISION,       // rx_late_collision_errors
    RX_OVERFLOW,        // mmc_rx_overflow_errors
    RX_DRIBBLING,       // rx_dribble_bit_errors
    RX_LENGTH_ERROR     // rx_length_errors
  ]

  const ANY_RX_CAUSE: bv32 := RX_CRC | RX_COLLISION | RX_OVERFLOW | RX_DRIBBLING | RX_LENGTH_ERROR

  const TX_CAUSES: seq<bv32> := [
    TX_TIMEOUT,         // tx_jabber_timeout_errors
    TX_FRAME_FLUSHED,   // tx_frame_flushed_errors
    TX_LOST_CARRIER,    // tx_loss_of_carrier_errors
    TX_NO_CARRIER,      // tx_no_carrier_errors
    TX_LATE_COLLISION,  // tx_late_collision_errors
    TX_EXC_COLLISIONS,  // tx_excessive_collision_errors
    TX_EXC_DEFERRAL,    // tx_excessive_deferral_errors
    TX_UNDERFLOW,       // tx_underflow_errors
    TX_IPV4_CHK_ERROR,  // tx_ip_header_errors
    TX_PAY_CHK_ERROR    // tx_ip_payload_errors
  ]

  // Where each counter of the driver is kept.

  const MMC_RX_CRC_ERRORS := 0
  const RX_LATE_COLLISION_ERRORS := 1
  const MMC_RX_OVERFLOW_ERRORS := 2
  const RX_DRIBBLE_BIT_ERRORS := 3
  const RX_LENGTH_ERRORS := 4

  const TX_JABBER_TIMEOUT_ERRORS := 0
  const TX_FRAME_FLUSHED_ERRORS := 1
  const TX_LOSS_OF_CARRIER_ERRORS := 2
  const TX_NO_CARRIER_ERRORS := 3
  const TX_LATE_COLLISION_ERRORS := 4
  const TX_EXCESSIVE_COLLISION_ERRORS := 5
  const TX_EXCESSIVE_DEFERRAL_ERRORS := 6
  const TX_UNDERFLOW_ERRORS := 7
  const TX_IP_HEADER_ERRORS := 8
  const TX_IP_PAYLOAD_ERRORS := 9

  const NO_RX := RxStats(0, 0, 0, [0, 0, 0, 0, 0])
  const NO_TX := TxStats(0, 0, 0, 0, [0, 0, 0, 0, 0, 0, 0, 0, 0, 0])

  function Bit(status: bv32, mask: bv32): nat {
    if status & mask != 0 then 1 else 0
  }

  /** Payload of a received frame: the reported length without the FCS.  It is
      negative for a frame the hardware reports shorter than its FCS; the
      64-bit counter of the driver holds the residue of this sum. */
  function RxBytes(status: bv32): int {
    Value(RxFrameLength(status)) - ETH_FCS_LEN
  }

  /** Adds one to the counter of every cause whose bit is set. */
  function AddCauses(causes: seq<nat>, masks: seq<bv32>, status: bv32): (r: seq<nat>)
    requires |causes| == |masks|
    ensures |r| == |masks|
  {
    seq(|masks|, k requires 0 <= k < |masks| => causes[k] + Bit(status, masks[k]))
  }

  /** The counter updates of one turn of the receive loop. */
  function CountRx(s: RxStats, status: bv32): RxStats
    requires |s.causes| == |RX_CAUSES|
  {
    if RxValid(status) then
      s.(packets := s.packets + 1, bytes := s.bytes + RxBytes(status))
    else if status & ANY_RX_CAUSE != 0 then
      s.(errors := s.errors + 1, causes := AddCauses(s.causes, RX_CAUSES, status))
    else
      s.(errors := s.errors + 1)
  }

  /** The counter updates of one turn of the transmit-completion loop. */
  function CountTx(s: TxStats, status: bv32, len: bv32): TxStats
    requires |s.causes| == |TX_CAUSES|
  {
    if status & TX_ERROR != 0 then
      s.(errors := s.errors + 1, causes := AddCauses(s.causes, TX_CAUSES, status))
    else
      s.(packets := s.packets + 1,
         collisions := s.collisions + Value(TxCollisionCount(status)),
         bytes := s.bytes + Value(len))
  }

  // ---------------------------------------------------- sums over frame logs

  function Sum(log: seq<Item>, f: Item -> int): int {
    if log == [] then 0 else Sum(log[..|log| - 1], f) + f(log[|log| - 1])
  }

  lemma SumAppend(log: seq<Item>, x: Item, f: Item -> int)
    ensures Sum(log + [x], f) == Sum(log, f) + f(x)
  {
    assert (log + [x])[..|log|] == log;
  }

  lemma {:induction false} SumOrdered(log: seq<Item>, f: Item -> int, g: Item -> int)
    requires forall x :: f(x) <= g(x)
    ensures Sum(log, f) <= Sum(log, g)
  {
    if log != [] {
      SumOrdered(log[..|log| - 1], f, g);
    }
  }

  lemma {:induction false} SumSplit(log: seq<Item>, f: Item -> int, g: Item -> int)
    requires forall x :: f(x) + g(x) == 1
    ensures Sum(log, f) + Sum(log, g) == |log|
  {
    if log != [] {
      SumSplit(log[..|log| - 1], f, g);
    }
  }

  // What each counter is meant to count, on the bits themselves.

  /** First and last segment in one descriptor, and no error. */
  predicate GoodFrame(report: bv32) {
    report & 0x0200 != 0 && report & 0x0100 != 0 && report & 0x8000 == 0
  }

  /** The frame length in bits 16 to 29, less four bytes of FCS. */
  function Payload(report: bv32): int { Value((report >> 16) & 0x3FFF) - 4 }

  /** A frame that was sent. */
  predicate Sent(report: bv32) { report & 0x8000 == 0 }

  function RxGood(i: Item): int { if GoodFrame(i.report) then 1 else 0 }

  function RxBad(i: Item): int { if GoodFrame(i.report) then 0 else 1 }

  function RxPayload(i: Item): int { if GoodFrame(i.report) then Payload(i.report) else 0 }

  function RxCause(mask: bv32): Item -> int {
    (i: Item) => if GoodFrame(i.report) then 0 else Bit(i.report, mask)
  }

  function TxGood(i: Item): int { if Sent(i.report) then 1 else 0 }

  function TxBad(i: Item): int { if Sent(i.report) then 0 else 1 }

  function TxPayload(i: Item): int { if Sent(i.report) then Value(i.frame.size1) else 0 }

  /** The collision count is in bits 3 to 6. */
  function TxCollisions(i: Item): int { if Sent(i.report) then Value((i.report >> 3) & 0xF) else 0 }

  function TxCause(mask: bv32): Item -> int {
    (i: Item) => if Sent(i.report) then 0 else Bit(i.report, mask)
  }

  // The driver reads the same bits, and reads them out of the reported part of
  // the status word alone.

  lemma RxValidIff(status: bv32)
    ensures RxValid(status) <==> GoodFrame(status)
    ensures GoodFrame(Report(Rx, status)) <==> GoodFrame(status)
  {
  }

  lemma RxBytesIs(status: bv32)
    ensures RxBytes(status) == Payload(status)
    ensures Payload(Report(Rx, status)) == Payload(status)
  {
    LengthBits(status);
  }

  lemma LengthBits(status: bv32)
    ensures RxFrameLength(status) == (status >> 16) & 0x3FFF
    ensures (Report(Rx, status) >> 16) & 0x3FFF == (status >> 16) & 0x3FFF
  {
  }

  lemma SentIff(status: bv32)
    ensures status & TX_ERROR == 0 <==> Sent(status)
    ensures Sent(Report(Tx, status)) <==> Sent(status)
  {
  }

  lemma CollisionBits(status: bv32)
    ensures TxCollisionCount(status) == (status >> 3) & 0xF
    ensures (Report(Tx, status) >> 3) & 0xF == (status >> 3) & 0xF
  {
  }

  /** Every receive counter is the count it is named after. */
  ghost predicate RxTally(s: RxStats, log: seq<Item>) {
    && s.packets == Sum(log, RxGood)
    && s.errors == Sum(log, RxBad)
    && s.bytes == Sum(log, RxPayload)
    && |s.causes| == |RX_CAUSES|
    && forall k :: 0 <= k < |RX_CAUSES| ==> s.causes[k] == Sum(log, RxCause(RX_CAUSES[k]))
  }

  /** Every transmit counter is the count it is named after. */
  ghost predicate TxTally(s: TxStats, log: seq<Item>) {
    && s.packets == Sum(log, TxGood)
    && s.errors == Sum(log, TxBad)
    && s.bytes == Sum(log, TxPayload)
    && s.collisions == Sum(log, TxCollisions)
    && |s.causes| == |TX_CAUSES|
    && forall k :: 0 <= k < |TX_CAUSES| ==> s.causes[k] == Sum(log, TxCause(TX_CAUSES[k]))
  }

  lemma RxCauseMasks(k: nat)
    requires k < |RX_CAUSES|
    ensures RX_CAUSES[k] & OWN_BY_DMA == 0 && RX_CAUSES[k] & ANY_RX_CAUSE == RX_CAUSES[k]
  {
  }

  lemma TxCauseMasks(k: nat)
    requires k < |TX_CAUSES|
    ensures TX_CAUSES[k] & OWN_BY_DMA == 0 && TX_CAUSES[k] & TX_CONTROL == 0
  {
  }

  /** No cause is set when the combined cause mask is clear. */
  lemma NoCause(status: bv32, mask: bv32, all: bv32)
    requires status & all == 0 && mask & all == mask
    ensures status & mask == 0
  {
  }

  lemma RxCauseStep(log: seq<Item>, x: Item, status: bv32, mask: bv32)
    requires x.report == Report(Rx, status)
    requires mask & OWN_BY_DMA == 0 && mask & ANY_RX_CAUSE == mask
    ensures Sum(log + [x], RxCause(mask)) ==
            Sum(log, RxCause(mask)) + if !RxValid(status) then Bit(status, mask) else 0
    ensures status & ANY_RX_CAUSE == 0 ==> Bit(status, mask) == 0
  {
    SumAppend(log, x, RxCause(mask));
    RxValidIff(status);
    ReportMask(Rx, status, mask);
    if status & ANY_RX_CAUSE == 0 {
      NoCause(status, mask, ANY_RX_CAUSE);
    }
  }

  /** Counting a frame keeps the tally, with the log one frame longer. */
  lemma CountRxTallies(s: RxStats, log: seq<Item>, skb: Skb, frame: Frame, status: bv32)
    requires RxTally(s, log)
    ensures RxTally(CountRx(s, status), log + [Item(skb, frame, Report(Rx, status))])
  {
    var x := Item(skb, frame, Report(Rx, status));
    RxValidIff(status);
    RxBytesIs(status);
    SumAppend(log, x, RxGood);
    SumAppend(log, x, RxBad);
    SumAppend(log, x, RxPayload);
    forall k | 0 <= k < |RX_CAUSES|
      ensures CountRx(s, status).causes[k] == Sum(log + [x], RxCause(RX_CAUSES[k]))
    {
      RxCauseMasks(k);
      RxCauseStep(log, x, status, RX_CAUSES[k]);
    }
  }

  lemma TxCauseStep(log: seq<Item>, x: Item, status: bv32, mask: bv32)
    requires x.report == Report(Tx, status)
    requires mask & OWN_BY_DMA == 0 && mask & TX_CONTROL == 0
    ensures Sum(log + [x], TxCause(mask)) ==
            Sum(log, TxCause(mask)) + if status & TX_ERROR != 0 then Bit(status, mask) else 0
  {
    SumAppend(log, x, TxCause(mask));
    SentIff(status);
    ReportMask(Tx, status, mask);
  }

  lemma CountTxTallies(s: TxStats, log: seq<Item>, skb: Skb, frame: Frame, status: bv32)
    requires TxTally(s, log)
    ensures TxTally(CountTx(s, status, frame.size1), log + [Item(skb, frame, Report(Tx, status))])
  {
    var x, len := Item(skb, frame, Report(Tx, status)), frame.size1;
    SentIff(status);
    CollisionBits(status);
    SumAppend(log, x, TxGood);
    SumAppend(log, x, TxBad);
    SumAppend(log, x, TxPayload);
    SumAppend(log, x, TxCollisions);
    forall k | 0 <= k < |TX_CAUSES|
      ensures CountTx(s, status, len).causes[k] == Sum(log + [x], TxCause(TX_CAUSES[k]))
    {
      TxCauseMasks(k);
      TxCauseStep(log, x, status, TX_CAUSES[k]);
    }
  }

  /** Each finished receive frame is counted once, and no cause is counted
      more often than the errors it explains. */
  lemma RxCountersConserve(s: RxStats, log: seq<Item>)
    requires RxTally(s, log)
    ensures s.packets + s.errors == |log|
    ensures forall k :: 0 <= k < |s.causes| ==> s.causes[k] <= s.errors
  {
    SumSplit(log, RxGood, RxBad);
    forall k | 0 <= k < |RX_CAUSES| ensures s.causes[k] <= s.errors {
      SumOrdered(log, RxCause(RX_CAUSES[k]), RxBad);
    }
  }

  lemma TxCountersConserve(s: TxStats, log: seq<Item>)
    requires TxTally(s, log)
    ensures s.packets + s.errors == |log|
    ensures forall k :: 0 <= k < |s.causes| ==> s.causes[k] <= s.errors
  {
    SumSplit(log, TxGood, TxBad);
    forall k | 0 <= k < |TX_CAUSES| ensures s.causes[k] <= s.errors {
      SumOrdered(log, TxCause(TX_CAUSES[k]), TxBad);
    }
  }

  /** Each cause counter counts the bit its name stands for. */
  lemma RxCausesNamed(s: RxStats, log: seq<Item>)
    requires RxTally(s, log)
    ensures s.causes[MMC_RX_CRC_ERRORS] == Sum(log, RxCause(0x0002))
    ensures s.causes[RX_LATE_COLLISION_ERRORS] == Sum(log, RxCause(0x0040))
    ensures s.causes[MMC_RX_OVERFLOW_ERRORS] == Sum(log, RxCause(0x0800))
    ensures s.causes[RX_DRIBBLE_BIT_ERRORS] == Sum(log, RxCause(0x0004))
    ensures s.causes[RX_LENGTH_ERRORS] == Sum(log, RxCause(0x1000))
  {
    forall k | 0 <= k < |RX_CAUSES| ensures s.causes[k] == Sum(log, RxCause(RX_CAUSES[k])) {
    }
    assert RX_CAUSES == [0x0002, 0x0040, 0x0800, 0x0004, 0x1000];
  }

  lemma TxCausesNamed(s: TxStats, log: seq<Item>)
    requires TxTally(s, log)
    ensures s.causes[TX_JABBER_TIMEOUT_ERRORS] == Sum(log, TxCause(0x4000))
    ensures s.causes[TX_FRAME_FLUSHED_ERRORS] == Sum(log, TxCause(0x2000))
    ensures s.causes[TX_LOSS_OF_CARRIER_ERRORS] == Sum(log, TxCause(0x0800))
    ensures s.causes[TX_NO_CARRIER_ERRORS] == Sum(log, TxCause(0x0400))
    ensures s.causes[TX_LATE_COLLISION_ERRORS] == Sum(log, TxCause(0x0200))
    ensures s.causes[TX_EXCESSIVE_COLLISION_ERRORS] == Sum(log, TxCause(0x0100))
    ensures s.causes[TX_EXCESSIVE_DEFERRAL_ERRORS] == Sum(log, TxCause(0x0004))
    ensures s.causes[TX_UNDERFLOW_ERRORS] == Sum(log, TxCause(0x0002))
    ensures s.causes[TX_IP_HEADER_ERRORS] == Sum(log, TxCause(0x1_0000))
    ensures s.causes[TX_IP_PAYLOAD_ERRORS] == Sum(log, TxCause(0x1000))
  {
    assert TX_CAUSES == [0x4000, 0x2000, 0x0800, 0x0400, 0x0200, 0x0100, 0x0004, 0x0002, 0x1_0000, 0x1000];
  }
}

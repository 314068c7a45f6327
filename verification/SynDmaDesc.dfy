/** The DMA descriptor of the Synopsys GMAC: bit layout, the words the driver
    writes into it, and the words the DMA engine writes back. */
module SynDmaDesc {

  // Status word, both directions.
  const OWN_BY_DMA: bv32 := 0x8000_0000

  // Status word, receive.
  const RX_FRAME_LENGTH_MASK: bv32 := 0x3FFF_0000
  const RX_ERROR: bv32 := 0x0000_8000
  const RX_LENGTH_ERROR: bv32 := 0x0000_1000
  const RX_OVERFLOW: bv32 := 0x0000_0800
  const RX_FIRST: bv32 := 0x0000_0200
  const RX_LAST: bv32 := 0x0000_0100
  const RX_COLLISION: bv32 := 0x0000_0040
  const RX_DRIBBLING: bv32 := 0x0000_0004
  const RX_CRC: bv32 := 0x0000_0002

  // Status word, transmit.
  const TX_INT_ENABLE: bv32 := 0x4000_0000
  const TX_LAST: bv32 := 0x2000_0000
  const TX_FIRST: bv32 := 0x1000_0000
  const TX_CIS_MASK: bv32 := 0x00C0_0000
  const TX_CIS_TCP_PSEUDO: bv32 := 0x00C0_0000
  const TX_END_OF_RING: bv32 := 0x0020_0000
  const TX_IPV4_CHK_ERROR: bv32 := 0x0001_0000
  const TX_ERROR: bv32 := 0x0000_8000
  const TX_TIMEOUT: bv32 := 0x0000_4000
  const TX_FRAME_FLUSHED: bv32 := 0x0000_2000
  const TX_PAY_CHK_ERROR: bv32 := 0x0000_1000
  const TX_LOST_CARRIER: bv32 := 0x0000_0800
  const TX_NO_CARRIER: bv32 := 0x0000_0400
  const TX_LATE_COLLISION: bv32 := 0x0000_0200
  const TX_EXC_COLLISIONS: bv32 := 0x0000_0100
  const TX_COLL_MASK: bv32 := 0x0000_0078
  const TX_EXC_DEFERRAL: bv32 := 0x0000_0004
  const TX_UNDERFLOW: bv32 := 0x0000_0002

  // Length word.
  const RX_END_OF_RING: bv32 := 0x0000_8000
  const SIZE1_MASK: bv32 := 0x0000_1FFF
  const SIZE2_MASK: bv32 := 0x1FFF_0000
  const MAX_DESC_BUFF: bv32 := 0x1FFF

  /** Bits of a transmit status word that belong to the driver (interrupt,
      segment, CRC, padding, checksum, end of ring and chain control).  The
      DMA engine leaves them as they are. */
  const TX_CONTROL: bv32 := 0x7CF0_0000

  /** The eight words of `struct dma_desc`. */
  datatype Desc = Desc(status: bv32, length: bv32, buffer1: bv32, data1: bv32,
                       extstatus: bv32, reserved1: bv32, timestampLow: bv32, timestampHigh: bv32)

  datatype Kind = Rx | Tx

  const ZEROED := Desc(0, 0, 0, 0, 0, 0, 0, 0)

  // ------------------------------------------------------------ predicates

  predicate OwnedByDma(d: Desc) {
    d.status & OWN_BY_DMA == OWN_BY_DMA
  }

  predicate IsEmpty(d: Desc) {
    d.length & SIZE1_MASK == 0
  }

  predicate RxValid(status: bv32) {
    status & (RX_ERROR | RX_FIRST | RX_LAST) == RX_FIRST | RX_LAST
  }

  function RxFrameLength(status: bv32): bv32 {
    (status & RX_FRAME_LENGTH_MASK) >> 16
  }

  function TxCollisionCount(status: bv32): bv32 {
    (status & TX_COLL_MASK) >> 3
  }

  predicate EndOfRing(kind: Kind, d: Desc) {
    match kind
    case Rx => d.length & RX_END_OF_RING != 0
    case Tx => d.status & TX_END_OF_RING != 0
  }

  /** The bits of a status word that the DMA engine reports in. */
  function Report(kind: Kind, status: bv32): bv32 {
    match kind
    case Rx => status & !OWN_BY_DMA
    case Tx => status & !(OWN_BY_DMA | TX_CONTROL)
  }

  function Size1(length: bv32): bv32 { length & 0x1FFF }

  function Size2(length: bv32): bv32 { (length >> 16) & 0x1FFF }

  /** Interrupt, segment and checksum control of a transmit status word. */
  function ControlOf(status: bv32): bv32 { status & 0x70C0_0000 }

  // ------------------------------------------------------------ length word

  /** The length word after the driver has ORed a buffer length into it. */
  function PackLength(word: bv32, len: bv32): bv32 {
    if len > MAX_DESC_BUFF then PackTwo(word, len - MAX_DESC_BUFF) else PackOne(word, len)
  }

  function PackOne(word: bv32, len: bv32): bv32 { word | (len & SIZE1_MASK) }

  function PackTwo(word: bv32, rest: bv32): bv32 {
    (word | (MAX_DESC_BUFF & SIZE1_MASK)) | ((rest << 16) & SIZE2_MASK)
  }

  lemma PackShort(word: bv32, len: bv32)
    requires word & (SIZE1_MASK | SIZE2_MASK) == 0 && len <= MAX_DESC_BUFF
    ensures Size1(PackLength(word, len)) + Size2(PackLength(word, len)) == len
  {
  }

  lemma PackTwoBuffers(word: bv32, len: bv32)
    requires word & (SIZE1_MASK | SIZE2_MASK) == 0 && MAX_DESC_BUFF < len <= 2 * MAX_DESC_BUFF
    ensures Size1(PackLength(word, len)) + Size2(PackLength(word, len)) == len
  {
  }

  lemma SizesBounded(length: bv32)
    ensures Size1(length) + Size2(length) <= 2 * MAX_DESC_BUFF
  {
  }

  /** The two size fields add up to the requested length exactly for the
      lengths two buffers can describe; a longer one is silently truncated. */
  lemma PackExactIff(word: bv32, len: bv32)
    requires word & (SIZE1_MASK | SIZE2_MASK) == 0
    ensures Size1(PackLength(word, len)) + Size2(PackLength(word, len)) == len <==> len <= 2 * MAX_DESC_BUFF
  {
    if len <= MAX_DESC_BUFF {
      PackShort(word, len);
    } else if len <= 2 * MAX_DESC_BUFF {
      PackTwoBuffers(word, len);
    } else {
      SizesBounded(PackLength(word, len));
    }
  }

  // ------------------------------------------------- what the driver writes

  /** Full checksum offload, including the pseudo header. */
  function TcpPseudoChecksum(status: bv32): bv32 {
    (status & !TX_CIS_MASK) | TX_CIS_TCP_PSEUDO
  }

  /** Status word of a whole frame handed to the DMA engine: control bits,
      then checksum control, then ownership. */
  function TxArmedWord(status: bv32, offload: bool): bv32 {
    var s := status | (TX_LAST | TX_FIRST | TX_INT_ENABLE);
    (if offload then TcpPseudoChecksum(s) else s) | OWN_BY_DMA
  }

  function SecondBuffer(buffer: bv32, len: bv32): bv32 {
    if len > MAX_DESC_BUFF then buffer + MAX_DESC_BUFF else 0
  }

  /** Descriptor contents after `syn_dp_set_rx_qptr`. */
  function RxArmed(d: Desc, buffer: bv32, len: bv32): Desc {
    d.(length := PackLength(d.length, len), buffer1 := buffer, data1 := SecondBuffer(buffer, len),
       extstatus := 0, timestampLow := 0, timestampHigh := 0, status := OWN_BY_DMA)
  }

  /** Descriptor contents after `syn_dp_set_tx_qptr`, as called for a whole
      frame. */
  function TxArmed(d: Desc, buffer: bv32, len: bv32, offload: bool): Desc {
    d.(length := PackLength(d.length, len), buffer1 := buffer, data1 := SecondBuffer(buffer, len),
       status := TxArmedWord(d.status, offload))
  }

  function Armed(kind: Kind, d: Desc, buffer: bv32, len: bv32, offload: bool): Desc {
    match kind
    case Rx => RxArmed(d, buffer, len)
    case Tx => TxArmed(d, buffer, len, offload)
  }

  /** Descriptor contents after `syn_dp_reset_rx_qptr` or
      `syn_dp_reset_tx_qptr`. */
  function Cleared(kind: Kind, d: Desc): Desc {
    match kind
    case Rx =>
      d.(status := 0, length := d.length & RX_END_OF_RING, buffer1 := 0, data1 := 0, reserved1 := 0)
    case Tx =>
      d.(status := d.status & TX_END_OF_RING, length := 0, buffer1 := 0, data1 := 0, reserved1 := 0)
  }

  /** The descriptor the ring initialisation leaves in one slot. */
  function Initial(kind: Kind, last: bool): Desc {
    match kind
    case Rx => ZEROED.(length := if last then RX_END_OF_RING else 0)
    case Tx => ZEROED.(status := if last then TX_END_OF_RING else 0)
  }

  // -------------------------------------------- what the DMA engine is told

  /** What a descriptor in use tells the DMA engine, read off its words: bytes in
      and addresses of the two buffers, and on transmit the interrupt, segment
      and checksum control bits. */
  datatype Frame = Frame(size1: bv32, size2: bv32, buffer1: bv32, buffer2: bv32, control: bv32)

  function FrameOf(kind: Kind, d: Desc): Frame {
    Frame(Size1(d.length), Size2(d.length), d.buffer1, d.data1, if kind.Tx? then ControlOf(d.status) else 0)
  }

  /** What it should be told about a buffer of `len` bytes: the first 8191 bytes in
      one buffer, the rest (up to 8191) in a second one right behind it; on
      transmit one whole frame, interrupt on completion, and full checksum
      offload if asked for. */
  function Asked(kind: Kind, buffer: bv32, len: bv32, offload: bool): Frame {
    Frame(FirstBytes(len), SecondBytes(len), buffer, SecondAddress(buffer, len),
          if kind.Rx? then 0 else if offload then 0x70C0_0000 else 0x7000_0000)
  }

  function FirstBytes(len: bv32): bv32 { if len > 0x1FFF then 0x1FFF else len }

  function SecondBytes(len: bv32): bv32 { if len > 0x1FFF then (len - 0x1FFF) & 0x1FFF else 0 }

  function SecondAddress(buffer: bv32, len: bv32): bv32 { if len > 0x1FFF then buffer + 0x1FFF else 0 }

  /** The two addresses and the size of the first buffer, on the words. */
  lemma AskedWords(kind: Kind, d: Desc, buffer: bv32, len: bv32, offload: bool)
    requires FrameOf(kind, d) == Asked(kind, buffer, len, offload)
    ensures d.buffer1 == buffer && d.data1 == SecondAddress(buffer, len)
    ensures Size1(d.length) == FirstBytes(len) && Size2(d.length) == SecondBytes(len)
    ensures kind.Tx? ==> ControlOf(d.status) == if offload then 0x70C0_0000 else 0x7000_0000
  {
    var f, a := FrameOf(kind, d), Asked(kind, buffer, len, offload);
    assert f.size1 == a.size1 && f.size2 == a.size2 && f.control == a.control;
    assert f.buffer1 == a.buffer1 && f.buffer2 == a.buffer2;
  }

  // ------------------------------------------- what the DMA engine writes

  /** The words the DMA engine may write when it gives a descriptor back. */
  datatype Writeback = Writeback(status: bv32, extstatus: bv32, timestampLow: bv32, timestampHigh: bv32)

  /** Write-back clears the ownership bit and reports an arbitrary status; on
      transmit the driver's control bits survive. */
  function WrittenBack(kind: Kind, d: Desc, w: Writeback): Desc {
    match kind
    case Rx =>
      d.(status := w.status & !OWN_BY_DMA, extstatus := w.extstatus,
         timestampLow := w.timestampLow, timestampHigh := w.timestampHigh)
    case Tx =>
      d.(status := (d.status & TX_CONTROL) | (w.status & !(OWN_BY_DMA | TX_CONTROL)),
         timestampLow := w.timestampLow, timestampHigh := w.timestampHigh)
  }

  // -------------------------------------------------- life of one descriptor

  /** A descriptor not in use: only the end-of-ring bit may be set, and it points
      nowhere. */
  predicate Idle(kind: Kind, d: Desc, last: bool) {
    d.buffer1 == 0 && d.data1 == 0 && d.reserved1 == 0 &&
    match kind
    case Rx => d.status == 0 && d.length == if last then RX_END_OF_RING else 0
    case Tx => d.length == 0 && d.status == if last then TX_END_OF_RING else 0
  }

  /** A descriptor in use: the end-of-ring bit is where it belongs and a
      transmit descriptor closes its frame. */
  predicate InUse(kind: Kind, d: Desc, last: bool) {
    && EndOfRing(kind, d) == last
    && (kind.Tx? ==> d.status & TX_LAST != 0)
  }

  lemma InitialIsIdle(kind: Kind, last: bool)
    ensures Idle(kind, Initial(kind, last), last)
  {
  }

  lemma IdleIsAvailable(kind: Kind, d: Desc, last: bool)
    requires Idle(kind, d, last)
    ensures IsEmpty(d) && !OwnedByDma(d) && EndOfRing(kind, d) == last
  {
  }

  // Word-level facts, one mask at a time.

  lemma PackedWordBits(length: bv32, len: bv32)
    requires length == 0 || length == RX_END_OF_RING
    ensures PackLength(length, len) & RX_END_OF_RING == length
  {
  }

  lemma ShortSizes(word: bv32, len: bv32)
    requires (word == 0 || word == RX_END_OF_RING) && len <= MAX_DESC_BUFF
    ensures Size1(PackOne(word, len)) == len && Size2(PackOne(word, len)) == 0
  {
  }

  lemma LongBits(word: bv32, rest: bv32)
    requires word == 0 || word == RX_END_OF_RING
    ensures ((word | (MAX_DESC_BUFF & SIZE1_MASK)) | ((rest << 16) & SIZE2_MASK)) & 0x1FFF == 0x1FFF
    ensures (((word | (MAX_DESC_BUFF & SIZE1_MASK)) | ((rest << 16) & SIZE2_MASK)) >> 16) & 0x1FFF == rest & 0x1FFF
  {
  }

  lemma LongSizes(word: bv32, rest: bv32)
    requires word == 0 || word == RX_END_OF_RING
    ensures Size1(PackTwo(word, rest)) == 0x1FFF && Size2(PackTwo(word, rest)) == rest & 0x1FFF
  {
    LongBits(word, rest);
  }

  lemma PackedSizes(word: bv32, len: bv32)
    requires word == 0 || word == RX_END_OF_RING
    ensures Size1(PackLength(word, len)) == FirstBytes(len) && Size2(PackLength(word, len)) == SecondBytes(len)
  {
    if len > 0x1FFF {
      LongSizes(word, len - MAX_DESC_BUFF);
    } else {
      ShortSizes(word, len);
    }
  }

  lemma TxArmedControl(status: bv32, offload: bool)
    requires status == 0 || status == TX_END_OF_RING
    ensures ControlOf(TxArmedWord(status, offload)) == if offload then 0x70C0_0000 else 0x7000_0000
  {
  }

  lemma TxArmedWordBits(status: bv32, offload: bool)
    requires status == 0 || status == TX_END_OF_RING
    ensures TxArmedWord(status, offload) & OWN_BY_DMA == OWN_BY_DMA
    ensures TxArmedWord(status, offload) & TX_END_OF_RING == status
    ensures TxArmedWord(status, offload) & TX_LAST != 0
    ensures TxArmedWord(status, offload) & (TX_LAST | TX_FIRST | TX_INT_ENABLE) == TX_LAST | TX_FIRST | TX_INT_ENABLE
    ensures TxArmedWord(status, offload) & TX_CIS_MASK == if offload then TX_CIS_TCP_PSEUDO else 0
    ensures Report(Tx, TxArmedWord(status, offload)) == 0
  {
  }

  lemma TxWordOwn(status: bv32, w: bv32)
    ensures ((status & TX_CONTROL) | (w & !(OWN_BY_DMA | TX_CONTROL))) & OWN_BY_DMA == 0
  {
  }

  lemma TxWordControl(status: bv32, w: bv32, mask: bv32)
    requires mask & TX_CONTROL == mask
    ensures ((status & TX_CONTROL) | (w & !(OWN_BY_DMA | TX_CONTROL))) & mask == status & mask
  {
  }

  lemma TxWordReport(status: bv32, w: bv32)
    ensures Report(Tx, (status & TX_CONTROL) | (w & !(OWN_BY_DMA | TX_CONTROL))) == Report(Tx, w)
  {
  }

  lemma RxWordReport(w: bv32)
    ensures (w & !OWN_BY_DMA) & OWN_BY_DMA == 0
    ensures Report(Rx, w & !OWN_BY_DMA) == Report(Rx, w)
  {
  }

  // What the DMA engine is told survives from arming to write-back.

  lemma RxArmFrame(d: Desc, buffer: bv32, len: bv32, last: bool)
    requires Idle(Rx, d, last)
    ensures FrameOf(Rx, RxArmed(d, buffer, len)) == Asked(Rx, buffer, len, false)
  {
    PackedSizes(d.length, len);
  }

  lemma TxArmFrame(d: Desc, buffer: bv32, len: bv32, offload: bool, last: bool)
    requires Idle(Tx, d, last)
    ensures FrameOf(Tx, TxArmed(d, buffer, len, offload)) == Asked(Tx, buffer, len, offload)
  {
    PackedSizes(d.length, len);
    TxArmedControl(d.status, offload);
  }

  lemma WriteBackFrame(kind: Kind, d: Desc, w: Writeback)
    ensures FrameOf(kind, WrittenBack(kind, d, w)) == FrameOf(kind, d)
  {
    TxWordControl(d.status, w.status, 0x70C0_0000);
  }

  // The three transitions of a descriptor.

  lemma RxArmHandsOver(d: Desc, buffer: bv32, len: bv32, last: bool)
    requires Idle(Rx, d, last)
    ensures var d' := RxArmed(d, buffer, len);
            && OwnedByDma(d')
            && InUse(Rx, d', last)
            && FrameOf(Rx, d') == Asked(Rx, buffer, len, false)
            && Report(Rx, d'.status) == 0
            && d'.extstatus == 0 && d'.timestampLow == 0 && d'.timestampHigh == 0
  {
    PackedWordBits(d.length, len);
    RxArmFrame(d, buffer, len, last);
  }

  lemma TxArmHandsOver(d: Desc, buffer: bv32, len: bv32, offload: bool, last: bool)
    requires Idle(Tx, d, last)
    ensures var d' := TxArmed(d, buffer, len, offload);
            && OwnedByDma(d')
            && InUse(Tx, d', last)
            && FrameOf(Tx, d') == Asked(Tx, buffer, len, offload)
            && Report(Tx, d'.status) == 0
  {
    PackedWordBits(d.length, len);
    TxArmedWordBits(d.status, offload);
    TxArmFrame(d, buffer, len, offload, last);
  }

  lemma ArmHandsOver(kind: Kind, d: Desc, buffer: bv32, len: bv32, offload: bool, last: bool)
    requires Idle(kind, d, last)
    ensures var d' := Armed(kind, d, buffer, len, offload);
            && OwnedByDma(d')
            && InUse(kind, d', last)
            && FrameOf(kind, d') == Asked(kind, buffer, len, offload)
            && Report(kind, d'.status) == 0
            && (kind.Rx? ==> d'.extstatus == 0 && d'.timestampLow == 0 && d'.timestampHigh == 0)
  {
    match kind
    case Rx => RxArmHandsOver(d, buffer, len, last);
    case Tx => TxArmHandsOver(d, buffer, len, offload, last);
  }

  lemma WriteBackReturns(kind: Kind, d: Desc, w: Writeback, last: bool)
    requires InUse(kind, d, last)
    ensures var d' := WrittenBack(kind, d, w);
            && !OwnedByDma(d')
            && InUse(kind, d', last)
            && FrameOf(kind, d') == FrameOf(kind, d)
            && Report(kind, d'.status) == Report(kind, w.status)
  {
    WriteBackFrame(kind, d, w);
    match kind
    case Rx =>
      RxWordReport(w.status);
    case Tx =>
      TxWordOwn(d.status, w.status);
      TxWordControl(d.status, w.status, TX_END_OF_RING);
      TxWordControl(d.status, w.status, TX_LAST);
      TxWordReport(d.status, w.status);
  }

  /** On transmit all control bits survive a write-back. */
  lemma WriteBackKeepsControl(d: Desc, w: Writeback)
    ensures WrittenBack(Tx, d, w).status & TX_CONTROL == d.status & TX_CONTROL
  {
    TxWordControl(d.status, w.status, TX_CONTROL);
  }

  lemma ClearReleases(kind: Kind, d: Desc, last: bool)
    requires InUse(kind, d, last)
    ensures Idle(kind, Cleared(kind, d), last)
  {
  }

  lemma MaskOutside(status: bv32, hidden: bv32, mask: bv32)
    requires mask & hidden == 0
    ensures (status & !hidden) & mask == status & mask
  {
  }

  lemma UnionOutside(mask: bv32, a: bv32, b: bv32)
    requires mask & a == 0 && mask & b == 0
    ensures mask & (a | b) == 0
  {
  }

  lemma ReportMask(kind: Kind, status: bv32, mask: bv32)
    requires mask & OWN_BY_DMA == 0
    requires kind.Tx? ==> mask & TX_CONTROL == 0
    ensures Report(kind, status) & mask == status & mask
  {
    match kind
    case Rx =>
      MaskOutside(status, OWN_BY_DMA, mask);
    case Tx =>
      UnionOutside(mask, OWN_BY_DMA, TX_CONTROL);
      MaskOutside(status, OWN_BY_DMA | TX_CONTROL, mask);
  }
}

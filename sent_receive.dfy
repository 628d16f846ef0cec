/**
 * The receive path of the TLE4998 SENT example: the interrupt handler that
 * counts the hardware-reported faults, captures a successfully received
 * frame into the session data, and recomputes the frame's checksum.
 *
 * Hardware reads become parameters: the interrupt status read (and cleared)
 * on entry, the received frame and the checksum the peripheral received.
 * Counters are 32-bit unsigned and an increment wraps as in C.
 */
module SentReceive {
  import opened SentCrc
  import opened SentFrame
  import opened Words

  /** The ten fault flags of the channel interrupt status, each with its own counter. */
  datatype Fault =
    | RxBufferOverflow       // RBI
    | TxBufferUnderflow      // TBI
    | FrequencyRangeError    // FRI
    | FrequencyDriftError    // FDI
    | WrongNibbleCount       // NNI
    | NibbleValueOutOfRange  // NVI
    | CrcError               // CRCI
    | WrongStatusNibble      // WSI
    | SerialCrcError         // SCRI
    | WatchdogError          // WDI

  /** The bitfield view (`.B`) of the channel interrupt status. */
  datatype IntStatus = IntStatus(
    RSI: bool, RDI: bool, RBI: bool, TDI: bool, TBI: bool, FRI: bool, FDI: bool,
    NNI: bool, NVI: bool, CRCI: bool, WSI: bool, SDI: bool, SCRI: bool, WDI: bool)
  {
    /** The flag that reports `f`. */
    predicate Raised(f: Fault) {
      match f
      case RxBufferOverflow => RBI
      case TxBufferUnderflow => TBI
      case FrequencyRangeError => FRI
      case FrequencyDriftError => FDI
      case WrongNibbleCount => NNI
      case NibbleValueOutOfRange => NVI
      case CrcError => CRCI
      case WrongStatusNibble => WSI
      case SerialCrcError => SCRI
      case WatchdogError => WDI
    }

    /** `interruptStatus.U != 0`: some flag is set. */
    predicate AnySet() {
      RSI || RDI || RBI || TDI || TBI || FRI || FDI || NNI || NVI || CRCI || WSI || SDI || SCRI || WDI
    }

    /** `interruptStatus.U & IFXSENT_INTERRUPT_STATUS_ERROR_FLAGS`: some fault flag is set. */
    predicate AnyError() {
      RBI || TBI || FRI || FDI || NNI || NVI || CRCI || WSI || SCRI || WDI
    }
  }

  /** The SentErrorCounters struct: one 32-bit counter per fault. */
  datatype SentErrorCounters = SentErrorCounters(
    RBI: uint32, TBI: uint32, FRI: uint32, FDI: uint32, NNI: uint32,
    NVI: uint32, CRCI: uint32, WSI: uint32, SCRI: uint32, WDI: uint32)
  {
    /** The counter of fault `f`. */
    function Count(f: Fault): uint32 {
      match f
      case RxBufferOverflow => RBI
      case TxBufferUnderflow => TBI
      case FrequencyRangeError => FRI
      case FrequencyDriftError => FDI
      case WrongNibbleCount => NNI
      case NibbleValueOutOfRange => NVI
      case CrcError => CRCI
      case WrongStatusNibble => WSI
      case SerialCrcError => SCRI
      case WatchdogError => WDI
    }

    /** `g_errorCounters.X++` for the counter X of fault `f`. */
    function Bumped(f: Fault): SentErrorCounters {
      match f
      case RxBufferOverflow => this.(RBI := Inc32(RBI))
      case TxBufferUnderflow => this.(TBI := Inc32(TBI))
      case FrequencyRangeError => this.(FRI := Inc32(FRI))
      case FrequencyDriftError => this.(FDI := Inc32(FDI))
      case WrongNibbleCount => this.(NNI := Inc32(NNI))
      case NibbleValueOutOfRange => this.(NVI := Inc32(NVI))
      case CrcError => this.(CRCI := Inc32(CRCI))
      case WrongStatusNibble => this.(WSI := Inc32(WSI))
      case SerialCrcError => this.(SCRI := Inc32(SCRI))
      case WatchdogError => this.(WDI := Inc32(WDI))
    }
  }

  /** `g_errorCounters = {0}`. */
  const NoErrors := SentErrorCounters(0, 0, 0, 0, 0, 0, 0, 0, 0, 0)

  /** The counter of `f` bumped if `raised`, as one `if` of the handler does. */
  function BumpIf(c: SentErrorCounters, raised: bool, f: Fault): SentErrorCounters {
    if raised then c.Bumped(f) else c
  }

  /** The counters after the handler's pass over the ten fault flags, in its order. */
  function Tallied(c: SentErrorCounters, status: IntStatus): SentErrorCounters {
    var c0 := BumpIf(c, status.RBI, RxBufferOverflow);
    var c1 := BumpIf(c0, status.TBI, TxBufferUnderflow);
    var c2 := BumpIf(c1, status.FRI, FrequencyRangeError);
    var c3 := BumpIf(c2, status.FDI, FrequencyDriftError);
    var c4 := BumpIf(c3, status.NNI, WrongNibbleCount);
    var c5 := BumpIf(c4, status.NVI, NibbleValueOutOfRange);
    var c6 := BumpIf(c5, status.CRCI, CrcError);
    var c7 := BumpIf(c6, status.WSI, WrongStatusNibble);
    var c8 := BumpIf(c7, status.SCRI, SerialCrcError);
    BumpIf(c8, status.WDI, WatchdogError)
  }

  /** Bumping one counter leaves every other counter as it was. */
  lemma BumpIfCount(c: SentErrorCounters, raised: bool, f: Fault, g: Fault)
    ensures BumpIf(c, raised, f).Count(g) == if raised && g == f then Inc32(c.Count(g)) else c.Count(g)
  {
  }

  /** The fault flags in the order the handler tests them. */
  const HandlerOrder: seq<Fault> := [
    RxBufferOverflow, TxBufferUnderflow, FrequencyRangeError, FrequencyDriftError,
    WrongNibbleCount, NibbleValueOutOfRange, CrcError, WrongStatusNibble,
    SerialCrcError, WatchdogError]

  /** The counters after testing the flags of `faults` one by one, first to last. */
  function TallyOver(c: SentErrorCounters, status: IntStatus, faults: seq<Fault>): SentErrorCounters
    decreases |faults|
  {
    if faults == [] then c
    else TallyOver(BumpIf(c, status.Raised(faults[0]), faults[0]), status, faults[1..])
  }

  predicate NoDuplicates(faults: seq<Fault>) {
    forall i, j :: 0 <= i < j < |faults| ==> faults[i] != faults[j]
  }

  /**
   * Over a list that names each fault at most once, a counter is bumped
   * exactly when its fault is listed and its flag is set.
   */
  lemma {:induction false} TallyOverCount(c: SentErrorCounters, status: IntStatus, faults: seq<Fault>, f: Fault)
    requires NoDuplicates(faults)
    ensures TallyOver(c, status, faults).Count(f)
         == if f in faults && status.Raised(f) then Inc32(c.Count(f)) else c.Count(f)
    decreases |faults|
  {
    if faults != [] {
      var g, rest := faults[0], faults[1..];
      assert NoDuplicates(rest) by {
        forall i, j | 0 <= i < j < |rest| ensures rest[i] != rest[j] {
          assert rest[i] == faults[i + 1] && rest[j] == faults[j + 1];
        }
      }
      assert f in faults <==> f == g || f in rest;
      assert g !in rest by {
        forall i | 0 <= i < |rest| ensures rest[i] != g {
          assert rest[i] == faults[i + 1];
        }
      }
      TallyOverCount(BumpIf(c, status.Raised(g), g), status, rest, f);
      BumpIfCount(c, status.Raised(g), g, f);
    }
  }

  /** The handler tests every fault flag ... */
  lemma HandlerOrderComplete(f: Fault)
    ensures f in HandlerOrder
  {
  }

  /** ... and each of them once. */
  lemma HandlerOrderDistinct()
    ensures NoDuplicates(HandlerOrder)
  {
  }

  /** Tallied is the pass over the handler's order. */
  lemma TalliedIsPass(c: SentErrorCounters, status: IntStatus)
    ensures Tallied(c, status) == TallyOver(c, status, HandlerOrder)
  {
    var o := HandlerOrder;
    assert o[1..] == [TxBufferUnderflow, FrequencyRangeError, FrequencyDriftError, WrongNibbleCount, NibbleValueOutOfRange, CrcError, WrongStatusNibble, SerialCrcError, WatchdogError];
    assert o[2..] == [FrequencyRangeError, FrequencyDriftError, WrongNibbleCount, NibbleValueOutOfRange, CrcError, WrongStatusNibble, SerialCrcError, WatchdogError];
    assert o[3..] == [FrequencyDriftError, WrongNibbleCount, NibbleValueOutOfRange, CrcError, WrongStatusNibble, SerialCrcError, WatchdogError];
    assert o[4..] == [WrongNibbleCount, NibbleValueOutOfRange, CrcError, WrongStatusNibble, SerialCrcError, WatchdogError];
    assert o[5..] == [NibbleValueOutOfRange, CrcError, WrongStatusNibble, SerialCrcError, WatchdogError];
    assert o[6..] == [CrcError, WrongStatusNibble, SerialCrcError, WatchdogError];
    assert o[7..] == [WrongStatusNibble, SerialCrcError, WatchdogError];
    assert o[8..] == [SerialCrcError, WatchdogError];
    assert o[9..] == [WatchdogError];
    assert o[10..] == [];
  }

  /**
   * Each set fault flag bumps exactly its own counter by one (modulo 2^32);
   * the counter of every flag that is clear keeps its value.
   */
  lemma TalliedCount(c: SentErrorCounters, status: IntStatus, f: Fault)
    ensures Tallied(c, status).Count(f) == if status.Raised(f) then Inc32(c.Count(f)) else c.Count(f)
  {
    TalliedIsPass(c, status);
    HandlerOrderComplete(f);
    HandlerOrderDistinct();
    TallyOverCount(c, status, HandlerOrder, f);
  }

  /** A counter changes exactly when its flag is set, whatever the other flags. */
  lemma TalliedChanges(c: SentErrorCounters, status: IntStatus)
    ensures forall f :: Tallied(c, status).Count(f) != c.Count(f) <==> status.Raised(f)
  {
    forall f ensures Tallied(c, status).Count(f) != c.Count(f) <==> status.Raised(f) {
      TalliedCount(c, status, f);
    }
  }

  /** An event reporting a frequency drift and a checksum error bumps exactly those two counters. */
  lemma DriftAndCrcErrorScenario(c: SentErrorCounters, status: IntStatus)
    requires status == IntStatus(false, false, false, false, false, false, true,
                                 false, false, true, false, false, false, false)
    ensures Tallied(c, status).FDI == Inc32(c.FDI) && Tallied(c, status).CRCI == Inc32(c.CRCI)
    ensures forall f :: f != FrequencyDriftError && f != CrcError ==> Tallied(c, status).Count(f) == c.Count(f)
  {
    TalliedCount(c, status, FrequencyDriftError);
    TalliedCount(c, status, CrcError);
    forall f | f != FrequencyDriftError && f != CrcError
      ensures Tallied(c, status).Count(f) == c.Count(f)
    {
      TalliedCount(c, status, f);
    }
  }

  /** Without any fault flag, no counter changes. */
  lemma NoFaultNoChange(c: SentErrorCounters, status: IntStatus)
    requires !status.AnyError()
    ensures Tallied(c, status) == c
  {
  }

  /** The global g_errorCounters, updated in place by the interrupt handler. */
  class ErrorCounters {
    var counters: SentErrorCounters

    constructor ()
      ensures counters == NoErrors
    {
      counters := NoErrors;
    }

    /** One `if (interruptStatus.B.X) g_errorCounters.X++;` of the handler. */
    method CountFault(raised: bool, f: Fault)
      modifies this
      ensures counters == BumpIf(old(counters), raised, f)
    {
      if raised {
        counters := counters.Bumped(f);
      }
    }

    /** The error branch of interruptHandlerSENT. */
    method Tally(status: IntStatus)
      modifies this
      ensures counters == Tallied(old(counters), status)
    {
      CountFault(status.RBI, RxBufferOverflow);
      CountFault(status.TBI, TxBufferUnderflow);
      CountFault(status.FRI, FrequencyRangeError);
      CountFault(status.FDI, FrequencyDriftError);
      CountFault(status.NNI, WrongNibbleCount);
      CountFault(status.NVI, NibbleValueOutOfRange);
      CountFault(status.CRCI, CrcError);
      CountFault(status.WSI, WrongStatusNibble);
      CountFault(status.SCRI, SerialCrcError);
      CountFault(status.WDI, WatchdogError);
    }
  }

  /** An array holding the canonical message's nibbles one by one holds the canonical message. */
  lemma FilledMessage(a: array<bv8>, status: Nibble, raw: bv32)
    requires a.Length == CrcNibbles
    requires a[0] == status && a[1] == NibbleAt(raw, 3) && a[2] == NibbleAt(raw, 2)
    requires a[3] == NibbleAt(raw, 1) && a[4] == NibbleAt(raw, 0)
    requires a[5] == NibbleAt(raw, 5) && a[6] == NibbleAt(raw, 4)
    ensures a[..CrcNibbles] == CanonicalMessage(status, raw)
  {
    assert a[..CrcNibbles] == a[..];
  }

  /** DataTle4998 g_dataTle4998: the session's last frame, its checksums and frame counts. */
  class SentData {
    var sentRawData: bv32
    var sentStatus: Nibble
    var OUT16: bv16
    var TEMP8: bv8
    var sentCrcReceived: bv8
    var sentCrcCalculated: bv8
    var interruptCounter: uint32
    var interruptCounterChannel: uint32

    /** A global of static storage duration starts out all zero. */
    constructor ()
      ensures sentRawData == 0 && sentStatus == 0 && OUT16 == 0 && TEMP8 == 0
      ensures sentCrcReceived == 0 && sentCrcCalculated == 0
      ensures interruptCounter == 0 && interruptCounterChannel == 0
    {
      sentRawData, sentStatus, OUT16, TEMP8 := 0, 0, 0, 0;
      sentCrcReceived, sentCrcCalculated := 0, 0;
      interruptCounter, interruptCounterChannel := 0, 0;
    }

    /**
     * crcCalculation: stores the checksum the peripheral received and the
     * checksum recomputed over the captured status nibble and data nibbles
     * in the sensor's order; nothing else changes.
     */
    method CrcCalculation(receivedCrc: bv8)
      modifies this
      ensures sentCrcReceived == receivedCrc
      ensures sentCrcCalculated == CrcOf(CanonicalMessage(sentStatus, sentRawData))
      ensures sentRawData == old(sentRawData) && sentStatus == old(sentStatus)
      ensures OUT16 == old(OUT16) && TEMP8 == old(TEMP8)
      ensures interruptCounter == old(interruptCounter)
      ensures interruptCounterChannel == old(interruptCounterChannel)
    {
      var receivedData := new bv8[CrcNibbles];
      sentCrcReceived := receivedCrc;
      var status, raw := sentStatus, sentRawData;
      receivedData[0] := status;
      receivedData[1] := NibbleAt(raw, 3);
      receivedData[2] := NibbleAt(raw, 2);
      receivedData[3] := NibbleAt(raw, 1);
      receivedData[4] := NibbleAt(raw, 0);
      receivedData[5] := NibbleAt(raw, 5);
      receivedData[6] := NibbleAt(raw, 4);
      FilledMessage(receivedData, status, raw);
      sentCrcCalculated := CalculateCrc(receivedData, CrcNibbles as bv8);
    }
  }

  /**
   * interruptHandlerSENT: every set fault flag bumps its own counter by one
   * and no other counter changes; on receive success (RSI) the frame is
   * captured, its checksum recomputed and both frame counters bumped by
   * one, and without RSI the session data is left as it was.
   */
  method InterruptHandler(sent: SentData, errors: ErrorCounters, status: IntStatus,
                          frame: Frame, receivedCrc: bv8)
    modifies sent, errors
    ensures errors.counters == Tallied(old(errors.counters), status)
    ensures forall f :: errors.counters.Count(f)
              == if status.Raised(f) then Inc32(old(errors.counters).Count(f)) else old(errors.counters).Count(f)
    ensures status.RSI ==>
      && sent.sentRawData == frame.data
      && sent.sentStatus == frame.statusNibble
      && sent.OUT16 == Out16(frame.data)
      && sent.TEMP8 == Temp8(frame.data)
      && sent.sentCrcReceived == receivedCrc
      && sent.sentCrcCalculated == CrcOf(CanonicalMessage(frame.statusNibble, frame.data))
      && sent.interruptCounter == Inc32(old(sent.interruptCounter))
      && sent.interruptCounterChannel == Inc32(old(sent.interruptCounterChannel))
    ensures !status.RSI ==> unchanged(sent)
    ensures !status.AnySet() ==> errors.counters == old(errors.counters)
  {
    if !status.AnySet() {
      NoFaultNoChange(errors.counters, status);
    }
    if status.AnySet() {
      if status.AnyError() {
        errors.Tally(status);
      } else {
        NoFaultNoChange(errors.counters, status);
      }
      forall f ensures errors.counters.Count(f)
          == if status.Raised(f) then Inc32(old(errors.counters).Count(f)) else old(errors.counters).Count(f)
      {
        TalliedCount(old(errors.counters), status, f);
      }
      if status.RSI {
        sent.sentRawData := frame.data;
        sent.sentStatus := frame.statusNibble;
        sent.OUT16 := Out16(frame.data);
        sent.TEMP8 := Temp8(frame.data);
        sent.CrcCalculation(receivedCrc);
        sent.interruptCounter := Inc32(sent.interruptCounter);
        sent.interruptCounterChannel := Inc32(sent.interruptCounterChannel);
      }
    }
  }
}

/**
 * The integer side of the KP467 pressure-sensor example: the parity check
 * on the 16-bit words the sensor returns over SPI, the accept/reject rule
 * and reading counter of the three resolution-specific reads, the bit
 * fields taken out of an accepted word, and the byte order of an SPI word.
 *
 * C `uint16_t` and `uint8_t` values are `bv16` and `bv8`; the SPI traffic
 * itself is replaced by the words it delivers, passed as parameters.
 */
module Kp467 {
  import opened Words

  /** CMD_SENSOR_ID. */
  const SensorIdCommand: bv16 := 0xE000

  /** CMD_DUMMY. */
  const DummyCommand: bv16 := 0x0000

  /** The three measurement resolutions, each with its own commands and word layout. */
  datatype Resolution = Bits10 | Bits12 | Bits14
  {
    /** CMD_PRESSURE_10BIT, CMD_PRESSURE_12BIT, CMD_PRESSURE_14BIT. */
    function PressureCommand(): bv16 {
      match this
      case Bits10 => 0x2000
      case Bits12 => 0x2400
      case Bits14 => 0x2800
    }

    /** CMD_TEMPERATURE_10BIT, CMD_TEMPERATURE_12BIT, CMD_TEMPERATURE_14BIT. */
    function TemperatureCommand(): bv16 {
      match this
      case Bits10 => 0x4000
      case Bits12 => 0x4400
      case Bits14 => 0x4800
    }

    /** Bits in the measurement field. */
    function FieldWidth(): bv8 {
      match this
      case Bits10 => 10
      case Bits12 => 12
      case Bits14 => 14
    }

    /** The mask the conversion applies after dropping the parity bit. */
    function FieldMask(): bv16 {
      match this
      case Bits10 => 0x3FF
      case Bits12 => 0xFFF
      case Bits14 => 0x3FFF
    }

    /** Where the DIAG bits start in the pressure word. */
    function DiagShift(): bv8 {
      match this
      case Bits10 => 11
      case Bits12 => 13
      case Bits14 => 15
    }

    /** The mask applied to the DIAG bits. */
    function DiagMask(): bv16 {
      match this
      case Bits10 => 0x1F
      case Bits12 => 0x7
      case Bits14 => 0x1
    }
  }

  /** The commands one read sends, in order: ID, pressure, temperature, dummy. */
  function Commands(res: Resolution): (cmds: seq<bv16>)
    ensures |cmds| == 4
  {
    [SensorIdCommand, res.PressureCommand(), res.TemperatureCommand(), DummyCommand]
  }

  /**
   * The four commands of a read are pairwise different, and each
   * resolution sends its own pressure and temperature commands.
   */
  lemma CommandsIdentifyRead(r1: Resolution, r2: Resolution)
    ensures forall i, j :: 0 <= i < j < 4 ==> Commands(r1)[i] != Commands(r1)[j]
    ensures r1.PressureCommand() == r2.PressureCommand() ==> r1 == r2
    ensures r1.TemperatureCommand() == r2.TemperatureCommand() ==> r1 == r2
  {
  }

  /**
   * The word the sensor returns for command `cmd` of a read. An SPI word
   * clocked in answers the command sent before it, so the answer to
   * command k of Commands(res) is `replies[k + 1]`, where `replies[i]` is
   * the word received while command i goes out.
   */
  function ReplyTo(res: Resolution, replies: seq<bv16>, cmd: bv16): (w: bv16)
    requires |replies| == |Commands(res)|
    requires cmd == Commands(res)[0] || cmd == Commands(res)[1] || cmd == Commands(res)[2]
    ensures || (Commands(res)[0] == cmd && w == replies[1])
            || (Commands(res)[1] == cmd && w == replies[2])
            || (Commands(res)[2] == cmd && w == replies[3])
  {
    var cmds := Commands(res);
    if cmds[0] == cmd then replies[1] else if cmds[1] == cmd then replies[2] else replies[3]
  }

  /**
   * Because the four commands of a read are pairwise different, the ID,
   * pressure and temperature words are replies 1, 2 and 3.
   */
  lemma RepliesOfRead(res: Resolution, replies: seq<bv16>)
    requires |replies| == |Commands(res)|
    ensures ReplyTo(res, replies, SensorIdCommand) == replies[1]
    ensures ReplyTo(res, replies, res.PressureCommand()) == replies[2]
    ensures ReplyTo(res, replies, res.TemperatureCommand()) == replies[3]
  {
    CommandsIdentifyRead(res, res);
  }

  // Parity

  /** Bit i of a word, as `(w >> i) & 0x01`. */
  function Bit(w: bv16, i: bv8): (b: bv16)
    requires i < 16
    ensures b <= 1
  {
    (w >> i) & 1
  }

  /** The number of set bits among bits 0..n-1 of `w`. */
  function OnesBelow(w: bv16, n: bv8): nat
    requires n <= 16
    decreases n
  {
    if n == 0 then 0 else OnesBelow(w, n - 1) + Bit(w, n - 1) as int
  }

  /** The loop bound of check_parity: bits 0..14 are counted, bit 15 is not. */
  const ParityBits: bv8 := 15

  /** The parity of bits 0..14: 1 when an odd number of them is set. */
  function Parity(w: bv16): (p: bv8)
    ensures p <= 1
  {
    if OnesBelow(w, ParityBits) % 2 == 1 then 1 else 0
  }

  /** check_parity: counts the set bits among bits 0..14 and returns the count modulo 2. */
  method CheckParity(dataWord: bv16) returns (p: bv8)
    ensures p == Parity(dataWord)
  {
    var count: nat := 0;
    var i: bv8 := 0;
    while i < 15
      invariant i <= 15
      invariant count == OnesBelow(dataWord, i)
    {
      count := count + Bit(dataWord, i) as int;
      i := i + 1;
    }
    p := (count % 2) as bv8;
  }

  /** Words whose bits below n agree have as many set bits below n. */
  lemma {:induction false} SameBitsSameCount(w1: bv16, w2: bv16, n: bv8)
    requires n <= 16
    requires forall i: bv8 :: i < n ==> Bit(w1, i) == Bit(w2, i)
    ensures OnesBelow(w1, n) == OnesBelow(w2, n)
    decreases n
  {
    if n > 0 {
      SameBitsSameCount(w1, w2, n - 1);
    }
  }

  /** XOR with `1 << k` flips bit k and no other. */
  lemma FlipOneBit(w: bv16, k: bv8, j: bv8)
    requires k < 16 && j < 16
    ensures Bit(w ^ (1 << k), j) == if j == k then 1 - Bit(w, j) else Bit(w, j)
  {
  }

  /** Flipping bit k below n changes the count below n by exactly one. */
  lemma {:induction false} FlipChangesCount(w: bv16, k: bv8, n: bv8)
    requires k < n <= 16
    ensures OnesBelow(w ^ (1 << k), n)
         == if Bit(w, k) == 1 then OnesBelow(w, n) - 1 else OnesBelow(w, n) + 1
    decreases n
  {
    var j := n - 1;
    FlipOneBit(w, k, j);
    if j == k {
      forall i: bv8 | i < k
        ensures Bit(w, i) == Bit(w ^ (1 << k), i)
      {
        FlipOneBit(w, k, i);
      }
      SameBitsSameCount(w, w ^ (1 << k), k);
    } else {
      FlipChangesCount(w, k, j);
    }
  }

  /** A count that moves by one changes its parity. */
  lemma StepFlipsParity(before: nat, after: nat)
    requires after == before + 1 || after + 1 == before
    ensures after % 2 != before % 2
  {
  }

  /** Bit 15 never affects the parity. */
  lemma ParityIgnoresBit15(w: bv16)
    ensures Parity(w ^ 0x8000) == Parity(w)
  {
    forall i: bv8 | i < ParityBits
      ensures Bit(w ^ 0x8000, i) == Bit(w, i)
    {
    }
    SameBitsSameCount(w ^ 0x8000, w, ParityBits);
  }

  /** Every single-bit error in bits 0..14 flips the parity, so it is detected. */
  lemma SingleBitErrorDetected(w: bv16, k: bv8)
    requires k < ParityBits
    ensures Parity(w ^ (1 << k)) != Parity(w)
  {
    var before, after := OnesBelow(w, ParityBits), OnesBelow(w ^ (1 << k), ParityBits);
    assert after == before + 1 || after + 1 == before by {
      FlipChangesCount(w, k, ParityBits);
    }
    StepFlipsParity(before, after);
  }

  // Fields of an accepted word

  /** `(raw >> 1) & mask`: the measurement field, with the parity bit dropped. */
  function MeasurementField(res: Resolution, raw: bv16): (v: bv16)
    ensures v < 1 << res.FieldWidth()
  {
    (raw >> 1) & res.FieldMask()
  }

  /** `(pressure_raw >> shift) & mask`: the DIAG bits of a pressure word. */
  function Diag(res: Resolution, raw: bv16): (d: bv8)
    ensures (d as bv16) < 1 << (16 - res.DiagShift())
  {
    ((raw >> res.DiagShift()) & res.DiagMask()) as bv8
  }

  /** DIAG is the top of the word: the mask only repeats what the shift already does. */
  lemma DiagIsTop(res: Resolution, raw: bv16)
    ensures Diag(res, raw) as bv16 == raw >> res.DiagShift()
  {
    match res
    case Bits10 =>
    case Bits12 =>
    case Bits14 =>
  }

  /**
   * A word is DIAG bits on top, the measurement field below them and the
   * parity bit at the bottom, with no gaps: the word is rebuilt from the
   * three.
   */
  lemma WordLayout(res: Resolution, raw: bv16)
    ensures res.DiagShift() == res.FieldWidth() + 1
    ensures raw == ((Diag(res, raw) as bv16) << res.DiagShift()) | (MeasurementField(res, raw) << 1) | (raw & 1)
  {
    DiagIsTop(res, raw);
    SplitAt(raw, res.DiagShift(), res.FieldMask());
  }

  /** A word cut at bit s and at bit 0 is its top, its middle s - 1 bits and its bottom bit. */
  lemma SplitAt(raw: bv16, s: bv8, mask: bv16)
    requires 1 <= s <= 16 && mask == (1 << (s - 1)) - 1
    ensures raw == ((raw >> s) << s) | (((raw >> 1) & mask) << 1) | (raw & 1)
  {
  }

  /** Any DIAG value, field value and parity bit that fit are read back from the word they make. */
  lemma FieldsRoundTrip(res: Resolution, diag: bv16, value: bv16, parity: bv16)
    requires diag < 1 << (16 - res.DiagShift())
    requires value < 1 << res.FieldWidth()
    requires parity <= 1
    ensures var raw := (diag << res.DiagShift()) | (value << 1) | parity;
      && Diag(res, raw) as bv16 == diag
      && MeasurementField(res, raw) == value
      && raw & 1 == parity
  {
  }

  /** The parity bit never changes a field. */
  lemma FieldsIgnoreParityBit(res: Resolution, raw: bv16)
    ensures MeasurementField(res, raw ^ 1) == MeasurementField(res, raw)
    ensures Diag(res, raw ^ 1) == Diag(res, raw)
  {
  }

  /** `(n_phase2_readings >> 1) & 0x7FFF`: the phase-2 reading count without its parity bit. */
  function PhaseTwoCount(n: bv16): (count: bv16)
    ensures count <= 0x7FFF
  {
    (n >> 1) & 0x7FFF
  }

  /** The mask is redundant: the count is the word shifted right by one. */
  lemma PhaseTwoCountIsShift(n: bv16)
    ensures PhaseTwoCount(n) == n >> 1
    ensures PhaseTwoCount(n ^ 1) == PhaseTwoCount(n)
  {
  }

  // SPI byte order

  /** `{ cmd >> 8, cmd & 0xFF }`: the two bytes sent, high byte first. */
  function SplitWord(w: bv16): (bytes: (bv8, bv8)) {
    ((w >> 8) as bv8, (w & 0xFF) as bv8)
  }

  /** `(rx[0] << 8) | rx[1]`: the word received, high byte first. */
  function JoinBytes(hi: bv8, lo: bv8): bv16 {
    ((hi as bv16) << 8) | (lo as bv16)
  }

  /** Splitting then joining gives the word back. */
  lemma JoinSplit(w: bv16)
    ensures JoinBytes(SplitWord(w).0, SplitWord(w).1) == w
  {
  }

  /** Joining then splitting gives the bytes back. */
  lemma SplitJoin(hi: bv8, lo: bv8)
    ensures SplitWord(JoinBytes(hi, lo)) == (hi, lo)
  {
  }

  // Reads

  /**
   * What a read reports: a measurement (the integer fields the conversions
   * start from) or a parity error, each under the running index.
   */
  datatype Reading =
    | Measurement(index: uint32, id: bv16, pressureRaw: bv16, tempRaw: bv16,
                  pressure: bv16, temperature: bv16, diag: bv8)
    | ParityError(index: uint32)

  /** The caller's `uint32_t` reading counter that each read advances through its pointer. */
  class ReadingCounter {
    var counter: uint32

    constructor (start: uint32)
      ensures counter == start
    {
      counter := start;
    }

    /**
     * read_sensor_10bit / _12bit / _14bit. `replies[i]` is the word the
     * sensor clocks back while `Commands(res)[i]` goes out; the ID, the
     * pressure word and the temperature word are the replies to the ID,
     * pressure and temperature commands, and reply 0 is discarded.
     * The reading is accepted only when both the pressure and the
     * temperature word have parity 1; either way it carries the counter's
     * old value and the counter advances by one.
     */
    method ReadSensor(res: Resolution, replies: seq<bv16>) returns (r: Reading)
      requires |replies| == |Commands(res)|
      modifies this
      ensures counter == Inc32(old(counter))
      ensures r.index == old(counter)
      ensures var pressureRaw := ReplyTo(res, replies, res.PressureCommand());
              var tempRaw := ReplyTo(res, replies, res.TemperatureCommand());
        && (r.Measurement? <==> Parity(pressureRaw) == 1 && Parity(tempRaw) == 1)
        && (r.Measurement? ==>
          && r.id == ReplyTo(res, replies, SensorIdCommand)
          && r.pressureRaw == pressureRaw && r.tempRaw == tempRaw
          && r.pressure == MeasurementField(res, pressureRaw)
          && r.temperature == MeasurementField(res, tempRaw)
          && r.diag == Diag(res, pressureRaw))
    {
      RepliesOfRead(res, replies);
      var id, pressureRaw, tempRaw := replies[1], replies[2], replies[3];
      var accepted := false;
      var pressureOk := CheckParity(pressureRaw);
      if pressureOk != 0 {
        var tempOk := CheckParity(tempRaw);
        accepted := tempOk != 0;
      }
      if accepted {
        r := Measurement(counter, id, pressureRaw, tempRaw,
          MeasurementField(res, pressureRaw), MeasurementField(res, tempRaw), Diag(res, pressureRaw));
      } else {
        r := ParityError(counter);
      }
      counter := Inc32(counter);
    }
  }
}

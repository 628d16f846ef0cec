/**
 * What the SENT interrupt handler extracts from a received fast-channel
 * frame: the raw data word, the 16-bit and 8-bit payload fields, and the
 * 7-nibble message in the TLE4998's own order that the checksum covers.
 *
 * Nibble k of the raw data word is taken to be bits 4k..4k+3; the bitfield
 * layout is declared in a header that is not part of this model.
 */
module SentFrame {
  import opened SentCrc

  /** The two fields of a received frame that the handler reads. */
  datatype Frame = Frame(data: bv32, statusNibble: Nibble)

  /** `sentRawData.B.nibbleK`. */
  function NibbleAt(data: bv32, k: bv8): (n: Nibble)
    requires k < 8
  {
    ((data >> (4 * k)) & 0xF) as bv8
  }

  /** OUT16: the assignment of the 32-bit data word to a 16-bit field keeps its low half. */
  function Out16(data: bv32): bv16 {
    (data & 0xFFFF) as bv16
  }

  /** TEMP8: `data >> 16`, truncated to the 8-bit field. */
  function Temp8(data: bv32): bv8 {
    ((data >> 16) & 0xFF) as bv8
  }

  /**
   * The message crcCalculation hands to the checksum:
   * status, nibble3, nibble2, nibble1, nibble0, nibble5, nibble4.
   */
  function CanonicalMessage(status: Nibble, data: bv32): (m: seq<bv8>)
    ensures |m| == CrcNibbles && AllNibbles(m)
    ensures m[0] == status
  {
    [status, NibbleAt(data, 3), NibbleAt(data, 2), NibbleAt(data, 1),
     NibbleAt(data, 0), NibbleAt(data, 5), NibbleAt(data, 4)]
  }

  /** Where data nibble k sits in the canonical message. */
  function MessagePosition(k: bv8): (p: nat)
    requires k < 6
    ensures 1 <= p < CrcNibbles
    ensures NibbleIndex(p) == k
  {
    if k == 0 then 4 else if k == 1 then 3 else if k == 2 then 2
    else if k == 3 then 1 else if k == 4 then 6 else 5
  }

  /** Which data nibble sits at position p (1..6) of the canonical message. */
  function NibbleIndex(p: nat): (k: bv8)
    requires 1 <= p < CrcNibbles
    ensures k < 6
  {
    if p == 1 then 3 else if p == 2 then 2 else if p == 3 then 1
    else if p == 4 then 0 else if p == 5 then 5 else 4
  }

  /** Reassembles the 24-bit data word from a canonical message. */
  function MessageData(m: seq<bv8>): (data: bv32)
    requires |m| == CrcNibbles && AllNibbles(m)
    ensures data < 0x100_0000
  {
    (m[4] as bv32) | ((m[3] as bv32) << 4) | ((m[2] as bv32) << 8) | ((m[1] as bv32) << 12)
      | ((m[6] as bv32) << 16) | ((m[5] as bv32) << 20)
  }

  /** The canonical message loses nothing of a 24-bit frame. */
  lemma CanonicalMessageRoundTrip(status: Nibble, data: bv32)
    requires data < 0x100_0000
    ensures MessageData(CanonicalMessage(status, data)) == data
  {
  }

  /** Six nibbles packed four bits apart can be read back one by one. */
  lemma PackedNibbles(n0: bv32, n1: bv32, n2: bv32, n3: bv32, n4: bv32, n5: bv32)
    requires n0 < 16 && n1 < 16 && n2 < 16 && n3 < 16 && n4 < 16 && n5 < 16
    ensures var d := n0 | (n1 << 4) | (n2 << 8) | (n3 << 12) | (n4 << 16) | (n5 << 20);
      d & 0xF == n0 && (d >> 4) & 0xF == n1 && (d >> 8) & 0xF == n2 && (d >> 12) & 0xF == n3
      && (d >> 16) & 0xF == n4 && (d >> 20) & 0xF == n5
  {
  }

  lemma Widened(x: bv8)
    ensures (x as bv32) as bv8 == x
  {
  }

  /** Position p (1..6) of a message is data nibble NibbleIndex(p) of the reassembled word. */
  lemma MessageDataNibble(m: seq<bv8>, p: nat)
    requires |m| == CrcNibbles && AllNibbles(m)
    requires 1 <= p < CrcNibbles
    ensures NibbleAt(MessageData(m), NibbleIndex(p)) == m[p]
  {
    var d := MessageData(m);
    PackedNibbles(m[4] as bv32, m[3] as bv32, m[2] as bv32, m[1] as bv32, m[6] as bv32, m[5] as bv32);
    Widened(m[p]);
    if p == 1 {
      assert (d >> 12) & 0xF == m[1] as bv32;
    } else if p == 2 {
      assert (d >> 8) & 0xF == m[2] as bv32;
    } else if p == 3 {
      assert (d >> 4) & 0xF == m[3] as bv32;
    } else if p == 4 {
      assert d & 0xF == m[4] as bv32;
    } else if p == 5 {
      assert (d >> 20) & 0xF == m[5] as bv32;
    } else {
      assert (d >> 16) & 0xF == m[6] as bv32;
    }
  }

  /** Every 7-nibble message is the canonical message of exactly one frame. */
  lemma MessageDataRoundTrip(m: seq<bv8>)
    requires |m| == CrcNibbles && AllNibbles(m)
    ensures CanonicalMessage(m[0], MessageData(m)) == m
  {
    var c := CanonicalMessage(m[0], MessageData(m));
    forall p | 1 <= p < CrcNibbles
      ensures c[p] == m[p]
    {
      MessageDataNibble(m, p);
      MessageNibbleAt(m[0], MessageData(m), p);
    }
  }

  /** Position p (1..6) of the canonical message holds data nibble NibbleIndex(p). */
  lemma MessageNibbleAt(status: Nibble, data: bv32, p: nat)
    requires 1 <= p < CrcNibbles
    ensures CanonicalMessage(status, data)[p] == NibbleAt(data, NibbleIndex(p))
  {
  }

  /**
   * The payload fields split a 24-bit frame without overlap or loss:
   * OUT16 is nibbles 0..3, TEMP8 is nibbles 4..5 and is `data >> 16` exactly.
   */
  lemma PayloadRoundTrip(data: bv32)
    requires data < 0x100_0000
    ensures ((Temp8(data) as bv32) << 16) | (Out16(data) as bv32) == data
    ensures Temp8(data) as bv32 == data >> 16
    ensures Out16(data) as bv32 == (NibbleAt(data, 0) as bv32) | ((NibbleAt(data, 1) as bv32) << 4)
              | ((NibbleAt(data, 2) as bv32) << 8) | ((NibbleAt(data, 3) as bv32) << 12)
    ensures Temp8(data) == NibbleAt(data, 4) | (NibbleAt(data, 5) << 4)
  {
  }

  /**
   * A frame that arrives with one data nibble corrupted gets a different
   * checksum than the frame that was sent.
   */
  lemma DataNibbleErrorDetected(status: Nibble, d1: bv32, d2: bv32, k: bv8)
    requires k < 6
    requires NibbleAt(d1, k) != NibbleAt(d2, k)
    requires forall j: bv8 :: j < 6 && j != k ==> NibbleAt(d1, j) == NibbleAt(d2, j)
    ensures CrcOf(CanonicalMessage(status, d1)) != CrcOf(CanonicalMessage(status, d2))
  {
    var m1, m2 := CanonicalMessage(status, d1), CanonicalMessage(status, d2);
    var p := MessagePosition(k);
    forall i | 0 <= i < CrcNibbles && i != p
      ensures m1[i] == m2[i]
    {
      if i != 0 {
        MessageNibbleAt(status, d1, i);
        MessageNibbleAt(status, d2, i);
      }
    }
    MessageNibbleAt(status, d1, p);
    MessageNibbleAt(status, d2, p);
    SingleNibbleErrorDetected(m1, m2, p);
  }

  /** A frame that arrives with a corrupted status nibble gets a different checksum. */
  lemma StatusNibbleErrorDetected(s1: Nibble, s2: Nibble, data: bv32)
    requires s1 != s2
    ensures CrcOf(CanonicalMessage(s1, data)) != CrcOf(CanonicalMessage(s2, data))
  {
    var m1, m2 := CanonicalMessage(s1, data), CanonicalMessage(s2, data);
    forall i | 0 < i < CrcNibbles
      ensures m1[i] == m2[i]
    {
      MessageNibbleAt(s1, data, i);
      MessageNibbleAt(s2, data, i);
    }
    SingleNibbleErrorDetected(m1, m2, 0);
  }

  /**
   * A reference vector through the sensor's nibble order: the frame 0x123456
   * with status 0 is sent as 0, 3, 4, 5, 6, 1, 2 and its checksum is 1
   * (the rounds pass through 3, 0, 14, 11, 2, 10).
   */
  lemma FrameCrcVector()
    ensures CanonicalMessage(0, 0x123456) == [0, 3, 4, 5, 6, 1, 2]
    ensures CrcOf(CanonicalMessage(0, 0x123456)) == 1
  {
    var p1: seq<bv8> := [0];
    var p2 := p1 + [3];
    var p3 := p2 + [4];
    var p4 := p3 + [5];
    var p5 := p4 + [6];
    var p6 := p5 + [1];
    var p7 := p6 + [2];
    CrcFromSingle(Seed, 0);
    assert Step(Seed, 0) == 3;
    CrcFromSnoc(Seed, p1, 3);
    assert Step(3, 3) == 0;
    CrcFromSnoc(Seed, p2, 4);
    assert Step(0, 4) == 14;
    CrcFromSnoc(Seed, p3, 5);
    assert Step(14, 5) == 11;
    CrcFromSnoc(Seed, p4, 6);
    assert Step(11, 6) == 2;
    CrcFromSnoc(Seed, p5, 1);
    assert Step(2, 1) == 10;
    CrcFromSnoc(Seed, p6, 2);
    assert Step(10, 2) == 1;
    assert p7 == [0, 3, 4, 5, 6, 1, 2];
  }
}

/**
 * The 4-bit checksum of a SENT fast-channel frame as the TLE4998 example
 * recomputes it in software: a table-driven CRC-4 (the SAE J2716 nibble
 * table with seed 0101) over the status nibble and the six data nibbles.
 *
 * C `uint8` values are `bv8`; the message bytes must hold 4-bit values,
 * because any larger byte would index past the end of the 16-entry table.
 */
module SentCrc {

  /** A `uint8` that holds a 4-bit value. */
  type Nibble = x: bv8 | x < 16

  /** TLE4998_FRAME_LENGTH: data nibbles per fast-channel frame. */
  const FrameLength: nat := 6

  /** NUMBER_OF_NIBBLES_FOR_CRC: the status nibble and the data nibbles. */
  const CrcNibbles: nat := 7

  /** TLE4998_FRAME_CRC_SEED_VAL. */
  const Seed: bv8 := 0x05

  /** CrcLookup[16]. */
  const CrcLookup: seq<bv8> := [0, 13, 7, 10, 14, 3, 9, 4, 1, 12, 6, 11, 15, 2, 8, 5]

  /** The inverse permutation of CrcLookup: it witnesses that the table is a
      permutation of 0..15 (CrcLookupInverse[CrcLookup[i]] == i). */
  const CrcLookupInverse: seq<bv8> := [0, 8, 13, 5, 7, 15, 10, 2, 14, 6, 3, 11, 9, 1, 4, 12]

  predicate AllNibbles(s: seq<bv8>) {
    forall i :: 0 <= i < |s| ==> s[i] < 16
  }

  /** One round of the loop body: `CheckSum = CrcLookup[CheckSum ^ message[i]]`. */
  function Step(acc: bv8, m: bv8): (r: bv8)
    requires acc < 16 && m < 16
    ensures r < 16
  {
    CrcLookup[(acc ^ m) as int]
  }

  /** Undoes one round: recovers the accumulator from the round's result. */
  function Unstep(r: bv8, m: bv8): (acc: bv8)
    requires r < 16 && m < 16
    ensures acc < 16
  {
    CrcLookupInverse[r as int] ^ m
  }

  /** The accumulator after folding Step over `msg`, starting from `acc`. */
  function CrcFrom(acc: bv8, msg: seq<bv8>): (r: bv8)
    requires acc < 16 && AllNibbles(msg)
    ensures r < 16
    decreases |msg|
  {
    if msg == [] then acc
    else Step(CrcFrom(acc, msg[..|msg| - 1]), msg[|msg| - 1])
  }

  /** The checksum of a message: the fold started from the seed. */
  function CrcOf(msg: seq<bv8>): bv8
    requires AllNibbles(msg)
  {
    CrcFrom(Seed, msg)
  }

  /**
   * calculateCrcTle4998: the loop runs over exactly
   * TLE4998_FRAME_LENGTH + 1 = 7 bytes whatever `length` says, so the
   * result depends on `message[..7]` alone and never on `length`.
   */
  method CalculateCrc(message: array<bv8>, length: bv8) returns (checkSum: bv8)
    requires message.Length >= CrcNibbles
    requires AllNibbles(message[..CrcNibbles])
    ensures checkSum < 16
    ensures checkSum == CrcOf(message[..CrcNibbles])
  {
    checkSum := Seed;
    var crcDatalen := FrameLength + 1;
    var bitdata := 0;
    while bitdata < crcDatalen
      invariant 0 <= bitdata <= crcDatalen
      invariant AllNibbles(message[..bitdata])
      invariant checkSum < 16
      invariant checkSum == CrcFrom(Seed, message[..bitdata])
    {
      assert message[..bitdata + 1][..bitdata] == message[..bitdata];
      assert message[bitdata] == message[..CrcNibbles][bitdata];
      checkSum := checkSum ^ message[bitdata];
      checkSum := CrcLookup[checkSum as int];
      bitdata := bitdata + 1;
    }
  }

  /** CrcLookupInverse undoes CrcLookup on every index, so the table is a permutation of 0..15. */
  lemma TableInverse(j: bv8)
    requires j < 16
    ensures CrcLookupInverse[CrcLookup[j as int] as int] == j
  {
    var i := j as int;
    if i < 8 {
      if i < 4 {
        if i < 2 { assert i == 0 || i == 1; } else { assert i == 2 || i == 3; }
      } else {
        if i < 6 { assert i == 4 || i == 5; } else { assert i == 6 || i == 7; }
      }
    } else {
      if i < 12 {
        if i < 10 { assert i == 8 || i == 9; } else { assert i == 10 || i == 11; }
      } else {
        if i < 14 { assert i == 12 || i == 13; } else { assert i == 14 || i == 15; }
      }
    }
  }

  /** Unstep undoes Step. */
  lemma StepUndone(acc: bv8, m: bv8)
    requires acc < 16 && m < 16
    ensures Unstep(Step(acc, m), m) == acc
  {
    TableInverse(acc ^ m);
  }

  /** Different accumulators stay different after one round. */
  lemma StepInjective(a1: bv8, a2: bv8, m: bv8)
    requires a1 < 16 && a2 < 16 && m < 16
    requires a1 != a2
    ensures Step(a1, m) != Step(a2, m)
  {
    StepUndone(a1, m);
    StepUndone(a2, m);
  }

  /** Different message nibbles fed to the same accumulator give different results. */
  lemma StepInjectiveInNibble(acc: bv8, m1: bv8, m2: bv8)
    requires acc < 16 && m1 < 16 && m2 < 16
    requires m1 != m2
    ensures Step(acc, m1) != Step(acc, m2)
  {
    var j1, j2 := acc ^ m1, acc ^ m2;
    assert j1 != j2 && j1 < 16 && j2 < 16;
    TableInverse(j1);
    TableInverse(j2);
  }

  /** Folding over a concatenation is folding over the parts in turn. */
  lemma {:induction false} CrcFromAppend(acc: bv8, a: seq<bv8>, b: seq<bv8>)
    requires acc < 16 && AllNibbles(a) && AllNibbles(b)
    ensures AllNibbles(a + b)
    ensures CrcFrom(acc, a + b) == CrcFrom(CrcFrom(acc, a), b)
    decreases |b|
  {
    if b != [] {
      var b' := b[..|b| - 1];
      assert (a + b)[..|a + b| - 1] == a + b';
      CrcFromAppend(acc, a, b');
    } else {
      assert a + b == a;
    }
  }

  /** Different starting accumulators give different checksums for the same message. */
  lemma {:induction false} CrcFromInjective(a1: bv8, a2: bv8, msg: seq<bv8>)
    requires a1 < 16 && a2 < 16 && AllNibbles(msg)
    requires a1 != a2
    ensures CrcFrom(a1, msg) != CrcFrom(a2, msg)
    decreases |msg|
  {
    if msg != [] {
      var init := msg[..|msg| - 1];
      CrcFromInjective(a1, a2, init);
      StepInjective(CrcFrom(a1, init), CrcFrom(a2, init), msg[|msg| - 1]);
    }
  }

  /** A one-nibble message is one round. */
  lemma CrcFromSingle(acc: bv8, x: bv8)
    requires acc < 16 && x < 16
    ensures CrcFrom(acc, [x]) == Step(acc, x)
  {
    assert [x][..0] == [];
  }

  /** The checksum of a message seen around its nibble k. */
  lemma CrcOfAround(m: seq<bv8>, k: nat)
    requires AllNibbles(m) && k < |m|
    ensures AllNibbles(m[..k]) && AllNibbles(m[k + 1..])
    ensures CrcOf(m) == CrcFrom(Step(CrcFrom(Seed, m[..k]), m[k]), m[k + 1..])
  {
    var pre, suf := m[..k], m[k + 1..];
    assert AllNibbles(pre) && AllNibbles(suf) by {
      forall i | 0 <= i < |pre| ensures pre[i] < 16 { assert pre[i] == m[i]; }
      forall i | 0 <= i < |suf| ensures suf[i] < 16 { assert suf[i] == m[k + 1 + i]; }
    }
    assert m == pre + [m[k]] + suf;
    CrcFromAppend(Seed, pre, [m[k]]);
    CrcFromAppend(Seed, pre + [m[k]], suf);
    CrcFromSingle(CrcFrom(Seed, pre), m[k]);
  }

  /**
   * Two messages of the same length that differ in exactly one nibble have
   * different checksums: every single-nibble error is detected.
   */
  lemma SingleNibbleErrorDetected(m1: seq<bv8>, m2: seq<bv8>, k: nat)
    requires AllNibbles(m1) && AllNibbles(m2)
    requires |m1| == |m2| && k < |m1|
    requires m1[k] != m2[k]
    requires forall i :: 0 <= i < |m1| && i != k ==> m1[i] == m2[i]
    ensures CrcOf(m1) != CrcOf(m2)
  {
    CrcOfAround(m1, k);
    CrcOfAround(m2, k);
    assert m1[..k] == m2[..k];
    assert m1[k + 1..] == m2[k + 1..];
    var acc := CrcFrom(Seed, m1[..k]);
    StepInjectiveInNibble(acc, m1[k], m2[k]);
    CrcFromInjective(Step(acc, m1[k]), Step(acc, m2[k]), m1[k + 1..]);
  }

  /** Appending one nibble is one more round. */
  lemma CrcFromSnoc(acc: bv8, msg: seq<bv8>, x: bv8)
    requires acc < 16 && AllNibbles(msg) && x < 16
    ensures AllNibbles(msg + [x])
    ensures CrcFrom(acc, msg + [x]) == Step(CrcFrom(acc, msg), x)
  {
    assert (msg + [x])[..|msg|] == msg;
  }

  /** Reference vectors, computed by hand from the table and the seed. */
  lemma CrcVectors()
    ensures CrcOf([0, 0, 0, 0, 0, 0, 0]) == 5
    ensures CrcOf([0, 0, 0, 0, 0, 0, 1]) == 8
  {
    var z1: seq<bv8> := [0];
    var z2, z3, z4, z5, z6 := z1 + [0], z1 + [0, 0], z1 + [0, 0, 0], z1 + [0, 0, 0, 0], z1 + [0, 0, 0, 0, 0];
    CrcFromSingle(Seed, 0);
    assert CrcFrom(Seed, z1) == 3;
    CrcFromSnoc(Seed, z1, 0);
    assert CrcFrom(Seed, z2) == 10;
    CrcFromSnoc(Seed, z2, 0);
    assert z2 + [0] == z3;
    assert CrcFrom(Seed, z3) == 6;
    CrcFromSnoc(Seed, z3, 0);
    assert z3 + [0] == z4;
    assert CrcFrom(Seed, z4) == 9;
    CrcFromSnoc(Seed, z4, 0);
    assert z4 + [0] == z5;
    assert CrcFrom(Seed, z5) == 12;
    CrcFromSnoc(Seed, z5, 0);
    assert z5 + [0] == z6;
    assert CrcFrom(Seed, z6) == 15;
    CrcFromSnoc(Seed, z6, 0);
    CrcFromSnoc(Seed, z6, 1);
    assert z6 + [0] == [0, 0, 0, 0, 0, 0, 0];
    assert z6 + [1] == [0, 0, 0, 0, 0, 0, 1];
  }
}

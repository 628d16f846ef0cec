/**
 * The redundancy check of the TLE4998 SENT example: a foreground routine
 * that compares the checksum the sensor sent with the one recomputed by
 * the receiver and shows the verdict on two active-low LEDs (D106, D109)
 * and in the alarm flag.
 *
 * A call passes three stages: while fewer than three frames have arrived
 * it only drives D106 low; for its next three calls it only counts them in
 * the static `ignoreValueCount` and drives D109 low; from then on every
 * call decides on the current checksum pair alone.
 */
module SentRedundancy {
  import opened Words
  import opened SentReceive

  /** Frames that must have arrived before the check looks at the data. */
  const WarmUpFrames: nat := 3

  /** Calls after warm-up whose verdict is ignored. */
  const SettlingCalls: nat := 3

  /**
   * The state the check keeps between calls: the static ignoreValueCount,
   * g_alarmFlag, and the output levels of the D106 and D109 pins (true = high).
   */
  datatype Monitor = Monitor(ignoreValueCount: uint8, alarmFlag: bool, d106High: bool, d109High: bool)
  {
    /** The settling counter never passes its threshold. */
    predicate Valid() {
      ignoreValueCount <= SettlingCalls
    }

    /** The settling window is over: verdicts count. */
    predicate Settled() {
      ignoreValueCount >= SettlingCalls
    }
  }

  /**
   * What a call sees of g_dataTle4998: the frame counter and the two
   * checksums of the last captured frame.
   */
  datatype Snapshot = Snapshot(interruptCounter: uint32, calculated: bv8, received: bv8)

  /** The state before the first call: both LEDs off (pins high), no alarm. */
  const InitialMonitor := Monitor(0, false, true, true)

  /** checkTle4998SENTredundancy as a function of the state before the call. */
  function Check(m: Monitor, s: Snapshot): Monitor {
    if s.interruptCounter < WarmUpFrames then
      m.(d106High := false)
    else if m.ignoreValueCount < SettlingCalls then
      m.(ignoreValueCount := m.ignoreValueCount + 1, d109High := false)
    else if s.calculated != s.received then
      m.(d109High := true, d106High := !m.d106High, alarmFlag := true)
    else
      m.(d106High := true, d109High := !m.d109High, alarmFlag := false)
  }

  /**
   * Warm-up: before the third frame a call drives D106 low and touches
   * nothing else.
   */
  lemma WarmUpOnlyDrivesD106(m: Monitor, s: Snapshot)
    requires s.interruptCounter < WarmUpFrames
    ensures !Check(m, s).d106High
    ensures Check(m, s).ignoreValueCount == m.ignoreValueCount
    ensures Check(m, s).alarmFlag == m.alarmFlag && Check(m, s).d109High == m.d109High
  {
  }

  /**
   * Settling: after warm-up and before the window is over, a call counts
   * itself, drives D109 low and leaves the alarm and D106 alone.
   */
  lemma SettlingOnlyCounts(m: Monitor, s: Snapshot)
    requires s.interruptCounter >= WarmUpFrames && !m.Settled()
    ensures Check(m, s).ignoreValueCount == m.ignoreValueCount + 1
    ensures !Check(m, s).d109High
    ensures Check(m, s).alarmFlag == m.alarmFlag && Check(m, s).d106High == m.d106High
  {
  }

  /**
   * Monitoring: once settled, the alarm is raised exactly on a checksum
   * mismatch; a mismatch holds D109 high and blinks D106, a match holds
   * D106 high and blinks D109.
   */
  lemma MonitoringDecides(m: Monitor, s: Snapshot)
    requires s.interruptCounter >= WarmUpFrames && m.Settled()
    ensures Check(m, s).alarmFlag <==> s.calculated != s.received
    ensures Check(m, s).alarmFlag ==> Check(m, s).d109High && Check(m, s).d106High == !m.d106High
    ensures !Check(m, s).alarmFlag ==> Check(m, s).d106High && Check(m, s).d109High == !m.d109High
    ensures Check(m, s).ignoreValueCount == m.ignoreValueCount
  {
  }

  /**
   * The verdict depends on the current checksum pair only: two settled
   * monitors with any histories reach the same alarm flag.
   */
  lemma VerdictIsFrameLocal(m1: Monitor, m2: Monitor, s: Snapshot)
    requires s.interruptCounter >= WarmUpFrames && m1.Settled() && m2.Settled()
    ensures Check(m1, s).alarmFlag == Check(m2, s).alarmFlag
  {
    MonitoringDecides(m1, s);
    MonitoringDecides(m2, s);
  }

  /**
   * Every call keeps the settling counter within its threshold and never
   * lowers it, and the alarm flag changes only in the monitoring stage.
   */
  lemma CheckKeepsValid(m: Monitor, s: Snapshot)
    requires m.Valid()
    ensures Check(m, s).Valid()
    ensures m.ignoreValueCount <= Check(m, s).ignoreValueCount
    ensures Check(m, s).alarmFlag != m.alarmFlag ==> s.interruptCounter >= WarmUpFrames && m.Settled()
  {
  }

  /** The state after a sequence of calls, the first call first. */
  function Run(m: Monitor, calls: seq<Snapshot>): Monitor
    decreases |calls|
  {
    if calls == [] then m else Check(Run(m, calls[..|calls| - 1]), calls[|calls| - 1])
  }

  /** How many of `calls` came after warm-up. */
  function WarmCalls(calls: seq<Snapshot>): nat
    decreases |calls|
  {
    if calls == [] then 0
    else WarmCalls(calls[..|calls| - 1]) + (if calls[|calls| - 1].interruptCounter >= WarmUpFrames then 1 else 0)
  }

  function Min(a: int, b: int): int {
    if a <= b then a else b
  }

  /**
   * The settling counter counts the calls made after warm-up, and stops at
   * the threshold.
   */
  lemma {:induction false} RunIgnoreCount(m: Monitor, calls: seq<Snapshot>)
    requires m.Valid()
    ensures Run(m, calls).Valid()
    ensures Run(m, calls).ignoreValueCount == Min(SettlingCalls, m.ignoreValueCount + WarmCalls(calls))
    decreases |calls|
  {
    if calls != [] {
      var before := calls[..|calls| - 1];
      RunIgnoreCount(m, before);
      CheckKeepsValid(Run(m, before), calls[|calls| - 1]);
    }
  }

  /**
   * No verdict before the window is over: while at most three calls have
   * come after warm-up, the alarm flag keeps its initial value.
   */
  lemma {:induction false} RunQuietWhileSettling(m: Monitor, calls: seq<Snapshot>)
    requires m.Valid()
    requires m.ignoreValueCount + WarmCalls(calls) <= SettlingCalls
    ensures Run(m, calls).alarmFlag == m.alarmFlag
    decreases |calls|
  {
    if calls != [] {
      var before := calls[..|calls| - 1];
      RunQuietWhileSettling(m, before);
      RunIgnoreCount(m, before);
      CheckKeepsValid(Run(m, before), calls[|calls| - 1]);
    }
  }

  /**
   * After the window, the alarm flag reflects the last call's checksum
   * pair and nothing earlier: it is set exactly when the pair differs.
   */
  lemma RunAlarmFollowsLastFrame(m: Monitor, calls: seq<Snapshot>)
    requires m.Valid() && calls != []
    requires calls[|calls| - 1].interruptCounter >= WarmUpFrames
    requires m.ignoreValueCount + WarmCalls(calls[..|calls| - 1]) >= SettlingCalls
    ensures Run(m, calls).alarmFlag <==> calls[|calls| - 1].calculated != calls[|calls| - 1].received
  {
    var before := calls[..|calls| - 1];
    RunIgnoreCount(m, before);
    MonitoringDecides(Run(m, before), calls[|calls| - 1]);
  }

  /**
   * From the initial state, one call per frame: frames 1 and 2 are warm-up,
   * 3 to 5 settle, frame 6 arrives corrupted and raises the alarm, frame 7
   * is good again and clears it.
   */
  lemma {:induction false} StartUpScenario()
    ensures var calls := [
        Snapshot(1, 4, 4), Snapshot(2, 4, 4), Snapshot(3, 7, 7), Snapshot(4, 1, 1), Snapshot(5, 9, 9),
        Snapshot(6, 3, 12), Snapshot(7, 2, 2)];
      && Run(InitialMonitor, calls[..5]) == Monitor(3, false, false, false)
      && Run(InitialMonitor, calls[..6]) == Monitor(3, true, true, true)
      && Run(InitialMonitor, calls) == Monitor(3, false, true, false)
  {
    var calls := [
        Snapshot(1, 4, 4), Snapshot(2, 4, 4), Snapshot(3, 7, 7), Snapshot(4, 1, 1), Snapshot(5, 9, 9),
        Snapshot(6, 3, 12), Snapshot(7, 2, 2)];
    var states := [
        InitialMonitor, Monitor(0, false, false, true), Monitor(0, false, false, true),
        Monitor(1, false, false, false), Monitor(2, false, false, false), Monitor(3, false, false, false),
        Monitor(3, true, true, true), Monitor(3, false, true, false)];
    var i := 0;
    while i < 5
      invariant 0 <= i <= 5
      invariant Run(InitialMonitor, calls[..i]) == states[i]
    {
      assert calls[..i + 1][..i] == calls[..i];
      i := i + 1;
    }
    assert calls[..6][..5] == calls[..5];
    assert Run(InitialMonitor, calls[..6]) == states[6];
    assert calls[..6] == calls[..|calls| - 1];
  }

  /**
   * The check's own state, updated in place: the static ignoreValueCount,
   * g_alarmFlag and the two LED pin levels.
   */
  class RedundancyMonitor {
    var ignoreValueCount: uint8
    var alarmFlag: bool
    var d106High: bool
    var d109High: bool

    function State(): Monitor
      reads this
    {
      Monitor(ignoreValueCount, alarmFlag, d106High, d109High)
    }

    /** Static and global initialisers, with both pins driven high (LEDs off). */
    constructor ()
      ensures State() == InitialMonitor
    {
      ignoreValueCount, alarmFlag, d106High, d109High := 0, false, true, true;
    }

    /** checkTle4998SENTredundancy, reading the session data the interrupt handler fills. */
    method CheckRedundancy(data: SentData)
      modifies this
      ensures State() == Check(old(State()),
        Snapshot(data.interruptCounter, data.sentCrcCalculated, data.sentCrcReceived))
    {
      if data.interruptCounter < WarmUpFrames {
        d106High := false;
        return;
      }
      if ignoreValueCount < SettlingCalls {
        ignoreValueCount := ignoreValueCount + 1;
        d109High := false;
      } else if data.sentCrcCalculated != data.sentCrcReceived {
        d109High := true;
        d106High := !d106High;
        alarmFlag := true;
      } else {
        d106High := true;
        d109High := !d109High;
        alarmFlag := false;
      }
    }
  }
}

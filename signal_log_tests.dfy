/**
 * The unit tests of the signal log helpers and the recording loop, as client
 * methods whose postconditions are the tests' assertions. The waves the tests
 * generate are parameters: any signals at all satisfy the assertions.
 */
module SignalLogTests {
  import opened Wrappers
  import opened SignalLog
  import LogHistory

  /** One record into a new list: one entry, equal to the recorded wave. */
  method TestRecordSignal<S>(wave: S) returns (count: nat, first: S)
    ensures count == 1 && first == wave
  {
    var signals := new SignalList<S>();
    RecordSignal(signals, wave);
    count, first := |signals.items|, signals.items[0];
  }

  /** Two records: the newest entry is the second wave. */
  method TestGetLastSignal<S>(wave1: S, wave2: S) returns (last: Option<S>)
    ensures last == Some(wave2)
  {
    var signals := new SignalList<S>();
    RecordSignal(signals, wave1);
    RecordSignal(signals, wave2);
    last := GetLastSignal(signals);
  }

  /** A record then a clear: the list is empty and nothing reads back. */
  method TestClearSignals<S>(wave: S) returns (count: nat, last: Option<S>)
    ensures count == 0 && last == None
  {
    var signals := new SignalList<S>();
    RecordSignal(signals, wave);
    ClearSignals(signals);
    count, last := |signals.items|, GetLastSignal(signals);
  }

  /**
   * The recording loop: starting from an empty list, record each wave in
   * turn. The list ends with one entry per wave, the i-th being the i-th wave.
   */
  method RecordWaves<S>(waves: seq<S>) returns (signals: SignalList<S>)
    ensures |signals.items| == |waves|
    ensures forall i :: 0 <= i < |waves| ==> signals.items[i] == waves[i]
    ensures signals.items == LogHistory.Run([], LogHistory.RecordOps(waves))
    ensures waves != [] ==> GetLastSignal(signals) == Some(waves[|waves| - 1])
  {
    signals := new SignalList<S>();
    var i := 0;
    while i < |waves|
      invariant 0 <= i <= |waves|
      invariant signals.items == waves[..i]
    {
      RecordSignal(signals, waves[i]);
      assert waves[..i + 1] == waves[..i] + [waves[i]];
      i := i + 1;
    }
    assert waves[..i] == waves;
    LogHistory.RecordEachFromEmpty(waves);
  }
}

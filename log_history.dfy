/**
 * A session over one signal list: the helpers that change it, applied in
 * order. The lemmas state the list's lifecycle: it grows by exactly one
 * entry per record, keeps every entry where it was appended, and returns
 * to empty on clear, so it always holds the signals recorded since the
 * last clear.
 */
module LogHistory {
  import opened Wrappers
  import opened SignalLog

  /** The list's contents after applying `ops` in order, starting from `items`. */
  function Run<S>(items: seq<S>, ops: seq<Op<S>>): (r: seq<S>)
    decreases |ops|
  {
    if ops == [] then items else Run(Apply(items, ops[0]), ops[1..])
  }

  /** The signals that the record operations of `ops` carry, in order. */
  function Recorded<S>(ops: seq<Op<S>>): (r: seq<S>)
    decreases |ops|
  {
    if ops == [] then []
    else (if ops[0].Record? then [ops[0].signal] else []) + Recorded(ops[1..])
  }

  predicate RecordsOnly<S>(ops: seq<Op<S>>)
  {
    forall i :: 0 <= i < |ops| ==> ops[i].Record?
  }

  /** One record operation per signal of `waves`, in the same order. */
  function RecordOps<S>(waves: seq<S>): seq<Op<S>>
  {
    seq(|waves|, i requires 0 <= i < |waves| => Record(waves[i]))
  }

  /** Running two sessions back to back is running their concatenation. */
  lemma {:induction false} RunConcat<S>(items: seq<S>, a: seq<Op<S>>, b: seq<Op<S>>)
    ensures Run(items, a + b) == Run(Run(items, a), b)
    decreases |a|
  {
    if a == [] {
      assert a + b == b;
    } else {
      assert (a + b)[0] == a[0];
      assert (a + b)[1..] == a[1..] + b;
      RunConcat(Apply(items, a[0]), a[1..], b);
    }
  }

  /** The last operation of a session acts on what the rest of it left. */
  lemma RunSnoc<S>(items: seq<S>, ops: seq<Op<S>>, op: Op<S>)
    ensures Run(items, ops + [op]) == Apply(Run(items, ops), op)
  {
    RunConcat(items, ops, [op]);
    assert Run(Run(items, ops), [op]) == Run(Apply(Run(items, ops), op), []);
  }

  /**
   * A session of records only appends the recorded signals, in order, after
   * what the list held.
   */
  lemma {:induction false} RunRecordsOnly<S>(items: seq<S>, ops: seq<Op<S>>)
    requires RecordsOnly(ops)
    ensures Run(items, ops) == items + Recorded(ops)
    decreases |ops|
  {
    if ops == [] {
      assert items + [] == items;
    } else {
      assert ops[0].Record?;
      var s, rest := ops[0].signal, ops[1..];
      assert Run(items, ops) == Run(items + [s], rest);
      assert Recorded(ops) == [s] + Recorded(rest);
      assert RecordsOnly(rest) by {
        forall i | 0 <= i < |rest| ensures rest[i].Record? {
          assert rest[i] == ops[i + 1];
        }
      }
      RunRecordsOnly(items + [s], rest);
      assert (items + [s]) + Recorded(rest) == items + ([s] + Recorded(rest));
    }
  }

  /** The signals recorded by `RecordOps(waves)` are exactly `waves`. */
  lemma {:induction false} RecordedRecordOps<S>(waves: seq<S>)
    ensures RecordsOnly(RecordOps(waves))
    ensures Recorded(RecordOps(waves)) == waves
    decreases |waves|
  {
    if waves != [] {
      assert RecordOps(waves)[1..] == RecordOps(waves[1..]);
      RecordedRecordOps(waves[1..]);
      assert [waves[0]] + waves[1..] == waves;
    }
  }

  /**
   * Recording `waves` one after another into an empty list gives a list
   * whose length is the number of waves and whose i-th entry is the i-th wave.
   */
  lemma RecordEachFromEmpty<S>(waves: seq<S>)
    ensures |Run([], RecordOps(waves))| == |waves|
    ensures forall i :: 0 <= i < |waves| ==> Run([], RecordOps(waves))[i] == waves[i]
  {
    RecordedRecordOps(waves);
    RunRecordsOnly([], RecordOps(waves));
    assert [] + waves == waves;
  }

  /** After any session that ends with a clear the list is empty and reads back `None`. */
  lemma RunThenClear<S>(items: seq<S>, ops: seq<Op<S>>)
    ensures Run(items, ops + [Clear]) == []
    ensures Last(Run(items, ops + [Clear])) == None
  {
    RunSnoc(items, ops, Clear);
  }

  /** After any session that ends by recording `s`, the newest entry is `s`. */
  lemma RunThenRecord<S>(items: seq<S>, ops: seq<Op<S>>, s: S)
    ensures Last(Run(items, ops + [Record(s)])) == Some(s)
    ensures |Run(items, ops + [Record(s)])| == |Run(items, ops)| + 1
  {
    RunSnoc(items, ops, Record(s));
  }

  /**
   * The list holds exactly the signals recorded after the last clear: when
   * `ops[k]` is a clear and only records follow it, none of what came before
   * `k`, and none of the list's initial contents, survives.
   */
  lemma SinceLastClear<S>(items: seq<S>, ops: seq<Op<S>>, k: nat)
    requires k < |ops| && ops[k].Clear?
    requires RecordsOnly(ops[k + 1..])
    ensures Run(items, ops) == Recorded(ops[k + 1..])
  {
    assert ops == ops[..k] + [ops[k]] + ops[k + 1..];
    RunConcat(items, ops[..k] + [ops[k]], ops[k + 1..]);
    RunThenClear(items, ops[..k]);
    RunRecordsOnly([], ops[k + 1..]);
    assert [] + Recorded(ops[k + 1..]) == Recorded(ops[k + 1..]);
  }

  /**
   * Calls the changing helpers on `signals` in the order `ops` lists them:
   * the list ends up holding what `Run` says, so every lemma above about
   * `Run` holds of the list object itself.
   */
  method Replay<S>(signals: SignalList<S>, ops: seq<Op<S>>)
    modifies signals
    ensures signals.items == Run(old(signals.items), ops)
  {
    var i := 0;
    while i < |ops|
      invariant 0 <= i <= |ops|
      invariant signals.items == Run(old(signals.items), ops[..i])
    {
      RunSnoc(old(signals.items), ops[..i], ops[i]);
      assert ops[..i + 1] == ops[..i] + [ops[i]];
      match ops[i] {
        case Record(s) => RecordSignal(signals, s);
        case Clear => ClearSignals(signals);
      }
      i := i + 1;
    }
    assert ops[..i] == ops;
  }
}

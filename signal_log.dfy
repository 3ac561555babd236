/**
 * The signal log helpers: a caller-owned, insertion-ordered list of recorded
 * signals with three operations, append (`RecordSignal`), read the newest
 * entry (`GetLastSignal`) and empty the list (`ClearSignals`).
 *
 * A signal is an opaque value of type `S`, compared only by equality.
 */
module SignalLog {
  import opened Wrappers

  /** The mutable list object the helpers receive and change in place. */
  class SignalList<S> {
    var items: seq<S>

    /** A fresh empty list, as created by the literal `[]`. */
    constructor ()
      ensures items == []
    {
      items := [];
    }
  }

  /** The two helpers that change the list. */
  datatype Op<S> = Record(signal: S) | Clear

  /** What the list holds after one changing helper, given what it held before. */
  function Apply<S>(items: seq<S>, op: Op<S>): (r: seq<S>)
    ensures op.Record? ==> |r| == |items| + 1 && r[..|items|] == items && r[|items|] == op.signal
    ensures op.Clear? ==> r == []
  {
    match op
    case Record(s) => items + [s]
    case Clear => []
  }

  /** The newest entry of a list's contents, or `None` when there is none. */
  function Last<S>(items: seq<S>): (r: Option<S>)
    ensures r == None <==> items == []
    ensures r.Some? ==> r.value == items[|items| - 1]
  {
    if |items| > 0 then Some(items[|items| - 1]) else None
  }

  /** Appends `signal` to the end of `signals`. */
  method RecordSignal<S>(signals: SignalList<S>, signal: S)
    modifies signals
    ensures signals.items == Apply(old(signals.items), Record(signal))
  {
    signals.items := signals.items + [signal];
  }

  /** The newest recorded signal, or `None` when the list is empty; only reads the list. */
  function GetLastSignal<S>(signals: SignalList<S>): (r: Option<S>)
    reads signals
    ensures r == None <==> signals.items == []
    ensures r.Some? ==> r.value == signals.items[|signals.items| - 1]
  {
    Last(signals.items)
  }

  /** Removes every entry of `signals`. */
  method ClearSignals<S>(signals: SignalList<S>)
    modifies signals
    ensures signals.items == Apply(old(signals.items), Clear)
  {
    signals.items := [];
  }

  /** Recording a signal makes it the newest entry, whatever the list held. */
  lemma LastAfterRecord<S>(items: seq<S>, s: S)
    ensures Last(Apply(items, Record(s))) == Some(s)
  {
  }

  /** Clearing leaves nothing to read back. */
  lemma LastAfterClear<S>(items: seq<S>)
    ensures Last(Apply(items, Clear)) == None
  {
  }

  /** Clearing an already cleared list changes nothing. */
  lemma ClearIdempotent<S>(items: seq<S>)
    ensures Apply(Apply(items, Clear), Clear) == Apply(items, Clear) == []
  {
  }
}

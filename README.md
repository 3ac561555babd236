# Oscillograph signal log, in Dafny

This project models the signal log helpers of the oscillograph test suite
(`test_oscillograph_pytest_002.py`). A caller owns a plain list of recorded
signals and hands it to three helpers:

- `record_signal` appends a signal to the list in place;
- `get_last_signal` returns the newest entry, or `None` when the list is empty;
- `clear_signals` empties the list in place.

The model also covers the unit tests that exercise these helpers and the
recording loop of `test_good_signals`.

Files and modules:

- `wrappers.dfy`, module `Wrappers`: `Option`, the stand-in for Python's `None`.
- `signal_log.dfy`, module `SignalLog`:
  - The Python list is the class `SignalList<S>`, whose field `items: seq<S>` holds the entries.
  - A signal (a numpy array in the source) is an opaque element type `S`, compared only by equality.
  - `RecordSignal` and `ClearSignals` are methods that change the list they are given.
  - `GetLastSignal` is a function that reads the list.
  - `Apply` describes what a changing helper does to the list's contents.
  - `Last` describes what the read returns for given contents.
- `log_history.dfy`, module `LogHistory`:
  - A session is a sequence of helper calls (`Op`), replayed by `Run`.
  - Its lemmas state the list's lifecycle:
    - each record adds exactly one entry;
    - entries keep their positions;
    - a clear empties the list;
    - so the list always holds exactly the signals recorded since the last clear.
  - `Replay` makes the real helper calls on a `SignalList` in the order a session lists them, and proves the list ends up as `Run` says. So every lemma about `Run` also holds of the list object itself.
- `signal_log_tests.dfy`, module `SignalLogTests`:
  - The unit tests are client methods. Each one's postcondition is what the test asserts.
  - The recording loop is `RecordWaves`, proved with loop invariants.

The tests build their waves with `generate_sine_wave`. Here the waves are
parameters, so the tests' assertions are proved for every possible wave.

## Model

| member | source | states |
|---|---|---|
| `SignalLog.SignalList.constructor` | test_oscillograph_pytest_002.py:57 | a new list is empty |
| `SignalLog.Apply` | test_oscillograph_pytest_002.py:22-51 | a record adds exactly one entry, keeps every earlier entry in place and puts the new signal last; a clear leaves nothing |
| `SignalLog.Last` | test_oscillograph_pytest_002.py:42 | the result is `None` exactly when the list is empty; otherwise it is the newest entry |
| `SignalLog.RecordSignal` | test_oscillograph_pytest_002.py:22-30 | changes only the given list, so that its contents become `Apply` of a record: one entry longer, earlier entries unchanged, the signal last |
| `SignalLog.GetLastSignal` | test_oscillograph_pytest_002.py:32-42 | reads the list and changes nothing; gives `None` exactly when the list is empty, otherwise its last entry |
| `SignalLog.ClearSignals` | test_oscillograph_pytest_002.py:44-51 | changes only the given list, leaving it empty whatever it held |
| `SignalLog.LastAfterRecord` | test_oscillograph_pytest_002.py:30-42 | after a record, the read returns the signal just recorded |
| `SignalLog.LastAfterClear` | test_oscillograph_pytest_002.py:42-51 | after a clear, the read returns `None` |
| `SignalLog.ClearIdempotent` | test_oscillograph_pytest_002.py:51 | clearing an already cleared list gives the same empty list |
| `LogHistory.RunConcat` | test_oscillograph_pytest_002.py:22-51 | replaying two sessions one after the other is the same as replaying their concatenation |
| `LogHistory.RunSnoc` | test_oscillograph_pytest_002.py:22-51 | the last call of a session acts on whatever the earlier calls left |
| `LogHistory.RunRecordsOnly` | test_oscillograph_pytest_002.py:30 | a session made only of records appends the recorded signals, in order, after the list's earlier contents |
| `LogHistory.RecordedRecordOps` | test_oscillograph_pytest_002.py:101-104 | recording each wave in turn records exactly those waves, in order |
| `LogHistory.RecordEachFromEmpty` | test_oscillograph_pytest_002.py:98-104 | recording N waves into an empty list gives length N, with the i-th entry equal to the i-th wave |
| `LogHistory.RunThenClear` | test_oscillograph_pytest_002.py:42-51 | after any session that ends with a clear, the list is empty and the read returns `None` |
| `LogHistory.RunThenRecord` | test_oscillograph_pytest_002.py:30-42 | after any session that ends by recording `s`, the list is one entry longer and the read returns `s` |
| `LogHistory.SinceLastClear` | test_oscillograph_pytest_002.py:30-51 | if only records follow the last clear, the list holds exactly those records' signals, in order; nothing from before the clear survives |
| `LogHistory.Replay` | test_oscillograph_pytest_002.py:22-51 | calling the record and clear helpers on a list, in a session's order, changes only that list and leaves it holding what `Run` gives for its old contents and that session |
| `SignalLogTests.TestRecordSignal` | test_oscillograph_pytest_002.py:55-65 | one record into a new list gives one entry, equal to the recorded wave |
| `SignalLogTests.TestGetLastSignal` | test_oscillograph_pytest_002.py:67-81 | after recording two waves, the read returns the second |
| `SignalLogTests.TestClearSignals` | test_oscillograph_pytest_002.py:83-94 | a record followed by a clear leaves length 0, and the read then returns `None` |
| `SignalLogTests.RecordWaves` | test_oscillograph_pytest_002.py:98-104 | the recording loop gives one entry per wave, the i-th equal to the i-th wave; that is the replay of those records, and the newest entry is the last wave |

## Left out

- `generate_sine_wave` (test_oscillograph_pytest_002.py:4-20) is not modelled.
  - It is floating-point arithmetic over numpy's `linspace` and `sin`.
  - The tests' waves are parameters of the client methods instead.
- The random amplitude draw in `test_good_signals` is not modelled. The draw is `np.random.uniform(0.5, 2.5)`, at line 102.
- The range assertion of `test_good_signals` (line 107) is not modelled.
  - It accepts only amplitudes in [0.55, 2.45], which is narrower than the draw range.
  - It is therefore a probabilistic check on floats, not a property of the signal log.
- `SignalLogTests.RecordWaves`: the source's loop runs exactly 5 times. The model records any number of waves, and 5 is one case of that.
- Signals are compared by value. In the source a numpy array is a mutable object, and the list keeps a reference to it, not a copy. Changes made to an array after it was recorded, seen through the list, are therefore not modelled.
- `SignalLog.GetLastSignal`: in Python, `None` also comes back for a non-empty list whose newest entry is itself `None`, since `record_signal` accepts any value. The model keeps the two cases apart: an empty list gives `None`, and a newest entry is always returned as `Some(entry)`. Recorded signals are numpy arrays, never `None`, so the helpers' documented callers cannot tell the difference.
- numpy's `assert_array_equal` is plain equality on the element type.
- The pytest entry point (lines 109-111) is not part of the model.

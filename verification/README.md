# CamelCube solve timer and best-time store, in Dafny

CamelCube is a small speedcubing desktop tool. Its only logic beyond widgets
and animation lives in `main.py`. This project models two pieces of it.

The **record store** is the `Data` class. It keeps the best solve time in
`data.json` in two slots: `record_now` holds the current best and
`record_before` holds the best it replaced. Each slot has a `time`, which is a
number or `null`, and a `code`, which is the integrity tag `hash(time)`.

- Every access first runs `_check_file`. It rebuilds a missing, incomplete or
  non-JSON file with both slots empty.
- It then runs `_check_times`, which resets every slot whose code does not match
  its time. The repaired file is written back.
- `set_new_record` moves the checked current best into `record_before` and
  writes the new best.

The model is in `record_store.dfy`, module `RecordStore`. The file is an
abstract value (`File`), and every operation is a pure function from the file
before to the file after. The tag function is a parameter
`tag: Time -> int`: any deterministic map from times to integers.

The **solve timer** is the timer logic of `Root`. The source encodes its states
only through which key handlers are bound:

- In the idle view, `<KeyRelease>` starts the timer.
- While the timer runs, a space press stops it.
- The stopped view binds no keys. It shows "count" and "skip" buttons, and both
  lead back to the idle view.
- "count" stores the elapsed time only if there is no best yet or the time is
  strictly smaller than the best.

The model is in `solve_timer.dfy`, module `SolveTimer`. It keeps that encoding:
the bindings, the buttons, the polling loop, `req_to_stop_timer` and `timer`.
From these it derives the three phases Idle, Running and AwaitingDecision. An
explicit transition table `Next` is proved to agree with event dispatch (`Step`)
on every event and on every run of events. Elapsed wall-clock time arrives as
`Tick` events that carry a non-negative amount.

`wrappers.dfy` holds the `Option` type. `Option` models JSON `null` and keys
that may be absent.

This model follows `main.py`, which persists the best time in the checked file.
The code accepts any number as a new best, including zero and negative numbers,
and the model does the same. The code also treats a slot as incomplete when its
`time` or `code` key is missing, not only when a whole slot is missing.

## Model

| member | source | states |
|---|---|---|
| RecordStore.Encode | main.py:17-21 | Writing a store gives a complete file, and loading that file gives back the same store. |
| RecordStore.EncodeLoad | main.py:32-35 | A complete file is exactly the encoding of the two slots read from it. |
| RecordStore.CheckFile | main.py:29-40 | The result is always complete. It equals the input exactly when the input has all four keys. Otherwise both slots are `{None, Tag(None)}`. |
| RecordStore.CheckSlot | main.py:48-52 | The resulting slot is intact. It is unchanged exactly when its code matched the tag of its time, and otherwise its time is `None`. |
| RecordStore.Heal | main.py:48-52 | Both result slots are intact. Each slot is reset to `{None, Tag(None)}` exactly when it was not intact, independently of the other slot. The store is unchanged exactly when both slots were intact. |
| RecordStore.CheckTimes | main.py:42-55 | The written store is healthy, and a healthy complete file is kept. A malformed file becomes two empty slots. A slot keeps a non-null time only if it was that slot's intact time in a complete file, and an intact slot is always kept. |
| RecordStore.CheckTimesIdempotent | main.py:42-55 | Running `_check_times` twice yields the same store and file as running it once. |
| RecordStore.CheckedHealthyFile | main.py:42-55 | A complete file with intact slots is rewritten unchanged. |
| RecordStore.Open | main.py:9-10 | Constructing `Data` leaves exactly the store `_check_times` writes: a complete, healthy file in which only the slots that were not intact are reset. A file that already was complete and healthy is not changed. |
| RecordStore.GetRecordNow | main.py:23-27 | A non-null best is reported only if it is the intact `record_now` time of a complete file, and such a time is always reported. The file is left as exactly the store `_check_times` writes, so an intact `record_before` survives the read. The reported best is its `record_now` time. |
| RecordStore.ReadIsStable | main.py:23-27 | A second read returns the same best and leaves the same file as the first. |
| RecordStore.SetNewRecord | main.py:12-21 | After `set_new_record(x)` the file is healthy. `record_now.time` is `x`, and `record_before.time` is the best a reader saw before the update. |
| RecordStore.SetThenGet | main.py:12-27 | `get_record_now()` right after `set_new_record(x)` returns `x` and does not change the file. |
| RecordStore.SetTwiceShifts | main.py:12-21 | After setting `x` and then `y`, the current best is `y` and the previous best is `x`. |
| RecordStore.SetForgetsBefore | main.py:12-21 | The file written by `set_new_record` depends on the old file only through its checked current best, so the old `record_before` is discarded. |
| RecordStore.TamperedCurrentReadsAbsent | main.py:42-55 | A `record_now` whose code does not match its time reads as no record and is rewritten empty. An intact `record_before` survives. |
| RecordStore.MalformedReadsAbsent | main.py:29-40 | A missing, unparseable or incomplete file reads as no record and is rewritten with both slots empty. |
| SolveTimer.StartTimer | main.py:123-125 | Starting from the idle view enters the running view with the elapsed time still zero, and `<KeyRelease>` is unbound. |
| SolveTimer.AddTick | main.py:127-135 | A polling tick keeps the running view running and never decreases the elapsed time. |
| SolveTimer.StopTimer | main.py:137-157 | Stopping a running timer enters the stopped view: space is unbound, the buttons are shown and the elapsed time is frozen. |
| SolveTimer.Decide | main.py:169-171 | After "count" with time `t`, the best is `t` when there was no best or `t` is strictly smaller, and the old best moves to `record_before`. Otherwise the best is unchanged and the file is only repaired. |
| SolveTimer.ResetTimer | main.py:159-182 | Both buttons return to the idle view with the timer at zero and the idle bindings. "skip" leaves the file untouched, and "count" applies the record rule. |
| SolveTimer.Launch | main.py:59-86 | At startup the program is in the idle view, and the file holds exactly the store `_check_times` makes of the original file. The best it reports is the best of the original file. |
| SolveTimer.IdleView | main.py:177-182 | The view `_reset_timer` leaves is the idle view: `<KeyRelease>` starts the timer, space only refreshes the label, no buttons are shown, nothing polls, the stop flag is cleared and the timer is zero. |
| SolveTimer.Step | main.py:123-182 | From a valid view, every event leads to a valid view whose phase is what the transition table `Next` gives. Only "count" can change the file. Key release, space, ticks and "skip" leave it untouched. |
| SolveTimer.StartOnlyWhenIdle | main.py:123-125 | A key release changes the state only in the idle view. Everywhere else it is a no-op. |
| SolveTimer.StopOnlyWhenRunning | main.py:137-139 | A space press changes the state only while the timer runs, and it keeps the elapsed time. Everywhere else it is a no-op. |
| SolveTimer.TickOnlyWhenRunning | main.py:127-135 | Elapsed time accumulates by exactly the tick amount while the timer runs. At any other time a tick is a no-op. |
| SolveTimer.DecisionOnlyWhenAwaiting | main.py:147-161 | "count" and "skip" do nothing outside the stopped view. |
| SolveTimer.CountRule | main.py:169-171 | In the stopped view, "count" changes the best exactly when there is no best or the time is strictly smaller. The new best is then the time and the old best is shifted back. When the time does not improve, the file is only repaired, exactly as a read would leave it. The view returns to idle. |
| SolveTimer.TieWritesNothing | main.py:169-170 | If the time equals the best and the file is already healthy, "count" leaves the file exactly as it was. |
| SolveTimer.SkipRule | main.py:159-182 | "skip" never touches the file and returns to the idle view with the timer at zero. |
| SolveTimer.StepNoWorse | main.py:169-170 | No event forgets the best time or makes it larger. |
| SolveTimer.RunFollowsTable | main.py:123-182 | Any run of events from a valid view stays valid and ends in the phase the transition table predicts. |
| SolveTimer.RunNoWorse | main.py:169-170 | Over any run of events the best time never gets worse. |
| SolveTimer.MainLoop | main.py:185-186 | Dispatching events one after another gives exactly the run of those events, with every file write kept. It ends in a valid view, in the phase the transition table predicts, with a best no worse than at the start. |

## Left out

- Widget construction, layout and animation are left out: the main menu, the label and padding loops, the best-time label, and the "Cube solver" message box (main.py:72-80, 82-83, 88-121, 141-146, 162-167, 171, 174-175). They keep no state the logic reads. Lines 85-86 of `_init_timer_menu`, which zero the timer and enter the idle view, are modelled by `Launch`. Whether the count/skip buttons are shown (created at main.py:147-157, hidden at main.py:161) is modelled as `Ui.buttons`.
- The main menu is left out. `Launch` begins once the user has chosen the timer.
- Wall-clock sampling is left out. `Tick` events deliver the `time.time()` deltas as non-negative amounts. `time.time()` is not monotonic, so a real delta can be negative; the model does not cover that case.
- The rounding `round(timer, 3)` after each tick is left out. Float arithmetic is modelled as exact `real` arithmetic.
- JSON encoding and file I/O are left out. The file is an abstract value, and every write is assumed to succeed.
- The concrete behaviour of Python's `hash` is left out; the tag is any deterministic function. Before Python 3.12, `hash(None)` can differ between runs. Under a different tag an empty slot is reset to another empty slot, so no time is lost.
- JSON of a shape that makes the source raise `TypeError` cannot be represented. Examples are a top-level array, a slot that is not an object, or an unhashable `time`. The source does not catch these errors and would crash.
- `time` values other than finite numbers and `null` are not modelled: strings, and the non-finite numbers `NaN`, `Infinity` and `-Infinity` that `json.load` accepts. With a matching `code`, such a slot survives the check and its value is returned as the best.
- A `data.json` whose bytes do not decode as text in the locale's encoding is not modelled. `json.load` then raises `UnicodeDecodeError`, which `_check_file` does not catch, so the source crashes. `Unparseable` stands only for decodable text that is not valid JSON, which `_check_file` rebuilds.
- A `code` is an integer in the model. Python compares numbers and booleans by value, so a non-integer `code` such as `5.0` or `true` whose value equals the tag counts as matching, exactly like the integer with that value. Any other non-integer `code` never equals the tag and behaves like a mismatching integer.
- Extra keys in `data.json` are not modelled. `_check_times` keeps them only at the top level of a complete file and inside intact slots. A reset slot or a rebuilt file loses them, and `set_new_record` drops them all.
- Another process changing `data.json` between a read and a write is not modelled. The source does not guard against it.
- SolveTimer.AddTick: its contract says only that the elapsed time does not decrease. SolveTimer.TickOnlyWhenRunning states the exact increment.

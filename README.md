# Alert dispatcher of the obstacle-detection assistant, in Dafny

This project models `AlertSystem` (src/analyzer/alert_system.py), the spoken-alert
dispatcher of an obstacle-detection aid for blind people. The dispatcher holds:

- a FIFO queue of texts to speak, where `None` is the stop sentinel;
- a cooldown table mapping the key `label_position` to the time its last alert was accepted;
- an `is_speaking` flag;
- a fixed cooldown of 3.0 seconds.

`add_alert` drops an alert whose key was accepted less than 3.0 seconds earlier. Otherwise
it formats a sentence, enqueues it and stamps the key. `speak_summary` always enqueues
`"Summary: " + text`. A worker loop speaks the queue in order and stops at the sentinel.
`stop` waits for the queue to drain and then enqueues the sentinel.

The project has three modules:

- `AlertText` (alert_text.dfy) holds the text `add_alert` builds. It covers the alert
  key, the distance in meters or centimeters, and the sentence with its optional
  `"Warning! "` prefix. It also holds the summary text. Numbers are written the way
  Python writes them: `str(int)`, `int(x)` truncating toward zero, and `format(x, ".1f")`
  rounding half to even on the exact value.
- `Dispatch` (dispatch.dfy) is the same object as a pure state machine. There is one
  `State` value per object state and one function per operation. An `Op` trace
  semantics (`Run`, `Submitted`, `History`) carries the properties of whole runs.
- `Alerts` (alert_system.dfy) is the class `AlertSystem`. Its fields are the
  source's fields, and its methods update them in place. Each method's `ensures` states
  the whole new state and equates `Abstract()` with the matching `Dispatch` operation.

The clock is a parameter (`now`). The speech engine is modelled by the field `spoken`:
the texts handed to it, in order.

The debounce key is the string `f"{label}_{position}"`, not the pair (label, position).
Two different pairs share a key when a position contains `_`. Positions from
`get_position` never do, and `AlertKeyInjective` proves the key is one-to-one under that
condition.

## Model

| member | source | states |
|---|---|---|
| `AlertText.NatToDecimal` | src/analyzer/alert_system.py:34 | `str(n)`: a non-empty string of digits that starts with '0' only for 0, and is exactly "0" for 0 (no leading zeros) |
| `AlertText.DecimalRoundTrip` | src/analyzer/alert_system.py:34 | reading the digits of `str(n)` back gives n |
| `AlertText.DecimalUnique` | src/analyzer/alert_system.py:34 | digits without leading zeros are exactly the text `str(n)` writes for their value, so the decimal text of a number is unique |
| `AlertText.IntToDecimal` | src/analyzer/alert_system.py:34 | `str(i)` for any int: '-' exactly when i < 0, then digits without leading zeros, never "-0" |
| `AlertText.IntRoundTrip` | src/analyzer/alert_system.py:34 | reading `str(i)` back, sign included, gives i |
| `AlertText.IntTextUnique` | src/analyzer/alert_system.py:34 | any text of that shape is the `str(i)` of the integer it reads back as: the shape and the value fix the text |
| `AlertText.TruncateToInt` | src/analyzer/alert_system.py:34 | `int(x)` truncates toward zero: the result is within 1 of x, on the same side of 0, and no farther from 0 |
| `AlertText.RoundTenths` | src/analyzer/alert_system.py:34 | the tenths `.1f` prints are within half a tenth of x, and a tie goes to the even count |
| `AlertText.RoundTenthsUnique` | src/analyzer/alert_system.py:34 | those two conditions admit exactly one integer, so they define the rounding |
| `AlertText.FixedOneDecimal` | src/analyzer/alert_system.py:34 | `f"{x:.1f}"` has the shape digits '.' digit, with no leading zero in the integer part |
| `AlertText.FixedOneDecimalValue` | src/analyzer/alert_system.py:34 | the `.1f` text reads back as x rounded to tenths, hence within 0.05 of x |
| `AlertText.FixedOneUnique` | src/analyzer/alert_system.py:34 | any text of the `.1f` shape that reads back as x rounded to tenths is `f"{x:.1f}"` itself |
| `AlertText.DistanceNumber` | src/analyzer/alert_system.py:34 | the number in `dist_str`: from 1 up a `.1f` text reading back as the distance rounded to tenths; below 1 a text of the `str(int)` shape, without leading zeros, reading back as `int(distance*100)` |
| `AlertText.DistanceUnit` | src/analyzer/alert_system.py:34 | the unit is " meters" exactly when distance >= 1 and " centimeters" exactly when distance < 1 |
| `AlertText.DistanceText` | src/analyzer/alert_system.py:34 | `dist_str` ends in " meters" with a `.1f` number when distance >= 1, and in " centimeters" otherwise |
| `AlertText.MetersValue` | src/analyzer/alert_system.py:34 | the number before " meters" reads back as the distance rounded to tenths |
| `AlertText.CentimetersValue` | src/analyzer/alert_system.py:34 | the number before " centimeters" has the `str(int)` shape and reads back as `int(distance*100)` |
| `AlertText.AlertSentence` | src/analyzer/alert_system.py:35 | the sentence is exactly `label + " at " + position + ", "` followed by `dist_str + " away."`: it opens with the first, closes with the second, and is as long as both together |
| `AlertText.AlertMessage` | src/analyzer/alert_system.py:34-37 | below 1.0 the message is "Warning! " followed by the sentence; from 1.0 up it is the sentence itself; it always ends in " away." |
| `AlertText.UnitMatchesDistance` | src/analyzer/alert_system.py:34-37 | the sentence ends in " meters away." iff distance >= 1 and in " centimeters away." iff distance < 1 |
| `AlertText.WarningMatchesDistance` | src/analyzer/alert_system.py:35-37 | the sentence starts with "Warning! " iff distance < 1.0, for every label except "Warning!" and labels starting with "Warning! " (exactly those whose own sentence would open with the prefix) |
| `AlertText.SummaryMessage` | src/analyzer/alert_system.py:42 | the summary text is "Summary: " followed by the submitted text unchanged |
| `AlertText.AlertKey` | src/analyzer/alert_system.py:30 | the key is the label, '_', then the position |
| `AlertText.SplitAlertKey` | src/analyzer/alert_system.py:30 | for a position without '_', the last '_' of the key falls right after the label |
| `AlertText.AlertKeyInjective` | src/analyzer/alert_system.py:30-31 | for positions without '_', two alerts share a debounce key iff they share label and position |
| `Dispatch.Initial` | src/analyzer/alert_system.py:11-16 | after construction nothing has been submitted, the table is empty, the worker is in its loop and idle |
| `Dispatch.Debounced` | src/analyzer/alert_system.py:31-32 | a key never stamped is never dropped; a stamped key is dropped at every time less than 3.0 after its stamp, including earlier times when the clock is set back, and not from then on |
| `Dispatch.AddAlert` | src/analyzer/alert_system.py:28-39 | after `add_alert`, dropped or not, the key is suppressed at `now`; the queue grows by at most one entry at its tail; no key is lost; the worker's state is untouched |
| `Dispatch.SpeakSummary` | src/analyzer/alert_system.py:41-42 | one text starting with "Summary: " at the tail of the queue; the table is neither read nor written |
| `Dispatch.Take` | src/analyzer/alert_system.py:20-23 | `get()` removes the head; a text sets `is_speaking` and adds one entry to the spoken texts; the sentinel ends the loop |
| `Dispatch.Finish` | src/analyzer/alert_system.py:25 | `is_speaking` becomes false and nothing else changes |
| `Dispatch.Step` | src/analyzer/alert_system.py:19-26 | one loop pass: the head leaves the queue and, unless it is the sentinel, is appended to the spoken texts; the sentinel ends the loop; nothing is speaking afterwards |
| `Dispatch.Stop` | src/analyzer/alert_system.py:47 | the queue becomes exactly `[None]`, which a running worker can take next; nothing else changes |
| `Dispatch.DropsExactlyWhenDebounced` | src/analyzer/alert_system.py:31-33 | `add_alert` leaves the whole state unchanged iff the key was stamped less than 3.0 before `now` |
| `Dispatch.AcceptedAlert` | src/analyzer/alert_system.py:34-39 | an accepted alert appends one sentence at the tail and stamps its key with `now`; earlier entries, other keys, the flag and the spoken texts are unchanged |
| `Dispatch.RepeatWithinCooldownDropped` | src/analyzer/alert_system.py:31-39 | after an accepted alert, a second one for the same key less than 3.0 later changes nothing, whatever its distance |
| `Dispatch.ThreeAlerts` | src/analyzer/alert_system.py:28-39 | for a new key, calls at t1, at t2 < t1 + 3.0 and at t3 >= t1 + 3.0 enqueue the first and third sentences only; the comparison is strict, so a repeat exactly 3.0 later is accepted |
| `Dispatch.SummaryNeverDebounced` | src/analyzer/alert_system.py:41-42 | a summary is always appended, and a later `add_alert` keeps the table it would have had without the summary |
| `Dispatch.ApplyKeepsStamps` | src/analyzer/alert_system.py:31-39 | no operation removes a key; a stamp either stays or moves forward by at least 3.0 |
| `Dispatch.RunKeepsStamps` | src/analyzer/alert_system.py:28-42 | over any run of operations no key is lost and no stamp decreases |
| `Dispatch.TakeKeepsHistory` | src/analyzer/alert_system.py:20-23 | taking the head moves a text from the queue to the spoken texts, or consumes the sentinel, without changing the history |
| `Dispatch.ApplyHistory` | src/analyzer/alert_system.py:18-47 | every operation appends exactly what it submits to the history (spoken, consumed sentinel, queue); worker steps reorder nothing |
| `Dispatch.RunHistory` | src/analyzer/alert_system.py:18-47 | over any run, the history grows by the run's submissions in submission order |
| `Dispatch.SpokenInSubmissionOrder` | src/analyzer/alert_system.py:18-42 | the texts handed to the engine are a prefix of everything submitted: FIFO, nothing skipped, nothing invented |
| `Dispatch.Drain` | src/analyzer/alert_system.py:18-26 | running the worker loop leaves the cooldown table untouched and ends with nothing speaking |
| `Dispatch.DrainSpeaksInOrder` | src/analyzer/alert_system.py:18-26 | the loop hands the engine exactly the texts in front of the first sentinel, in queue order; it ends iff a sentinel was queued; what follows the sentinel stays queued |
| `Dispatch.DrainReachesStop` | src/analyzer/alert_system.py:18-45 | a running worker with no sentinel queued drains the queue and stays idle in its loop, which is the state the wait loop of `stop` waits for |
| `Dispatch.StopThenDrain` | src/analyzer/alert_system.py:19-47 | `stop` on a drained system followed by the worker leaves the queue empty and the loop ended, with nothing more spoken |
| `Alerts.AlertSystem.constructor` | src/analyzer/alert_system.py:8-16 | empty queue, empty table, not speaking, cooldown 3.0, worker running |
| `Alerts.AlertSystem.AddAlert` | src/analyzer/alert_system.py:28-39 | debounced: queue and table unchanged; otherwise one sentence appended and the key stamped with `now`; nothing else changes |
| `Alerts.AlertSystem.SpeakSummary` | src/analyzer/alert_system.py:41-42 | appends "Summary: " + text; the table and the other fields are unchanged |
| `Alerts.AlertSystem.WorkerTake` | src/analyzer/alert_system.py:20-23 | the head leaves the queue; a text sets `is_speaking` and goes to the engine; the sentinel ends the loop |
| `Alerts.AlertSystem.WorkerFinish` | src/analyzer/alert_system.py:25 | `is_speaking` becomes false; nothing else changes |
| `Alerts.AlertSystem.WorkerStep` | src/analyzer/alert_system.py:19-26 | one loop pass: the head is removed and spoken unless it is the sentinel, which ends the loop; `is_speaking` is false afterwards |
| `Alerts.AlertSystem.RunWorker` | src/analyzer/alert_system.py:18-26 | the loop appends the texts in front of the first sentinel to `spoken` in queue order; the loop ends iff a sentinel was queued; what follows it stays queued; the table is unchanged and nothing is speaking |
| `Alerts.AlertSystem.Stop` | src/analyzer/alert_system.py:44-47 | from an empty queue with nothing speaking, the queue becomes exactly `[None]`; nothing else changes |

## Left out

- The `pyttsx3` engine (`init`, `setProperty('rate', 175)`, `say`, `runAndWait`) is a foreign speech library. Speaking is an opaque step that appends the text to `spoken`.
- Threads are left out. This covers the daemon thread, the busy-wait in `stop` with `time.sleep(0.1)`, and `join(timeout=2.0)` with its swallowed exception. `Stop` requires the state its wait loop waits for, and `StopThenDrain` stands in for the join.
- Alerts.AlertSystem.WorkerTake: the source does `get()` and then sets `is_speaking` as two steps. The model does both in one step, so the window where `stop` sees an empty queue and no speech while a text is in flight is not modelled. That window does not change the order in which texts are spoken.
- Alerts.AlertSystem.RunWorker: when the queue is empty, `get()` blocks in the source; the model's loop returns instead.
- Dispatch.Drain: makes the same choice as `RunWorker`. It stops on an empty queue, where `get()` would block.
- `queue.Queue.task_done` and its unfinished-task counter are left out, because nothing joins on the queue.
- `time.time()` is left out; the clock reading is the parameter `now`.
- Floating point is left out. Distances and times are exact reals, and `distance*100` is the exact product, without the rounding of a float multiply. The centimetre count can therefore be one less than the program's: for the float 0.3 the exact product is just below 30, so the model says "29 centimeters", while the float multiply rounds to 30.0 and the program says "30 centimeters". NaN and infinities are not modelled: `int(nan*100)` raises in the source, and infinity prints as "inf meters".
- The unused `cv2` import is left out.
- src/analyzer/__init__.py only re-exports names. The geometry and navigation functions in core_logic.py are not part of this model, and neither is the command-line driver src/analyze.py.

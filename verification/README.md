# obs-multi-rtmp: a Dafny model of the multi-target output manager

The OBS plugin `obs-multi-rtmp` pushes the stream that OBS is already
encoding to any number of extra RTMP servers. Each destination is a
`PushWidget`: a target record (name, `rtmp-path`, `rtmp-key`), a libobs
output with its custom service, a main button, a remove button, a status
line, and an fps label fed by a one-second timer. The `MultiOutputWidget`
dock holds the widgets in order and stores their records as a base64
binary-JSON array under the `targets` configuration key.

This project models, as immutable data and pure functions:

- `TargetRecord`: the target record and its JSON codec. `Deserialize` is a
  validator. It accepts an object only when all three keys hold strings.
  Path and key live in `std::string` members filled through `const char*`.
  So they keep only the part before a first NUL character, and the model
  says so with `CStr`.
- `Config`: saving the ordered list as a JSON array, and loading it back
  with every element that is not a valid object skipped.
- `Telemetry`: the timer's fps sample, with the source's unsigned 64-bit
  arithmetic and its millisecond truncation written out.
- `OutputUi`: the widget's visible state as a record, and each host
  notification handler as a transition on it.
- `StartStop`: the main button's click handler as a decision over what the
  host reports.

JSON values are `Json.Value` (string, object, array, anything else). The
base64 and binary-JSON decoding is a parameter `decode: string -> Value`.
The clock is a parameter too: a `nat` count of nanoseconds on the steady
clock. The host's frame counter and its encoder handles are plain numbers.

In these places the plugin's behaviour is easy to misread; the model follows
the code:

- Restoring a target truncates its path and key at a NUL character. It does
  not copy them verbatim.
- No handler looks at the current state. Each one sets the controls
  outright, so the order of notifications is the host's business.
  `OutputUi.Consistent` states what then holds in every reachable state.
- A click on an inactive target with a primary output starts it again. A
  click on an active target force-stops it. A click never reports an error
  about the state the target is in.
- The timer keeps sampling while a stop is pending. Only the stop
  notification halts it.
- Removal is not refused by an operation. The remove button is simply
  disabled outside the idle phase.

## Model

| member | source | states |
|---|---|---|
| TargetRecord.CStr | src/obs-multi-rtmp.cpp:352-353 | the stored path or key is the longest NUL-free prefix of the JSON string; equal to it exactly when it holds no NUL |
| TargetRecord.Serialize | src/obs-multi-rtmp.cpp:332-339 | a target is stored as an object with exactly the keys `name`, `rtmp-path`, `rtmp-key`, each a string |
| TargetRecord.Deserialize | src/obs-multi-rtmp.cpp:341-358 | a target is returned iff all three keys are present and hold strings; the name is copied, path and key keep their C-string prefix; otherwise null |
| TargetRecord.RoundTrip | src/obs-multi-rtmp.cpp:332-358 | deserializing a serialized target gives back the same target |
| TargetRecord.ReverseRoundTrip | src/obs-multi-rtmp.cpp:332-358 | an accepted object without NUL in path or key is reproduced by serializing its target, apart from keys other than the three |
| TargetRecord.IgnoresOtherKeys | src/obs-multi-rtmp.cpp:343-349 | keys other than the three never change the validator's answer |
| TargetRecord.NulTruncatesPath | src/obs-multi-rtmp.cpp:352 | a stored path holding a NUL comes back strictly shorter, cut at the NUL |
| Config.SaveConfig | src/obs-multi-rtmp.cpp:512-525 | the stored document is an array with one element per target, in order, each of which the validator turns back into that target |
| Config.LoadTargets | src/obs-multi-rtmp.cpp:536-544 | loading never yields more targets than elements, and every loaded target comes from some element |
| Config.LoadConfig | src/obs-multi-rtmp.cpp:527-547 | a missing or empty stored string, or a blob that does not decode to an array, gives no targets; an array gives its loaded elements |
| Config.LoadArray | src/obs-multi-rtmp.cpp:536-544 | the element-by-element loop computes exactly the loaded targets |
| Config.LoadTargetsAppend | src/obs-multi-rtmp.cpp:536-544 | loading a concatenation is the concatenation of the loads, so element order is preserved |
| Config.LoadTargetsSingle | src/obs-multi-rtmp.cpp:538-543 | one element yields its target if it is an object that passes validation, else nothing |
| Config.LoadAllValid | src/obs-multi-rtmp.cpp:536-544 | an array of valid objects loads completely, element for element |
| Config.LoadNoneValid | src/obs-multi-rtmp.cpp:536-544 | an array with no valid object loads as no targets |
| Config.SaveLoadItems | src/obs-multi-rtmp.cpp:512-547 | loading the saved array gives back the same targets in the same order |
| Config.SaveLoadRoundTrip | src/obs-multi-rtmp.cpp:512-547 | through any blob codec that decodes what it encoded, the list saved is the list loaded |
| Config.MissingKeyDropped | src/obs-multi-rtmp.cpp:536-544 | one well-formed record and one lacking `rtmp-key` load as exactly the well-formed one |
| Telemetry.ElapsedMillis | src/obs-multi-rtmp.cpp:206 | the interval in whole milliseconds truncated toward zero; positive exactly when at least one millisecond passed |
| Telemetry.Rate | src/obs-multi-rtmp.cpp:209 | without wrap-around the figure is the floor of (new - previous) * 1000 / elapsed milliseconds; it always fits in 64 bits |
| Telemetry.Sample | src/obs-multi-rtmp.cpp:202-215 | the baseline always becomes (new frames, now); the fps figure is recomputed iff a millisecond passed, otherwise unchanged |
| Telemetry.SampleAfterReset | src/obs-multi-rtmp.cpp:202-215 | the first sample after a reset divides the counter's whole reading by the elapsed time, as if the counter had stood at 0 at the reset: the figure is the floor of reading * 1000 / elapsed milliseconds, and the baseline moves to the reading |
| Telemetry.ThirtyFps | src/obs-multi-rtmp.cpp:206-210 | 100 then 130 frames one second apart show 30 |
| Telemetry.NoDivisionWithinAMillisecond | src/obs-multi-rtmp.cpp:206-214 | readings less than a millisecond apart keep the old figure and still advance the baseline |
| Telemetry.BackwardsCounterWraps | src/obs-multi-rtmp.cpp:209 | a counter one below the baseline shows 2^64 - 1000 over one millisecond, the unsigned wrap |
| OutputUi.StatusTextInjective | src/obs-multi-rtmp.cpp:367-454 | different status values are displayed as different texts |
| OutputUi.CaptionsDistinct | src/obs-multi-rtmp.cpp:378-432 | the main button's "start" and "stop" captions are different texts |
| OutputUi.StopMessage | src/obs-multi-rtmp.cpp:434-454 | total: 0 gives the empty message, -1..-4 give address error, connect failure, communication failure, rejected, each iff its code; every other code gives the unknown-error message |
| OutputUi.StopMessageInjective | src/obs-multi-rtmp.cpp:434-454 | the five known codes map to five distinct messages, shared with no other code |
| OutputUi.ResetInfo | src/obs-multi-rtmp.cpp:259-264 | resetting zeroes the baseline at now and clears the fps label, changing nothing else |
| OutputUi.Deliver | src/obs-multi-rtmp.cpp:366-456 | dispatches to the handlers `OnStarting`, `OnStarted`, `OnReconnect`, `OnReconnected`, `OnStopping`, `OnStopped` and `OnTick`; the remove button is enabled after a stop notification and disabled after every other notification; a timer tick touches only baseline and fps, and leaves the state unchanged while the timer is stopped, since a stopped timer delivers no timeouts |
| OutputUi.InitialConsistent | src/obs-multi-rtmp.cpp:218-242 | a new widget is idle: both buttons enabled, caption "start", timer off, no fps |
| OutputUi.DeliverPreservesConsistent | src/obs-multi-rtmp.cpp:366-456 | every handler keeps the controls consistent with the phase, and lands in its phase: starting in connecting, start/reconnect/reconnect-success in live, stopping in stop-pending, stop in idle |
| OutputUi.DeliverAllPreservesConsistent | src/obs-multi-rtmp.cpp:366-456 | any sequence of notifications and ticks keeps the controls consistent |
| OutputUi.Reachable | src/obs-multi-rtmp.cpp:366-456 | every state reachable from a new widget is consistent |
| OutputUi.StoppedResets | src/obs-multi-rtmp.cpp:423-455 | whatever came before, a stop notification leaves remove and main enabled, caption "start", the code's message, timer off, baseline zero at now, fps empty |
| OutputUi.TickAfterReconnected | src/obs-multi-rtmp.cpp:401-411 | after a reconnect-success the next figure is the host counter's whole reading times 1000 over the milliseconds since the reconnect, whatever was counted before, because only the plugin's copy of the count is zeroed |
| OutputUi.StartedAndReconnected | src/obs-multi-rtmp.cpp:378-411 | start runs the timer from a fresh baseline with "stop" enabled; reconnect-success resets the baseline and leaves the timer as it was |
| OutputUi.MainButton | src/obs-multi-rtmp.cpp:367-421 | starting and stopping disable the main button; reconnect enables it captioned "stop"; starting leaves the caption alone |
| OutputUi.RemoveOnlyAfterStop | src/obs-multi-rtmp.cpp:367-432 | after any event sequence the remove button is enabled iff the last notification was a stop, or there was none and it was enabled before |
| OutputUi.NoIdleWithoutStop | src/obs-multi-rtmp.cpp:366-456 | without a stop notification, any notification leaves the widget out of the idle phase |
| StartStop.Click | src/obs-multi-rtmp.cpp:266-312 | creation is attempted iff no output exists and leaves the output null iff it fails; a null or active output takes the force-stop branch; an inactive one without a primary output gets the notice and nothing starts; otherwise it starts with the primary's encoders and the target's server and key |
| StartStop.CreationAttempts | src/obs-multi-rtmp.cpp:268-277 | over any sequence of clicks, a target without an output creates an output and a service once per failed creation plus once for the first success, and a target with an output creates none |
| StartStop.CreatedAtMostOnce | src/obs-multi-rtmp.cpp:268-275 | when every creation succeeds, the output is created at most once, on the first click, and never when it already exists |
| StartStop.NoPrimaryIdempotent | src/obs-multi-rtmp.cpp:277-298 | with no primary output, a click on an inactive target that has an output gives the notice, and repeating it changes nothing |
| StartStop.StartForgetsPrevious | src/obs-multi-rtmp.cpp:279-306 | a start configures the output from the primary and the target alone, whatever an earlier start set |

## Left out

- Widget layout, the edit dialog (`EditOutputWidget`, `ShowEditDlg`), message boxes and dock placement: presentation only. The NUL truncation on editing is the same `CStr` as on loading.
- Adding a target (a new widget plus the edit dialog) and removing one (confirmation, then `delete this`): widget lifetime. The remove button's enabled state, which guards removal, is modelled.
- `RunInUIThread` and the signal-handler wiring in `SetAsHandler`: cross-thread delivery. Handlers are applied one at a time in delivery order. The case where no main window exists and a notification is dropped is not modelled.
- `onDeactive`: it has no behaviour.
- The narrowing of the stop signal's 64-bit `code` to `int` when the handler is called: a host calling convention. The stop message is a function of the `int` the handler receives.
- The base64 and Qt binary-JSON encoding, and `config_get_string` / `config_set_string`: foreign calls. Loading takes the decoder and the stored string as inputs; saving yields the document before encoding.
- libobs handle release and reference counting. Whether `obs_output_create` succeeds is an input; `obs_service_create` is assumed to succeed, so a started output always carries the target's server and key. The release of the borrowed primary output is left out too. An output is represented only by the settings placed in it.
- The UTF-8 conversions between `QString` and `std::string` are taken to be inverse; strings are sequences of characters.
- The fps label's text (`std::to_string(rate) + " FPS"`): the model keeps the number.
- The host frame counter's own `int` range: frame counts are naturals.
- The service created by a click whose output creation fails is overwritten by the next attempt and never released: the model counts creations but does not track the leaked handle.
- The `DockLocation` configuration key: unrelated to the targets.

# xmas-pi light controller in Dafny

xmas-pi drives one string of Christmas lights from a Raspberry Pi and serves
it over HTTP. This project models two things.

The first is the light controller in `lights/client.go`. A light holds:
- an on/off status;
- the done-channels of the blink loops started on it.

It drives one output register through `AllOn()` and `AllOff()`. The register
is modelled only by the log of calls made on it. A send on a done-channel is
modelled only by the log of channels signalled. Both logs are ghost fields of
the class `Lights.Light`, and `Lights.Snapshot` is a value holding all four
fields. Each operation is specified by a function on snapshots (`OnSpec`,
`OffSpec`, `ToggleSpec`, `StopSpec`, `BlinkSpec`). Each method is proved to
change the light exactly as its function says. The class invariant is that the
status is true exactly when the register's last call was `AllOn`.

In the model, the blink loop of `Blink` reads a sequence of events. A `Tick`
is the ticker firing and toggles the light. A `Done` is a signal on the loop's
channel and turns the light off. The loop stops at the first `Done`, so later
events are never read. If the events run out before any `Done`, the loop has
not exited: in the program it would go on waiting.

The second is the `update_light` handler in `main.go`, after the request body
is decoded. A `blink` field starts a blink loop. An `on` field stops every
blink loop and sets the light. With neither field, nothing happens.
`Server.Plan` lists the calls the handler makes, in order. `Server.UpdateLight`
makes those calls, and its result is proved equal to performing them one after
another on the snapshot.

Three places where the code is followed rather than the obvious intent:
- The on-branch of `update_light` (main.go:83-86) switches the light off after
  every request, even after it switched it on because the request said
  `{"on": true}`. The light is always left off. The register does see `AllOn`
  followed by `AllOff` (`Server.OnRequestEndsOff`).
- `Blink` never removes its channel from the list. Every later `StopBlinking`
  signals every channel ever registered, including those of loops that have
  already ended.
- `Blink` appends its channel before creating the ticker (lights/client.go:79-82).
  `time.NewTicker` panics on an interval of zero or less, and such an interval
  decodes from JSON, so `{"blink": 0}` leaves a registered channel and no loop
  (`Server.NonPositiveBlinkOnlyRegisters`).

## Model

| member | source | states |
|---|---|---|
| Lights.Initial | lights/client.go:32-37 | a new light makes one `AllOff` call, is off, has no blinkers, and status agrees with the register |
| Lights.Light.New | lights/client.go:32-37 | the constructed light is valid and its state is `Initial()` |
| Lights.Light.IsOn | lights/client.go:39-43 | returns the status, changes nothing, and the result matches the register's last call |
| Lights.OnSpec | lights/client.go:45-51 | after On the light is on, status agrees with the register, and the blinkers and signals are unchanged |
| Lights.Light.On | lights/client.go:45-51 | the light's new state is `OnSpec` of its old state |
| Lights.OnIdempotent | lights/client.go:45-51 | On twice leaves the same status as On once; the register only sees a second `AllOn` |
| Lights.OffSpec | lights/client.go:53-59 | after Off the light is off, status agrees with the register, and the blinkers and signals are unchanged |
| Lights.Light.Off | lights/client.go:53-59 | the light's new state is `OffSpec` of its old state |
| Lights.OffIdempotent | lights/client.go:53-59 | Off twice leaves the same status as Off once; the register only sees a second `AllOff` |
| Lights.ToggleSpec | lights/client.go:61-67 | Toggle inverts the status, keeps it in agreement with the register, and leaves blinkers and signals alone |
| Lights.Light.Toggle | lights/client.go:61-67 | the light's new state is `ToggleSpec` of its old state |
| Lights.ToggleTwice | lights/client.go:61-67 | two toggles restore the status; the register sees the opposite state, then the original one |
| Lights.StopSpec | lights/client.go:69-75 | StopBlinking signals one channel per registered blinker and changes neither status, blinkers nor register |
| Lights.Light.StopBlinking | lights/client.go:69-75 | the loop signals every registered channel once, in registration order, and nothing else changes |
| Lights.FirstDone | lights/client.go:83-92 | the position where the loop stops reading: every event before it is a Tick, and it is a Done unless the events ran out |
| Lights.FirstDoneAt | lights/client.go:83-92 | a Done preceded only by Ticks is the first Done |
| Lights.TickCallsAt | lights/client.go:89-90 | the register call for the k-th Tick leaves the light in its state after k + 1 flips |
| Lights.BlinkLoopStopsAtFirstDone | lights/client.go:83-92 | the loop exits exactly when some event is a Done; it stops right after the first one, reading only Ticks before it, and reads every event when none is a Done |
| Lights.BlinkLoopTicks | lights/client.go:89-90 | each Tick before the first Done toggles the light; a loop still running has flipped once per event |
| Lights.BlinkLoopEndsOff | lights/client.go:85-88 | a loop that exits leaves the light off, and its last register call is `AllOff` |
| Lights.BlinkLoopIgnoresLater | lights/client.go:83-92 | events after the first Done are never read: appending any events changes nothing |
| Lights.BlinkLoopConsistent | lights/client.go:83-92 | the loop keeps the status in agreement with the register |
| Lights.BlinkSpec | lights/client.go:77-93 | Blink appends exactly its channel to the blinkers, never removes one, and sends no signal; it panics exactly when the interval is zero or less, and then makes no register call and reads no event |
| Lights.BlinkSpecCoherent | lights/client.go:77-93 | Blink keeps the status in agreement with the register, and the light is off once its loop exits |
| Lights.Light.Blink | lights/client.go:77-93 | registers the channel, panics with no loop on a non-positive interval, and otherwise runs the loop; the new state, the panic flag, the events read and the exit flag are those given by `BlinkSpec` |
| Lights.Light.RunLoop | lights/client.go:81-92 | the `for !exit` loop ends in the status, register calls, event count and exit flag given by `BlinkLoop` |
| Lights.LoopStep | lights/client.go:83-91 | one pass of the select keeps the loop's state description: a Tick flips the light, a Done turns it off and exits |
| Lights.LoopExit | lights/client.go:83-92 | where the method's loop stops, `BlinkLoop` reaches the same state |
| Lights.Light.Select | lights/client.go:84-91 | a Done sends `AllOff` and exits; a Tick inverts the status, sends the matching call, and does not exit |
| Lights.StatusJsonRoundTrip | lights/client.go:95-97 | the serialised status reads back as the status |
| Lights.StatusJsonCanonical | lights/client.go:95-97 | the only text that reads back as a status is its serialisation |
| Lights.Light.ToJSON | lights/client.go:95-97 | returns exactly `{"status":true}` or `{"status":false}` for the current status, reads back as that status, and changes nothing |
| Server.Plan | main.go:70-88 | a blink field gives only the Blink call; an on field gives StopBlinking first, then On when it is true, then always Off; neither field gives no call |
| Server.UpdateLight | main.go:70-88 | the light's new state is what performing `Plan(req)` in order gives |
| Server.PerformSeq | main.go:70-88 | performing two call sequences one after the other is performing their concatenation |
| Server.ExecCoherent | main.go:70-88 | every call the handler can make keeps the status in agreement with the register |
| Server.PerformCoherent | main.go:70-88 | any sequence of handler calls keeps the status in agreement with the register |
| Server.BlinkRequestOnlyBlinks | main.go:70-76 | a request with a blink field has Blink's effect only, whatever its on field says, and sends no signal |
| Server.NonPositiveBlinkOnlyRegisters | main.go:70-72 | a blink request with an interval of zero or less only registers its channel: the register is not touched and the status is unchanged |
| Server.OnRequestEndsOff | main.go:78-88 | a request with only an on field signals every blinker, keeps the blinkers, and sends `AllOn, AllOff` or just `AllOff`; the light is left off either way |
| Server.EmptyRequestNoop | main.go:70-89 | a request with neither field changes nothing |

## Left out

- The mutexes `statusMu` and `blinkersMu`: every method is modelled as one atomic step, and concurrent handlers are not modelled.
- Goroutines and the timer: the ticker's timing is not modelled. The interval is inspected only for the panic of `time.NewTicker` when it is zero or less. The loop's input is a given sequence of events, so its timing and the interleaving with other loops are not modelled.
- Channel blocking and buffering: a send on a done-channel is a log entry. The model does not capture that a send to an ended loop blocks `StopBlinking` once the channel's one-slot buffer is full.
- Every blink loop is handed the server's single `sigs` channel, which the `main.go` signal goroutine also reads. Which receiver gets a signal is not modelled.
- The PiFace board, its initialisation and the register pin: the register is the log of `AllOn`/`AllOff` calls.
- Lights.Light.Blink: the panic on a non-positive interval is modelled as a `panicked` result, leaving the state `BlinkSpec` gives: the channel registered, nothing else changed. What `net/http` then does with the panicked handler (the connection closed without a response) is not modelled.
- HTTP routing, status codes, response bodies (including the second `WriteHeader` on the `get_light` error path), reading the request body and `json.Unmarshal`: `UpdateLight` takes the decoded request.
- The `get_light` handler is not modelled beyond `ToJSON`.
- Lights.Light.ToJSON: returns a string rather than a byte slice. It has no error result, because `json.Marshal` cannot fail on a map holding one boolean.
- `fmt.Println` in the blink loop, and the signal and exit goroutines of `main.go`.

# SCARA robot bridge: a Dafny model of `scara_app/consumers.py`

The bridge connects any number of browser clients, over WebSockets, to one
robot controller on a USB serial port. This project models its core:

- choosing the controller's port (`find_arduino_port`);
- one iteration of the connection supervisor (`manage_arduino_connection`);
- the client registry, the status broadcast (`broadcast_status`) and the
  once-only creation of the supervisor task (`RobotConsumer.connect`,
  `disconnect`);
- the command write path (`receive`);
- the per-client reader (`read_from_arduino`) and its per-line dispatch.

The project has six modules, each in its own file:

- `Text` (`text.dfy`) defines the Python string operations the code relies
  on: `strip()`, `in`, `startswith`, `replace(pat, "")` and the ASCII part
  of `lower()`. It proves what they mean, for example that `strip()`
  removes exactly the surrounding white space.
- `Ports` (`ports.dfy`) is the port scan. A pure function gives the first
  matching port, and the loop that does the scan is proved against it.
- `Telemetry` (`telemetry.dfy`) holds the controller's line protocol. It
  classifies each stripped line into one `LineAction`.
- `Bridge` (`bridge.dfy`) is the shared state as one value: the link `ser`,
  `active_clients`, `connection_manager_task`, the running reader tasks and
  each client's outbox. Every handler and every loop iteration is a function
  from one state to the next. `BridgeProperties` (`bridge_properties.dfy`)
  proves what the code promises about those functions.
- `Consumers` (`consumers.dfy`) is the program's own imperative form: a class
  `RobotBridge` whose fields are that shared state and whose methods update
  them in place. `broadcast_status` is a loop over the client set, the reader
  is a `while` loop, and each method's postcondition equates the new fields
  with the `Bridge` function for that step.

Everything that can fail or vary is a parameter of the step it affects:

- the list of serial ports;
- whether opening the port or resetting its input buffer raises, and with
  which exception;
- whether polling `in_waiting` raises;
- which clients' WebSocket sends fail, separately for each broadcast a
  supervisor step makes;
- whether a failed send in a reader raises an `OSError`;
- whether a serial write fails;
- whether the reader hits an I/O error;
- which lines the controller sends, and whether they decode.

A client's received messages are events appended to its outbox:
`connection_status` with a status and a message, or `robot_status` with data.

Behaviour of the code that the model keeps and a reader might not expect:

- A `pos:` line goes only to the client whose reader task read it, not to
  every client. It carries the whole stripped line, `pos:` included, not
  only the remainder.
- `broadcast_status` raises when any send fails, because `asyncio.gather`
  re-raises, although every send is still attempted. A raise in the search
  part of a supervisor step (the search announcement, or the announcement
  of the port found or not found) ends that iteration through the generic
  `except`, so a port that was found is not opened in that iteration. A
  raise inside the `SerialException` handler escapes the loop and ends the
  supervisor task. The task is then never recreated, because
  `connection_manager_task` is no longer `None`.
- In a reader, a send that raises an `OSError` (such as
  `ConnectionResetError` or `BrokenPipeError`) is caught by the loop's
  `except (serial.SerialException, OSError)`, and the reader keeps running.
  Any other exception from a send ends that reader task, and so does a line
  that does not decode (`UnicodeDecodeError` is not an `OSError`).
- `disconnect` uses `set.remove`, so disconnecting a client that is not
  registered raises `KeyError`. It is not a no-op.
- A failed write in `receive` is swallowed, and the link stays open and
  unchanged.
- The status message is the line with every occurrence of `status:` removed,
  then stripped.
- A port whose device name is the empty string counts as not found, because
  of `if arduino_port:`.

## Model

| member | source | states |
|---|---|---|
| Ports.IsController | scara_app/consumers.py:16 | The port test: the description contains "Arduino" or "CH340". `ArduinoDevice`, `FirstController` and `FindArduinoPort` are stated in its terms. |
| Ports.ArduinoDevice | scara_app/consumers.py:14-19 | The result is `None` exactly when no port's description contains "Arduino" or "CH340". Otherwise it is the device of a matching port with no matching port before it. |
| Ports.FirstController | scara_app/consumers.py:15-16 | The index found is at most the number of ports. Every earlier port fails the description test, and the port at the index passes it. |
| Ports.FindArduinoPort | scara_app/consumers.py:15-19 | The scan that returns at the first match gives exactly `ArduinoDevice(ports)`. |
| Text.IsSpace | scara_app/consumers.py:92 | The characters for which Python 3's `str.isspace()` holds, which is what an argument-less `strip()` removes. `StripParts` and `StripUnique` characterise `Strip` in its terms. |
| Text.Strip | scara_app/consumers.py:92 | `strip()` gives a trimmed string no longer than its input. |
| Text.StripParts | scara_app/consumers.py:92 | The input is the result of `strip()` with white space on both sides. |
| Text.StripUnique | scara_app/consumers.py:92 | A trimmed core surrounded by white space strips to exactly that core. |
| Text.StripIgnoresPadding | scara_app/consumers.py:92 | Extra white space around a string does not change what `strip()` gives. |
| Text.StartsWith | scara_app/consumers.py:95-99 | `s.startswith(prefix)`: the first characters of `s` are `prefix`. `ClassifyCases` and `DispatchCases` use it for the three prefix tests. |
| Text.Contains | scara_app/consumers.py:16 | `sub in s`, tried from each start position from the left. `ContainsAt` proves it holds exactly when some slice of `s` is `sub`. |
| Text.ContainsAt | scara_app/consumers.py:16 | `sub in s` holds exactly when some slice of `s` equals `sub`. |
| Text.RemoveAll | scara_app/consumers.py:100 | `s.replace(pat, "")` never makes the string longer. `RemoveAllAbsent` and `RemoveAllKeeps` fix which characters it keeps. |
| Text.RemoveAllAbsent | scara_app/consumers.py:100 | `replace(pat, "")` leaves unchanged a string in which `pat` does not occur. |
| Text.RemoveAllKeeps | scara_app/consumers.py:100 | `replace(pat, "")` keeps a leading stretch in which no occurrence of `pat` starts, and goes on removing after it. |
| Text.LowerSlice | scara_app/consumers.py:102 | Lower-casing a slice gives the same slice of the lower-cased string. |
| Text.Lower | scara_app/consumers.py:102 | `lower()` keeps the length and maps each character by itself. |
| Telemetry.NamesDistinct | scara_app/consumers.py:25 | The three statuses are sent as three different texts. |
| Telemetry.IsReady | scara_app/consumers.py:102 | `"pronto" in message.lower()`. `ReadyIff`, `ReadyWhenPronto` and `NotReadyWithoutP` characterise it. |
| Telemetry.ReadyIff | scara_app/consumers.py:102 | A message counts as ready if and only if six consecutive characters of it spell "pronto" in some mix of ASCII cases. |
| Telemetry.ReadyWhenPronto | scara_app/consumers.py:102 | A message containing any spelling of "pronto" ("pronto", "Pronto", "PRONTO", ...) counts as ready. |
| Telemetry.SampleShouting | scara_app/consumers.py:102 | "Sistema PRONTO" counts as ready. |
| Telemetry.NotReadyWithoutP | scara_app/consumers.py:102 | A message with no `p` or `P` never counts as ready. |
| Telemetry.StatusAnnouncement | scara_app/consumers.py:102-105 | The broadcast a status message becomes: `connected` with "✅ " in front when the message is ready, and otherwise `connecting` with "Arduino: " in front. `StatusAnnounced` and `StatusLine` use it. |
| Telemetry.Classify | scara_app/consumers.py:93-105 | The `if`/`elif` chain on a stripped line. `ClassifyCases` characterises it. |
| Telemetry.Dispatch | scara_app/consumers.py:92-105 | What the reader does with one decoded line: strip it, then classify it. `DispatchCases`, `DispatchIgnoresPadding`, `StatusLine` and `SampleLines` characterise it. |
| Telemetry.DispatchIgnoresPadding | scara_app/consumers.py:92 | White space around a raw line never changes what is done with it. |
| Telemetry.DispatchCases | scara_app/consumers.py:92-105 | What is done with a line is decided by its stripped text. A blank line is skipped, an `ack:` line is acknowledged, a `pos:` line is reported, a `status:` line is announced, and any other line is unrecognised. Each case holds if and only if its test holds, and a report carries the whole stripped line. |
| Telemetry.ClassifyCases | scara_app/consumers.py:93-105 | The same case analysis, on an already stripped line, in the order of the prefix tests. |
| Telemetry.PositionForwardedVerbatim | scara_app/consumers.py:97-98 | A `pos:` line with white space around it is reported with its whole stripped text, prefix included. |
| Telemetry.StatusLine | scara_app/consumers.py:99-105 | For any text after `status:` that does not end in white space, the announcement is made from that text with every further `status:` removed and then stripped. Padding around the whole line is covered by `DispatchIgnoresPadding`. |
| Telemetry.StatusAnnounced | scara_app/consumers.py:99-105 | `status:` followed by white space and a message that holds no further `status:` is announced with exactly that message, including the empty message of a line that is only `status:` and white space. The status is `connected` with "✅ " in front when the message is ready. Otherwise it is `connecting` with "Arduino: " in front. |
| Telemetry.SampleRepeatedPrefix | scara_app/consumers.py:99-105 | "status:a status:b" announces `connecting` "Arduino: a b", since every `status:` is removed. A bare "status:" announces `connecting` "Arduino: " with an empty message. |
| Telemetry.SampleLines | scara_app/consumers.py:92-105 | The protocol's examples. "status: Sistema pronto" gives a connected announcement, "status: Calibrando" gives a connecting announcement, "pos:120,45" is reported verbatim and "noise" is unrecognised. |
| Bridge.AfterBroadcast | scara_app/consumers.py:21-26 | `broadcast_status`: one `connection_status` event to each registered client whose send succeeds. See `BroadcastDelivers`, `BroadcastToNobody`, `BroadcastCount` and `TwoBroadcasts`. `RobotBridge.BroadcastStatus` is proved equal to it. |
| Bridge.Handle | scara_app/consumers.py:46-52 | The two `except` clauses of the supervisor loop. See `HandleSerialFault`, `StepOtherFault` and `SupervisorEnds`. `RobotBridge.HandleFault` is proved equal to it. |
| Bridge.SupervisorStep | scara_app/consumers.py:32-53 | One iteration of the supervisor loop. See `StepWhileOpen`, `StepConnects`, `StepNotFound`, `StepSerialFault`, `StepOtherFault`, `SearchBlockedByFailingClient`, `SupervisorEnds` and `StepFrame`. `RobotBridge.ManageStep` is proved equal to it. |
| Bridge.Connect | scara_app/consumers.py:58-64 | `connect`: register the client, create the supervisor task when none exists, and start the reader. See `ConnectRegisters`, `ApplyKeepsTask` and `StartedOnce`. |
| Bridge.Disconnect | scara_app/consumers.py:66-68 | `disconnect`: `active_clients.remove(self)`. See `DisconnectRemoves` and `ReaderStopsAfterDisconnect`. |
| Bridge.Receive | scara_app/consumers.py:71-84 | `receive`: write the command and a newline to an open link. See `ReceiveWrites` and `CommandDroppedWhileSearching`. |
| Bridge.React | scara_app/consumers.py:95-107 | The reader's action on one dispatched line, with the `except` at :106 catching an `OSError` from a send. See `PositionGoesToReader`, `StatusGoesToAll`, `QuietLinesReachNobody` and `ReaderEnds`. |
| Bridge.ReadStep | scara_app/consumers.py:88-107 | One iteration of `read_from_arduino`. See `ReaderStopsAfterDisconnect`, `ReaderKeepsRunning`, `ReaderEnds` and `UndecodableEndsReader`. `RobotBridge.ReadOnce` is proved equal to it. |
| Bridge.Drain | scara_app/consumers.py:88-108 | The reader loop run until it is idle. See `DrainKeepsRegistry` and `DrainConsumesAll`. `RobotBridge.ReadLoop` is proved equal to it. |
| BridgeProperties.BroadcastDelivers | scara_app/consumers.py:23-26 | A broadcast appends exactly one `connection_status` event, with the given status and message, to every registered client whose send succeeds. No other outbox changes, and no other part of the state changes. |
| BridgeProperties.BroadcastToNobody | scara_app/consumers.py:23 | With no registered client, a broadcast changes nothing and does not raise. |
| BridgeProperties.BroadcastCount | scara_app/consumers.py:26 | The clients whose outbox grows are exactly the registered clients whose send succeeds. |
| BridgeProperties.ThreeClients | scara_app/consumers.py:26 | With three clients, a broadcast makes three deliveries. When one send fails, the other two clients still receive the event and the broadcast raises. |
| BridgeProperties.TwoBroadcasts | scara_app/consumers.py:35-43 | Two broadcasts in a row append both events, in order, to every registered client. |
| BridgeProperties.StepWhileOpen | scara_app/consumers.py:44-45 | With the link open and the poll answering, a step changes nothing. |
| BridgeProperties.StepConnects | scara_app/consumers.py:34-41 | With the link absent or closed, a controller found, and no send failing in either announcement, every registered client gets `connecting` "Procurando Arduino..." and then `connecting` "Conectando em <port>...". The link becomes that port, open at 115200 baud with a one-second timeout, with its stale input discarded. |
| BridgeProperties.StepNotFound | scara_app/consumers.py:34-43 | With no controller found and no send failing in either announcement, every client gets `connecting` and then `disconnected` with the not-found text. Nothing else changes. |
| BridgeProperties.StepSerialFault | scara_app/consumers.py:46-50 | When none of the step's sends fails, a `SerialException` from the poll, the open or the reset drops the link. The loop keeps running, and every registered client's latest event is `disconnected` with the error text. When the handler's broadcast raises, the task ends instead; see `SupervisorEnds`. |
| BridgeProperties.HandleSerialFault | scara_app/consumers.py:46-50 | The `SerialException` handler drops the link and broadcasts `disconnected` with the error text. |
| BridgeProperties.StepOtherFault | scara_app/consumers.py:51-52 | When neither announcement of the search has a failing send, any other exception is only logged. Nothing more is broadcast, the loop keeps running, and the link is what it was when the exception was raised. |
| BridgeProperties.OpenFaultHandled | scara_app/consumers.py:35-41 | A fault while opening the found port reaches the handler after both `connecting` broadcasts, with the new port as the link when only the buffer reset failed. |
| BridgeProperties.SearchBlockedByFailingClient | scara_app/consumers.py:35-38 | When the search broadcast raises, or a port was found and the broadcast announcing it raises, the iteration ends and the port is not opened. When the search broadcast raised, the state is exactly what that broadcast left. |
| BridgeProperties.SupervisorEnds | scara_app/consumers.py:34-50 | The supervisor task ends exactly when a `SerialException` reaches the handler and the handler's `disconnected` broadcast raises. The exception comes from the poll of the open link, or from opening the found port after both announcements went out. The link is dropped before that broadcast, so a task that ended leaves no link. |
| BridgeProperties.StepFrame | scara_app/consumers.py:28-53 | A step never touches the client set or the reader tasks. It never replaces an open link, and it opens only the port the scan found. |
| BridgeProperties.ConnectRegisters | scara_app/consumers.py:61-64 | `connect` registers the client and starts its reader. Every existing outbox is kept. The supervisor task is created only when none exists. |
| BridgeProperties.ApplyKeepsTask | scara_app/consumers.py:62-63 | Only a `connect` creates the supervisor task, and no step removes it. |
| BridgeProperties.StartedOnce | scara_app/consumers.py:62-63 | Over any run the supervisor task is created at most once. It is never created when one exists, and otherwise it is created exactly once if and only if some client connects. |
| BridgeProperties.StartedOnceFromImport | scara_app/consumers.py:56-63 | From import time, a supervisor task exists after a run exactly when some client connected, and it was created once. |
| BridgeProperties.DisconnectRemoves | scara_app/consumers.py:68 | `disconnect` removes exactly that client and keeps every other one. It raises, changing nothing, exactly when the client is not registered. |
| BridgeProperties.ReaderStopsAfterDisconnect | scara_app/consumers.py:88 | After `disconnect`, the client's reader ends at its next check and changes nothing else. |
| BridgeProperties.ReaderKeepsRunning | scara_app/consumers.py:88-107 | A registered client's reader keeps running through a step unless its line does not decode or a send raises something other than an `OSError`. |
| BridgeProperties.ReaderEnds | scara_app/consumers.py:95-107 | On a decoded line, the reader ends exactly when the line calls for a send and that send raises something other than an `OSError`. For a `pos:` line that is its own send; for a `status:` line it is any send of the broadcast. |
| BridgeProperties.ReceiveWrites | scara_app/consumers.py:77-84 | `receive` appends exactly the command plus "\n" to the commands written to an open link whose write succeeds. Otherwise nothing changes. Nothing besides the link's written commands ever changes. |
| BridgeProperties.CommandDroppedWhileSearching | scara_app/consumers.py:79 | With no link, a command is dropped and the state is unchanged. |
| BridgeProperties.PositionGoesToReader | scara_app/consumers.py:97-98 | When the reading client's send succeeds, a `pos:` line is consumed and becomes a `robot_status` event with the stripped line, in the reading client's outbox only. |
| BridgeProperties.StatusGoesToAll | scara_app/consumers.py:99-105 | When none of the broadcast's sends fails, a `status:` line is consumed and its `connection_status` event is appended to every registered client's outbox. |
| BridgeProperties.QuietLinesReachNobody | scara_app/consumers.py:93-96 | Blank, `ack:` and unrecognised lines are consumed and reach no client. |
| BridgeProperties.UndecodableEndsReader | scara_app/consumers.py:92 | A line that does not decode is consumed and ends the reader task. |
| BridgeProperties.ReadyLineConnectsEveryone | scara_app/consumers.py:99-103 | When none of the broadcast's sends fails, a well-formed "pronto" status line read by any client tells every registered client `connected`. |
| BridgeProperties.ApplyKeepsValid | scara_app/consumers.py:55-108 | Every handler and loop step keeps an outbox for every registered client and running reader. |
| BridgeProperties.RunKeepsValid | scara_app/consumers.py:55-108 | The same holds over any sequence of steps. |
| BridgeProperties.DrainKeepsRegistry | scara_app/consumers.py:88-108 | The reader loop never changes the client set or the supervisor task, and it only ever ends reader tasks. |
| BridgeProperties.DrainConsumesAll | scara_app/consumers.py:88-107 | If the client stays registered, its sends succeed or fail only with an `OSError`, and every waiting line decodes, then the loop consumes the whole input buffer. The reader keeps running and no command is written. |
| Consumers.RobotBridge.constructor | scara_app/consumers.py:9-10 | Import time: no link, no client, no supervisor task. |
| Consumers.RobotBridge.BroadcastStatus | scara_app/consumers.py:21-26 | The loop over the clients leaves the outboxes as `AfterBroadcast` gives them, and the fields stay valid. It reports a raise exactly when some registered client's send fails. |
| Consumers.RobotBridge.HandleFault | scara_app/consumers.py:46-52 | The two handlers change the fields as `Handle` does: close and drop the link, broadcast, and end the task if that broadcast raises. The fields stay valid. |
| Consumers.RobotBridge.ManageStep | scara_app/consumers.py:32-53 | One supervisor iteration changes the fields exactly as `SupervisorStep` does, with separate failing sends for each of its broadcasts. The fields stay valid. |
| Consumers.RobotBridge.Connect | scara_app/consumers.py:58-64 | The fields become `Connect` of the old ones, and they stay valid. |
| Consumers.RobotBridge.Disconnect | scara_app/consumers.py:66-68 | The fields become `Disconnect` of the old ones. The result is `KeyError` exactly for an unregistered client. |
| Consumers.RobotBridge.Receive | scara_app/consumers.py:71-84 | The fields become `Receive` of the old ones, and they stay valid. |
| Consumers.RobotBridge.React | scara_app/consumers.py:95-107 | Acting on one dispatched line changes the fields as `React` does: a failed send ends the reader unless it raised an `OSError`. The fields stay valid. |
| Consumers.RobotBridge.ReadOnce | scara_app/consumers.py:88-107 | One reader iteration changes the fields as `ReadStep` does, and they stay valid. |
| Consumers.RobotBridge.ReadLoop | scara_app/consumers.py:88-108 | The loop leaves the fields as `Drain` gives them, the reader is then idle, and the fields stay valid. |

## Left out

- Serial I/O through pyserial (`comports`, `Serial`, `in_waiting`,
  `readline`, `write`, `reset_input_buffer`, `close`) is not modelled as
  real I/O. Each call is an injected outcome, and a port is a record with a
  device and a description. `close()` shows up only as the link being
  dropped.
- asyncio timing is left out:
  - the sleeps of 2 s, 3 s, 1 s and 0.05 s;
  - task creation;
  - the interleaving of tasks at `await` points.

  Each handler and loop iteration is one atomic step, and a run is any
  sequence of steps. The 2-second settle time between opening the port and
  resetting its buffer is part of the open step.
- Which of several reader tasks receives a given line is chosen by the order
  of the steps, not modelled as a race.
- WebSocket transport, `accept()` and `json.dumps` are not modelled as
  such. A client's outbox holds event values. Sends are attempted for every
  client; "fails" means the send raises.
- UTF-8 decoding is left out. A line is either a decoded string or one
  marker for bytes that do not decode.
- Logging calls are left out.
- `Text.Lower`: covers ASCII letters only. The only non-ASCII characters
  whose lowercase form is an ASCII letter give `i` and `k`, and neither
  occurs in "pronto". So the "pronto" test agrees with Python's `lower()`.
- `Text.IsSpace`: lists Python's white-space characters explicitly. No
  Unicode database is modelled.
- `Consumers.RobotBridge.ReadLoop`: runs the reader with no I/O errors and
  no other task interleaving, until it is idle. The real loop keeps polling
  for as long as the client is registered.
- The code never cancels the supervisor or closes the link at shutdown, so
  shutdown is not modelled.
- When several sends of one reader broadcast fail with different exception
  types, `asyncio.gather` re-raises the first to fail. The model does not
  order the sends, so one flag per reader step says whether the exception
  that surfaces is an `OSError`.
- scara_app/kinematics.py is not part of this model: it is floating-point
  trigonometry.
- run.py is not part of this model: it does network discovery, mDNS, QR
  output and process launch.
- scara_project/settings.py and scara_project/asgi.py are not part of this
  model: they are framework configuration.

/** The state the bridge shares between its background supervisor task and the
    per-client tasks (the module-level `ser` and `active_clients`, the class attribute
    `RobotConsumer.connection_manager_task`, the running `read_from_arduino` tasks and
    what each web client has been sent), and one step of each task as a function of it.
    Serial-port and WebSocket effects that can fail are injected as outcomes. */
module Bridge {
  import opened Text
  import opened Ports
  import opened Telemetry

  /** A connected web client (one consumer instance). */
  type ClientId = nat

  /** One line as `readline()` returns it: bytes that decode as UTF-8, or bytes that do not. */
  datatype RawLine = Decoded(text: string) | Undecodable

  const BaudRate: nat := 115200
  const ReadTimeout: nat := 1

  /** The module-level serial link `ser`: no port object, or a port with its device,
      baud rate and read timeout, whether it is open, the lines waiting in its input
      buffer and the commands written to it so far. */
  datatype Link =
    | NoLink
    | Serial(device: string, baudrate: nat, timeout: nat, isOpen: bool,
             input: seq<RawLine>, written: seq<string>)

  /** `ser and ser.is_open` */
  predicate IsOpen(link: Link)
  {
    link.Serial? && link.isOpen
  }

  /** The supervisor task stored in `RobotConsumer.connection_manager_task`: none yet,
      running its loop, or ended by an exception that escaped the loop. */
  datatype Task = NotStarted | Running | Crashed

  datatype State = State(
    link: Link,
    clients: set<ClientId>,
    supervisor: Task,
    readers: set<ClientId>,
    outbox: map<ClientId, seq<Event>>)

  /** Every registered client and every running reader task has an outbox. */
  predicate Valid(s: State)
  {
    s.clients <= s.outbox.Keys && s.readers <= s.outbox.Keys
  }

  /** The state at import time: `ser = None`, `active_clients = set()`, no task. */
  const Initial := State(NoLink, {}, NotStarted, {}, map[])

  // ---------------------------------------------------------------- broadcast_status

  /** Each client in `targets` whose send does not fail gets `ev` appended. */
  function Delivered(outbox: map<ClientId, seq<Event>>, targets: set<ClientId>,
                     failing: set<ClientId>, ev: Event): map<ClientId, seq<Event>>
  {
    map c | c in outbox :: if c in targets && c !in failing then outbox[c] + [ev] else outbox[c]
  }

  /** The gathered sends to `targets` raise when any of them fails. */
  predicate SendFails(targets: set<ClientId>, failing: set<ClientId>)
  {
    targets * failing != {}
  }

  /** `broadcast_status(status, message)`: one `connection_status` event to every
      registered client (none when there are none). */
  function AfterBroadcast(s: State, failing: set<ClientId>, status: Status, message: string): State
  {
    s.(outbox := Delivered(s.outbox, s.clients, failing, ConnectionStatus(status, message)))
  }

  /** `broadcast_status` raises: the send to some registered client failed. */
  predicate BroadcastRaises(s: State, failing: set<ClientId>)
  {
    SendFails(s.clients, failing)
  }

  /** The clients whose outbox grew from `before` to `after`. */
  function Grown(before: map<ClientId, seq<Event>>, after: map<ClientId, seq<Event>>): set<ClientId>
  {
    set c | c in before && c in after && |after[c]| > |before[c]|
  }

  // ------------------------------------------------------ manage_arduino_connection

  const SearchingMessage := "Procurando Arduino..."
  const NotFoundMessage := "\U{26A0}\U{FE0F} Arduino n\U{E3}o encontrado. Verifique o cabo USB."

  function OpeningMessage(device: string): string
  {
    "Conectando em " + device + "..."
  }

  function ErrorMessage(reason: string): string
  {
    "\U{26A0}\U{FE0F} Erro de conex\U{E3}o: " + reason
  }

  /** An exception raised by a serial operation: a `SerialException` or any other
      exception, with its text. */
  datatype Fault = SerialFault(reason: string) | OtherFault(reason: string)

  /** What opening the found port does: it opens (its input buffer then holds `stale`
      and is reset), the constructor raises, or it opens and the input-buffer reset raises. */
  datatype OpenOutcome =
    | Opened(stale: seq<RawLine>)
    | OpenFailed(fault: Fault)
    | ResetFailed(stale: seq<RawLine>, fault: Fault)

  /** What reading `in_waiting` on the open link does. */
  datatype PollOutcome = Polled | PollFailed(fault: Fault)

  /** The two `except` clauses of the loop body; `s.link` is `ser` when the exception
      was raised. A `SerialException` closes and drops the link and broadcasts
      `disconnected`; when that broadcast itself raises, the exception leaves the loop
      and the task ends. Any other exception is only logged. */
  function Handle(s: State, fault: Fault, failing: set<ClientId>): State
  {
    match fault
    case SerialFault(reason) =>
      var s1 := s.(link := NoLink);
      var s2 := AfterBroadcast(s1, failing, Disconnected, ErrorMessage(reason));
      if BroadcastRaises(s1, failing) then s2.(supervisor := Crashed) else s2
    case OtherFault(_) => s
  }

  /** The open link a successful `serial.Serial(device, 115200, timeout=1)` creates. */
  function OpenedLink(device: string, input: seq<RawLine>): Link
  {
    Serial(device, BaudRate, ReadTimeout, true, input, [])
  }

  /** The clients whose send fails in each broadcast one supervisor step can make: the
      search announcement, the second announcement (the port being opened, or none
      found) and the `disconnected` broadcast of the `SerialException` handler. */
  datatype StepFailures = StepFailures(search: set<ClientId>, second: set<ClientId>, handler: set<ClientId>)

  /** One iteration of the supervisor's `while True` loop (the sleeps aside). A
      broadcast that raises outside the `SerialException` handler ends the iteration
      through the generic `except`. */
  function SupervisorStep(s: State, ports: seq<PortInfo>, failing: StepFailures,
                          open: OpenOutcome, poll: PollOutcome): State
  {
    if !s.supervisor.Running? then s
    else if IsOpen(s.link) then
      match poll
      case Polled => s
      case PollFailed(f) => Handle(s, f, failing.handler)
    else
      var s1 := AfterBroadcast(s, failing.search, Connecting, SearchingMessage);
      if BroadcastRaises(s, failing.search) then s1
      else
        var port := ArduinoDevice(ports);
        if port.None? || port.value == [] then
          AfterBroadcast(s1, failing.second, Disconnected, NotFoundMessage)
        else
          var s2 := AfterBroadcast(s1, failing.second, Connecting, OpeningMessage(port.value));
          if BroadcastRaises(s1, failing.second) then s2
          else
            match open
            case Opened(_) => s2.(link := OpenedLink(port.value, []))
            case OpenFailed(f) => Handle(s2, f, failing.handler)
            case ResetFailed(stale, f) => Handle(s2.(link := OpenedLink(port.value, stale)), f, failing.handler)
  }

  /** The exception the serial operations of a step raise, if any: the poll on an open
      link, or the open of a found port. */
  function StepFault(s: State, ports: seq<PortInfo>, open: OpenOutcome, poll: PollOutcome): Option<Fault>
  {
    if IsOpen(s.link) then
      if poll.PollFailed? then Some(poll.fault) else None
    else
      var port := ArduinoDevice(ports);
      if port.None? || port.value == [] || open.Opened? then None else Some(open.fault)
  }

  // ------------------------------------------------------- RobotConsumer.connect etc.

  /** `connect`: register the client, create the supervisor task when there is none,
      and start the client's reader task. */
  function Connect(s: State, c: ClientId): State
  {
    s.(clients := s.clients + {c},
       supervisor := if s.supervisor.NotStarted? then Running else s.supervisor,
       readers := s.readers + {c},
       outbox := if c in s.outbox then s.outbox else s.outbox[c := []])
  }

  /** `disconnect`: `active_clients.remove(self)`, which raises `KeyError` for a client
      that is not registered. */
  function Disconnect(s: State, c: ClientId): State
  {
    if c in s.clients then s.(clients := s.clients - {c}) else s
  }

  predicate DisconnectRaises(s: State, c: ClientId)
  {
    c !in s.clients
  }

  /** `receive`: write the command plus a newline when the link is open; a failed write
      is swallowed and leaves the link as it was. */
  function Receive(s: State, text: string, writeFails: bool): State
  {
    if IsOpen(s.link) && !writeFails then s.(link := s.link.(written := s.link.written + [text + "\n"]))
    else s
  }

  /** What the reader task of client `c` does with one dispatched line. A send or
      broadcast that raises is caught by the loop's `except` when the exception is an
      `OSError` (`osError`), and otherwise ends the reader task; the sends that
      succeeded stand either way. */
  function React(s: State, c: ClientId, failing: set<ClientId>, osError: bool, a: LineAction): State
  {
    match a
    case Report(line) =>
      if c !in failing then s.(outbox := Delivered(s.outbox, {c}, {}, RobotStatus(line)))
      else if osError then s
      else s.(readers := s.readers - {c})
    case Announce(status, message) =>
      var s1 := AfterBroadcast(s, failing, status, message);
      if BroadcastRaises(s, failing) && !osError then s1.(readers := s1.readers - {c}) else s1
    case _ => s
  }

  /** One iteration of `read_from_arduino` for client `c`. The loop ends once `c` is no
      longer registered; an I/O error while polling or reading is caught and nothing is
      consumed; a line that does not decode raises `UnicodeDecodeError`, which is not
      caught, out of the loop. */
  function ReadStep(s: State, c: ClientId, failing: set<ClientId>, osError: bool, ioFault: bool): State
  {
    if c !in s.readers then s
    else if c !in s.clients then s.(readers := s.readers - {c})
    else if !IsOpen(s.link) || ioFault || s.link.input == [] then s
    else
      var s1 := s.(link := s.link.(input := s.link.input[1..]));
      match s.link.input[0]
      case Undecodable => s1.(readers := s1.readers - {c})
      case Decoded(text) => React(s1, c, failing, osError, Dispatch(text))
  }

  /** The reader task of `c` has nothing to do: it has ended, or the link is not open,
      or no line is waiting. */
  predicate Idle(s: State, c: ClientId)
  {
    c !in s.readers || !IsOpen(s.link) || s.link.input == []
  }

  /** How many lines are waiting on the link. */
  function Backlog(s: State): nat
  {
    if s.link.Serial? then |s.link.input| else 0
  }

  /** The reader loop of `c` run on its own, without I/O errors, until it is idle. */
  function Drain(s: State, c: ClientId, failing: set<ClientId>, osError: bool): State
    decreases Backlog(s), if c in s.readers then 1 else 0
  {
    if Idle(s, c) then s
    else
      ReadStepProgress(s, c, failing, osError);
      Drain(ReadStep(s, c, failing, osError, false), c, failing, osError)
  }

  /** Reacting to a line leaves the link alone. */
  lemma ReactKeepsLink(s: State, c: ClientId, failing: set<ClientId>, osError: bool, a: LineAction)
    ensures React(s, c, failing, osError, a).link == s.link
  {
  }

  /** A step of a reader that is not idle consumes a line or ends the reader. */
  lemma ReadStepProgress(s: State, c: ClientId, failing: set<ClientId>, osError: bool)
    requires !Idle(s, c)
    ensures var s' := ReadStep(s, c, failing, osError, false);
      Backlog(s') < Backlog(s) || (Backlog(s') == Backlog(s) && c !in s'.readers)
  {
    if c in s.clients {
      var s1 := s.(link := s.link.(input := s.link.input[1..]));
      match s.link.input[0]
      case Undecodable =>
      case Decoded(text) =>
        ReactKeepsLink(s1, c, failing, osError, Dispatch(text));
    }
  }

  /** The controller sends a line: it is queued in the input buffer of an open link. */
  function DeviceSends(s: State, line: RawLine): State
  {
    if IsOpen(s.link) then s.(link := s.link.(input := s.link.input + [line])) else s
  }

  // ---------------------------------------------------------------- whole runs

  /** Anything that can happen next. */
  datatype Op =
    | Join(c: ClientId)
    | Leave(c: ClientId)
    | Command(text: string, writeFails: bool)
    | Supervise(ports: seq<PortInfo>, sends: StepFailures, open: OpenOutcome, poll: PollOutcome)
    | Read(c: ClientId, failing: set<ClientId>, osError: bool, ioFault: bool)
    | Device(line: RawLine)

  function Apply(s: State, op: Op): State
  {
    match op
    case Join(c) => Connect(s, c)
    case Leave(c) => Disconnect(s, c)
    case Command(text, fails) => Receive(s, text, fails)
    case Supervise(ports, failing, open, poll) => SupervisorStep(s, ports, failing, open, poll)
    case Read(c, failing, osError, ioFault) => ReadStep(s, c, failing, osError, ioFault)
    case Device(line) => DeviceSends(s, line)
  }

  function Run(s: State, ops: seq<Op>): State
    decreases |ops|
  {
    if ops == [] then s else Run(Apply(s, ops[0]), ops[1..])
  }

  /** How many times a run creates the supervisor task. */
  function Starts(s: State, ops: seq<Op>): nat
    decreases |ops|
  {
    if ops == [] then 0
    else (if s.supervisor.NotStarted? && ops[0].Join? then 1 else 0) + Starts(Apply(s, ops[0]), ops[1..])
  }
}

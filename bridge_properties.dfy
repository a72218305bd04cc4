/** What the bridge's transitions guarantee: who receives which event, what each
    supervisor step does to the link, the once-only start of the supervisor, the
    client registry, the command write path and the reader tasks. */
module BridgeProperties {
  import opened Text
  import opened Ports
  import opened Telemetry
  import opened Bridge

  // ---------------------------------------------------------------- broadcast_status

  /** When the gathered sends do not raise, no target's send failed. */
  lemma NoFailingTarget(targets: set<ClientId>, failing: set<ClientId>)
    requires !SendFails(targets, failing)
    ensures forall c :: c in targets ==> c !in failing
  {
    forall c | c in targets
      ensures c !in failing
    {
      assert c in failing ==> c in targets * failing;
    }
  }

  /** Sending to nobody delivers nothing. */
  lemma DeliveredToNobody(outbox: map<ClientId, seq<Event>>, failing: set<ClientId>, ev: Event)
    ensures Delivered(outbox, {}, failing, ev) == outbox
  {
    assert forall c :: c in outbox ==> Delivered(outbox, {}, failing, ev)[c] == outbox[c];
  }

  /** Sending to one more client `c` changes that client's outbox and no other, so the
      sends of a broadcast can be made one client at a time. */
  lemma DeliveredOneMore(outbox: map<ClientId, seq<Event>>, targets: set<ClientId>,
                         failing: set<ClientId>, ev: Event, c: ClientId)
    requires c in outbox && c !in targets
    ensures Delivered(outbox, targets + {c}, failing, ev)
         == var d := Delivered(outbox, targets, failing, ev);
            if c in failing then d else d[c := outbox[c] + [ev]]
  {
  }

  /** The gathered sends to one more client raise exactly when the earlier ones did or
      the new one fails. */
  lemma SendFailsOneMore(targets: set<ClientId>, failing: set<ClientId>, c: ClientId)
    ensures SendFails(targets + {c}, failing) <==> SendFails(targets, failing) || c in failing
  {
    if c in failing {
      assert c in (targets + {c}) * failing;
    }
    if SendFails(targets, failing) {
      var x :| x in targets * failing;
      assert x in (targets + {c}) * failing;
    }
  }

  /** A broadcast appends exactly one `connection_status` event with the given status
      and message to each registered client whose send succeeds, and changes nothing
      else: no other outbox, and no part of the state besides the outboxes. */
  lemma BroadcastDelivers(s: State, failing: set<ClientId>, status: Status, message: string)
    requires Valid(s)
    ensures var s' := AfterBroadcast(s, failing, status, message);
      && s'.outbox.Keys == s.outbox.Keys
      && (forall c :: c in s.clients && c !in failing ==>
            s'.outbox[c] == s.outbox[c] + [ConnectionStatus(status, message)])
      && (forall c :: c in s.outbox && (c !in s.clients || c in failing) ==> s'.outbox[c] == s.outbox[c])
      && s'.(outbox := s.outbox) == s
  {
  }

  /** With no client registered a broadcast does nothing and raises nothing. */
  lemma BroadcastToNobody(s: State, failing: set<ClientId>, status: Status, message: string)
    requires s.clients == {}
    ensures AfterBroadcast(s, failing, status, message) == s
    ensures !BroadcastRaises(s, failing)
  {
    var o := AfterBroadcast(s, failing, status, message).outbox;
    assert o.Keys == s.outbox.Keys;
    assert forall c :: c in o ==> o[c] == s.outbox[c];
    assert o == s.outbox;
  }

  /** The clients that receive a broadcast are exactly the registered clients whose
      send succeeds, so there are as many deliveries as such clients. */
  lemma BroadcastCount(s: State, failing: set<ClientId>, status: Status, message: string)
    requires Valid(s)
    ensures Grown(s.outbox, AfterBroadcast(s, failing, status, message).outbox) == s.clients - failing
    ensures |Grown(s.outbox, AfterBroadcast(s, failing, status, message).outbox)|
         == |s.clients| - |s.clients * failing|
  {
    var g := Grown(s.outbox, AfterBroadcast(s, failing, status, message).outbox);
    assert g == s.clients - failing;
    assert s.clients == (s.clients - failing) + (s.clients * failing);
    assert (s.clients - failing) * (s.clients * failing) == {};
  }

  /** Three registered clients and one broadcast: three deliveries; when the send to
      one of them fails, the other two still receive the event. */
  lemma ThreeClients(s: State, status: Status, message: string)
    requires Valid(s) && s.clients == {1, 2, 3}
    ensures |Grown(s.outbox, AfterBroadcast(s, {}, status, message).outbox)| == 3
    ensures Grown(s.outbox, AfterBroadcast(s, {2}, status, message).outbox) == {1, 3}
    ensures BroadcastRaises(s, {2})
  {
    BroadcastCount(s, {}, status, message);
    BroadcastCount(s, {2}, status, message);
    assert s.clients * {2} == {2};
    assert 2 in s.clients * {2};
  }

  // ------------------------------------------------------ manage_arduino_connection

  /** No broadcast of the step raises: no registered client's send fails in any of them. */
  predicate NoSendFails(clients: set<ClientId>, f: StepFailures)
  {
    !SendFails(clients, f.search) && !SendFails(clients, f.second) && !SendFails(clients, f.handler)
  }

  /** `ev` is the latest event of the outbox `q`. */
  predicate LastIs(q: seq<Event>, ev: Event)
  {
    |q| > 0 && q[|q| - 1] == ev
  }

  /** With the link open and `in_waiting` answering, a step changes nothing. */
  lemma StepWhileOpen(s: State, ports: seq<PortInfo>, f: StepFailures, open: OpenOutcome)
    requires IsOpen(s.link)
    ensures SupervisorStep(s, ports, f, open, Polled) == s
  {
  }

  /** Link absent or closed, controller found, port opened: every registered client is
      told `connecting` twice ("Procurando Arduino..." then "Conectando em <port>..."),
      and the link becomes the found device opened at 115200 baud with a one-second
      timeout, its stale input discarded and nothing written yet. */
  lemma StepConnects(s: State, ports: seq<PortInfo>, f: StepFailures, d: string,
                     stale: seq<RawLine>, poll: PollOutcome)
    requires Valid(s) && s.supervisor == Running && !IsOpen(s.link)
    requires !SendFails(s.clients, f.search) && !SendFails(s.clients, f.second)
    requires ArduinoDevice(ports) == Some(d) && d != []
    ensures var s' := SupervisorStep(s, ports, f, Opened(stale), poll);
      && s'.link == Serial(d, 115200, 1, true, [], [])
      && s'.(link := s.link, outbox := s.outbox) == s
      && s'.outbox.Keys == s.outbox.Keys
      && (forall c :: c in s.clients ==>
            s'.outbox[c] == s.outbox[c] +
              [ConnectionStatus(Connecting, SearchingMessage), ConnectionStatus(Connecting, OpeningMessage(d))])
      && (forall c :: c in s.outbox && c !in s.clients ==> s'.outbox[c] == s.outbox[c])
  {
    TwoBroadcasts(s, f.search, Connecting, SearchingMessage, f.second, Connecting, OpeningMessage(d));
  }

  /** Two broadcasts in a row append both events, in order, to every registered client
      when neither broadcast has a failing send. */
  lemma TwoBroadcasts(s: State, f1: set<ClientId>, st1: Status, m1: string,
                      f2: set<ClientId>, st2: Status, m2: string)
    requires Valid(s) && !SendFails(s.clients, f1) && !SendFails(s.clients, f2)
    ensures var s' := AfterBroadcast(AfterBroadcast(s, f1, st1, m1), f2, st2, m2);
      && s'.(outbox := s.outbox) == s
      && s'.outbox.Keys == s.outbox.Keys
      && (forall c :: c in s.clients ==>
            s'.outbox[c] == s.outbox[c] + [ConnectionStatus(st1, m1), ConnectionStatus(st2, m2)])
      && (forall c :: c in s.outbox && c !in s.clients ==> s'.outbox[c] == s.outbox[c])
  {
    var s1 := AfterBroadcast(s, f1, st1, m1);
    var s' := AfterBroadcast(s1, f2, st2, m2);
    BroadcastDelivers(s, f1, st1, m1);
    BroadcastDelivers(s1, f2, st2, m2);
    NoFailingTarget(s.clients, f1);
    NoFailingTarget(s.clients, f2);
    forall c | c in s.clients
      ensures s'.outbox[c] == s.outbox[c] + [ConnectionStatus(st1, m1), ConnectionStatus(st2, m2)]
    {
    }
  }

  /** Link absent or closed and no controller port (or one with an empty device
      name): `connecting` "Procurando Arduino..." then `disconnected`, and the link is
      left as it was. */
  lemma StepNotFound(s: State, ports: seq<PortInfo>, f: StepFailures,
                     open: OpenOutcome, poll: PollOutcome)
    requires Valid(s) && s.supervisor == Running && !IsOpen(s.link)
    requires !SendFails(s.clients, f.search) && !SendFails(s.clients, f.second)
    requires ArduinoDevice(ports).None? || ArduinoDevice(ports) == Some([])
    ensures var s' := SupervisorStep(s, ports, f, open, poll);
      && s'.(outbox := s.outbox) == s
      && s'.outbox.Keys == s.outbox.Keys
      && (forall c :: c in s.clients ==>
            s'.outbox[c] == s.outbox[c] +
              [ConnectionStatus(Connecting, SearchingMessage), ConnectionStatus(Disconnected, NotFoundMessage)])
      && (forall c :: c in s.outbox && c !in s.clients ==> s'.outbox[c] == s.outbox[c])
  {
    TwoBroadcasts(s, f.search, Connecting, SearchingMessage, f.second, Disconnected, NotFoundMessage);
  }

  /** A `SerialException` from the poll, the open or the buffer reset drops the link,
      keeps the loop running and leaves every registered client with `disconnected`
      and the error text as its latest event. */
  lemma StepSerialFault(s: State, ports: seq<PortInfo>, f: StepFailures,
                        open: OpenOutcome, poll: PollOutcome, reason: string)
    requires Valid(s) && s.supervisor == Running
    requires NoSendFails(s.clients, f)
    requires StepFault(s, ports, open, poll) == Some(SerialFault(reason))
    ensures var s' := SupervisorStep(s, ports, f, open, poll);
      && s'.link == NoLink && s'.supervisor == Running
      && s'.clients == s.clients && s'.readers == s.readers
      && s'.outbox.Keys == s.outbox.Keys
      && (forall c :: c in s.clients ==>
            LastIs(s'.outbox[c], ConnectionStatus(Disconnected, ErrorMessage(reason))))
      && (forall c :: c in s.outbox && c !in s.clients ==> s'.outbox[c] == s.outbox[c])
  {
    if IsOpen(s.link) {
      assert SupervisorStep(s, ports, f, open, poll) == Handle(s, SerialFault(reason), f.handler);
      HandleSerialFault(s, f.handler, reason);
    } else {
      OpeningSerialFault(s, ports, f, open, poll, reason);
    }
  }

  /** The case of `StepSerialFault` where the fault comes from opening the found port. */
  lemma OpeningSerialFault(s: State, ports: seq<PortInfo>, f: StepFailures,
                           open: OpenOutcome, poll: PollOutcome, reason: string)
    requires Valid(s) && s.supervisor == Running && !IsOpen(s.link)
    requires !SendFails(s.clients, f.search) && !SendFails(s.clients, f.second)
    requires !SendFails(s.clients, f.handler)
    requires StepFault(s, ports, open, poll) == Some(SerialFault(reason))
    ensures var s' := SupervisorStep(s, ports, f, open, poll);
      && s'.link == NoLink && s'.supervisor == Running
      && s'.clients == s.clients && s'.readers == s.readers
      && s'.outbox.Keys == s.outbox.Keys
      && (forall c :: c in s.clients ==>
            LastIs(s'.outbox[c], ConnectionStatus(Disconnected, ErrorMessage(reason))))
      && (forall c :: c in s.outbox && c !in s.clients ==> s'.outbox[c] == s.outbox[c])
  {
    var d := ArduinoDevice(ports).value;
    OpenFaultHandled(s, ports, f, open, poll);
    OpeningKeepsShape(s, f, d, open);
    assert open.fault == SerialFault(reason);
    if open.ResetFailed? {
      var s3 := AfterOpening(s, f, d, ResetFailed(open.stale, open.fault));
      assert SupervisorStep(s, ports, f, open, poll) == Handle(s3, SerialFault(reason), f.handler);
      HandleSerialFault(s3, f.handler, reason);
    } else {
      var s3 := AfterOpening(s, f, d, OpenFailed(open.fault));
      assert SupervisorStep(s, ports, f, open, poll) == Handle(s3, SerialFault(reason), f.handler);
      HandleSerialFault(s3, f.handler, reason);
    }
  }

  /** The state in which opening the found port `d` raises: both `connecting`
      broadcasts made, and the new port as the link when only the reset failed. */
  function AfterOpening(s: State, f: StepFailures, d: string, open: OpenOutcome): State
  {
    var s2 := AfterBroadcast(AfterBroadcast(s, f.search, Connecting, SearchingMessage),
                             f.second, Connecting, OpeningMessage(d));
    if open.ResetFailed? then s2.(link := OpenedLink(d, open.stale)) else s2
  }

  /** After the two `connecting` broadcasts, and with the new port as link when only
      the reset failed, the state is still valid and every client has the events. */
  lemma OpeningKeepsShape(s: State, f: StepFailures, d: string, open: OpenOutcome)
    requires Valid(s) && !SendFails(s.clients, f.search) && !SendFails(s.clients, f.second)
    ensures var s3 := AfterOpening(s, f, d, open);
      && Valid(s3) && s3.clients == s.clients && s3.readers == s.readers
      && s3.supervisor == s.supervisor && s3.outbox.Keys == s.outbox.Keys
      && (forall c :: c in s.outbox && c !in s.clients ==> s3.outbox[c] == s.outbox[c])
  {
    TwoBroadcasts(s, f.search, Connecting, SearchingMessage, f.second, Connecting, OpeningMessage(d));
  }

  /** A fault while opening the found port reaches the handler after the two
      `connecting` broadcasts, with the new port as the link when only the reset failed. */
  lemma OpenFaultHandled(s: State, ports: seq<PortInfo>, f: StepFailures,
                         open: OpenOutcome, poll: PollOutcome)
    requires s.supervisor == Running && !IsOpen(s.link)
    requires !SendFails(s.clients, f.search) && !SendFails(s.clients, f.second)
    requires StepFault(s, ports, open, poll).Some?
    ensures SupervisorStep(s, ports, f, open, poll)
         == Handle(AfterOpening(s, f, ArduinoDevice(ports).value, open), open.fault, f.handler)
  {
  }

  /** The `SerialException` handler: the link is dropped and `disconnected` with the
      error text is broadcast. */
  lemma HandleSerialFault(s: State, failing: set<ClientId>, reason: string)
    requires Valid(s) && s.supervisor == Running && !SendFails(s.clients, failing)
    ensures var s' := Handle(s, SerialFault(reason), failing);
      && s'.link == NoLink && s'.supervisor == Running
      && s'.clients == s.clients && s'.readers == s.readers
      && s'.outbox.Keys == s.outbox.Keys
      && (forall c :: c in s.clients ==>
            LastIs(s'.outbox[c], ConnectionStatus(Disconnected, ErrorMessage(reason))))
      && (forall c :: c in s.outbox && c !in s.clients ==> s'.outbox[c] == s.outbox[c])
  {
    var s1 := s.(link := NoLink);
    BroadcastDelivers(s1, failing, Disconnected, ErrorMessage(reason));
    NoFailingTarget(s.clients, failing);
  }

  /** Any other exception from the poll, the open or the buffer reset is only logged:
      nothing is broadcast after it, the loop keeps running, and the link is what it was
      when the exception was raised (the new open port when only the reset failed). */
  lemma StepOtherFault(s: State, ports: seq<PortInfo>, f: StepFailures,
                       open: OpenOutcome, poll: PollOutcome, reason: string)
    requires Valid(s) && s.supervisor == Running
    requires !SendFails(s.clients, f.search) && !SendFails(s.clients, f.second)
    requires StepFault(s, ports, open, poll) == Some(OtherFault(reason))
    ensures var s' := SupervisorStep(s, ports, f, open, poll);
      && s'.supervisor == Running && s'.clients == s.clients && s'.readers == s.readers
      && s'.link == (if !IsOpen(s.link) && open.ResetFailed?
                     then Serial(ArduinoDevice(ports).value, 115200, 1, true, open.stale, [])
                     else s.link)
      && s'.outbox.Keys == s.outbox.Keys
      && (forall c :: c in s.clients ==>
            s'.outbox[c] == s.outbox[c] +
              (if IsOpen(s.link) then []
               else [ConnectionStatus(Connecting, SearchingMessage),
                     ConnectionStatus(Connecting, OpeningMessage(ArduinoDevice(ports).value))]))
  {
    if !IsOpen(s.link) {
      var d := ArduinoDevice(ports).value;
      TwoBroadcasts(s, f.search, Connecting, SearchingMessage, f.second, Connecting, OpeningMessage(d));
    }
  }

  /** When the search announcement raises, or a port was found and the announcement
      that it is being opened raises, the generic handler ends the iteration: the port
      is never opened, and the clients whose sends succeeded keep what they were sent. */
  lemma SearchBlockedByFailingClient(s: State, ports: seq<PortInfo>, f: StepFailures,
                                     open: OpenOutcome, poll: PollOutcome)
    requires s.supervisor == Running && !IsOpen(s.link)
    requires SendFails(s.clients, f.search)
          || (ArduinoDevice(ports).Some? && ArduinoDevice(ports).value != [] && SendFails(s.clients, f.second))
    ensures var s' := SupervisorStep(s, ports, f, open, poll);
      && s'.link == s.link && s'.supervisor == Running
      && s'.clients == s.clients && s'.readers == s.readers
      && (SendFails(s.clients, f.search) ==>
            s' == AfterBroadcast(s, f.search, Connecting, SearchingMessage))
  {
  }

  /** The supervisor task ends exactly when a `SerialException` reaches the handler
      (from the poll of the open link, or from opening the found port after both
      announcements went out without raising) and the handler's `disconnected`
      broadcast raises: that second exception is raised inside the handler and leaves
      the loop. */
  lemma SupervisorEnds(s: State, ports: seq<PortInfo>, f: StepFailures,
                       open: OpenOutcome, poll: PollOutcome)
    requires s.supervisor == Running
    ensures SupervisorStep(s, ports, f, open, poll).supervisor == Crashed <==>
      && StepFault(s, ports, open, poll).Some? && StepFault(s, ports, open, poll).value.SerialFault?
      && (IsOpen(s.link) || (!SendFails(s.clients, f.search) && !SendFails(s.clients, f.second)))
      && SendFails(s.clients, f.handler)
    ensures SupervisorStep(s, ports, f, open, poll).supervisor == Crashed ==>
      SupervisorStep(s, ports, f, open, poll).link == NoLink
  {
    if !IsOpen(s.link) && !SendFails(s.clients, f.search) {
      var d := ArduinoDevice(ports);
      if d.Some? && d.value != [] && !SendFails(s.clients, f.second) && !open.Opened? {
        var s1 := AfterBroadcast(s, f.search, Connecting, SearchingMessage);
        var s2 := AfterBroadcast(s1, f.second, Connecting, OpeningMessage(d.value));
        assert s2.clients == s.clients;
        var s3 := if open.ResetFailed? then s2.(link := OpenedLink(d.value, open.stale)) else s2;
        assert BroadcastRaises(s3.(link := NoLink), f.handler) == SendFails(s.clients, f.handler);
      }
    }
  }

  /** A step never touches the client registry or the reader tasks, never replaces an
      open link by another port, and only ever opens the port the scan found. */
  lemma StepFrame(s: State, ports: seq<PortInfo>, f: StepFailures,
                  open: OpenOutcome, poll: PollOutcome)
    ensures var s' := SupervisorStep(s, ports, f, open, poll);
      && s'.clients == s.clients && s'.readers == s.readers
      && (s'.supervisor == s.supervisor || (s.supervisor == Running && s'.supervisor == Crashed))
      && (s'.link != s.link && s'.link != NoLink ==>
            !IsOpen(s.link) && s.supervisor == Running
            && ArduinoDevice(ports).Some? && s'.link.device == ArduinoDevice(ports).value
            && IsOpen(s'.link) && s'.link.written == [])
  {
    if s.supervisor == Running && !IsOpen(s.link) && !BroadcastRaises(s, f.search) {
      var port := ArduinoDevice(ports);
      if port.Some? && port.value != [] {
        var s1 := AfterBroadcast(s, f.search, Connecting, SearchingMessage);
        var s2 := AfterBroadcast(s1, f.second, Connecting, OpeningMessage(port.value));
        if !BroadcastRaises(s1, f.second) && !open.Opened? {
          var s3 := if open.ResetFailed? then s2.(link := OpenedLink(port.value, open.stale)) else s2;
          assert SupervisorStep(s, ports, f, open, poll) == Handle(s3, open.fault, f.handler);
          HandleFrame(s3, open.fault, f.handler);
        }
      }
    } else if s.supervisor == Running && IsOpen(s.link) && poll.PollFailed? {
      HandleFrame(s, poll.fault, f.handler);
    }
  }

  /** The handlers touch neither the registry nor the readers; they drop the link or
      keep it, and may only end the supervisor. */
  lemma HandleFrame(s: State, fault: Fault, failing: set<ClientId>)
    ensures var s' := Handle(s, fault, failing);
      && s'.clients == s.clients && s'.readers == s.readers
      && (s'.supervisor == s.supervisor || s'.supervisor == Crashed)
      && (s'.link == s.link || s'.link == NoLink)
  {
  }

  // ------------------------------------------------------- RobotConsumer.connect etc.

  /** `connect` registers the client, starts its reader task, keeps every other client,
      and creates the supervisor task only when none exists. */
  lemma ConnectRegisters(s: State, c: ClientId)
    ensures var s' := Connect(s, c);
      && s'.clients == s.clients + {c} && s'.readers == s.readers + {c}
      && (s.supervisor.NotStarted? ==> s'.supervisor == Running)
      && (!s.supervisor.NotStarted? ==> s'.supervisor == s.supervisor)
      && s'.link == s.link
      && (forall d :: d in s.outbox ==> d in s'.outbox && s'.outbox[d] == s.outbox[d])
  {
  }

  /** Only a `connect` creates the supervisor task, and nothing ever removes it. */
  lemma ApplyKeepsTask(s: State, op: Op)
    ensures Apply(s, op).supervisor.NotStarted? <==> s.supervisor.NotStarted? && !op.Join?
  {
    match op
    case Supervise(ports, failing, open, poll) =>
      StepFrame(s, ports, failing, open, poll);
    case Read(c, failing, osError, ioFault) =>
      ReadStepKeepsRegistry(s, c, failing, osError, ioFault);
    case _ =>
  }

  /** Over any run, the supervisor task is created at most once: never when one
      already exists, and otherwise exactly once if and only if some client connects. */
  lemma {:induction false} StartedOnce(s: State, ops: seq<Op>)
    ensures Starts(s, ops) <= 1
    ensures !s.supervisor.NotStarted? ==> Starts(s, ops) == 0
    ensures s.supervisor.NotStarted? ==>
      (Starts(s, ops) == 1 <==> exists i :: 0 <= i < |ops| && ops[i].Join?)
    ensures Run(s, ops).supervisor.NotStarted? <==> Starts(s, ops) == 0 && s.supervisor.NotStarted?
    decreases |ops|
  {
    if ops != [] {
      ApplyKeepsTask(s, ops[0]);
      StartedOnce(Apply(s, ops[0]), ops[1..]);
      if s.supervisor.NotStarted? && !ops[0].Join? {
        if exists i :: 0 <= i < |ops| && ops[i].Join? {
          var i :| 0 <= i < |ops| && ops[i].Join?;
          assert ops[1..][i - 1].Join?;
        }
        if exists i :: 0 <= i < |ops[1..]| && ops[1..][i].Join? {
          var i :| 0 <= i < |ops[1..]| && ops[1..][i].Join?;
          assert ops[i + 1].Join?;
        }
      }
    }
  }

  /** Starting from import time, the supervisor exists after a run exactly when some
      client connected during it, and it was created once. */
  lemma StartedOnceFromImport(ops: seq<Op>)
    ensures !Run(Initial, ops).supervisor.NotStarted? <==> exists i :: 0 <= i < |ops| && ops[i].Join?
    ensures Starts(Initial, ops) <= 1
  {
    StartedOnce(Initial, ops);
  }

  /** `disconnect` removes exactly that client and keeps every other one; for a client
      that is not registered it raises and changes nothing. */
  lemma DisconnectRemoves(s: State, c: ClientId)
    ensures var s' := Disconnect(s, c);
      && s'.clients == s.clients - {c}
      && s'.(clients := s.clients) == s
      && (DisconnectRaises(s, c) <==> c !in s.clients)
      && (DisconnectRaises(s, c) ==> s' == s)
  {
  }

  /** After `disconnect`, the client's reader task stops at its next check, without
      touching the link or any outbox. */
  lemma ReaderStopsAfterDisconnect(s: State, c: ClientId, failing: set<ClientId>, osError: bool, ioFault: bool)
    requires c in s.readers
    ensures var s' := Disconnect(s, c);
      && c !in ReadStep(s', c, failing, osError, ioFault).readers
      && ReadStep(s', c, failing, osError, ioFault) == s'.(readers := s.readers - {c})
  {
  }

  /** A registered client's reader keeps running through a step unless the line it
      reads does not decode or a send it makes raises an exception other than an
      `OSError`. */
  lemma ReaderKeepsRunning(s: State, c: ClientId, failing: set<ClientId>, osError: bool, ioFault: bool)
    requires c in s.readers && c in s.clients
    requires !SendFails(s.clients, failing) || osError
    requires IsOpen(s.link) && s.link.input != [] ==> s.link.input[0].Decoded?
    ensures c in ReadStep(s, c, failing, osError, ioFault).readers
  {
    if !SendFails(s.clients, failing) {
      NoFailingTarget(s.clients, failing);
    }
  }

  /** Reading a decoded line, the reader of a registered client ends exactly when the
      line calls for a send and that send raises something other than an `OSError`:
      its own `robot_status` send for a `pos:` line, any send of the broadcast for a
      `status:` line. */
  lemma ReaderEnds(s: State, c: ClientId, failing: set<ClientId>, osError: bool, text: string)
    requires c in s.readers && c in s.clients
    requires IsOpen(s.link) && s.link.input != [] && s.link.input[0] == Decoded(text)
    ensures c !in ReadStep(s, c, failing, osError, false).readers <==>
      && !osError
      && ((Dispatch(text).Report? && c in failing) || (Dispatch(text).Announce? && SendFails(s.clients, failing)))
  {
    var s1 := s.(link := s.link.(input := s.link.input[1..]));
    ReadStepDecoded(s, c, failing, osError);
    match Dispatch(text)
    case Report(line) =>
      assert ReadStep(s, c, failing, osError, false) == React(s1, c, failing, osError, Report(line));
    case Announce(status, message) =>
      assert ReadStep(s, c, failing, osError, false) == React(s1, c, failing, osError, Announce(status, message));
    case _ =>
      assert ReadStep(s, c, failing, osError, false) == s1;
  }

  // ------------------------------------------------------------ RobotConsumer.receive

  /** `receive` writes exactly the command followed by a newline when the link exists
      and is open, and nothing otherwise; a failed write reaches no caller and leaves
      the link as it was. Nothing but the link's written commands ever changes. */
  lemma ReceiveWrites(s: State, text: string, writeFails: bool)
    ensures var s' := Receive(s, text, writeFails);
      && s'.(link := s.link) == s
      && (IsOpen(s.link) && !writeFails ==>
            s'.link.Serial? && s'.link.written == s.link.written + [text + "\n"]
            && s'.link.(written := s.link.written) == s.link)
      && (!IsOpen(s.link) || writeFails ==> s'.link == s.link)
  {
  }

  /** A command sent while there is no link is dropped without a trace. */
  lemma CommandDroppedWhileSearching(s: State, text: string, writeFails: bool)
    requires s.link == NoLink
    ensures Receive(s, text, writeFails) == s
  {
  }

  // ------------------------------------------------------------ read_from_arduino

  /** A `pos:` line goes, as a `robot_status` event carrying the stripped line, to the
      reading client only; every other outbox is untouched and the line is consumed. */
  lemma PositionGoesToReader(s: State, c: ClientId, failing: set<ClientId>, osError: bool,
                             text: string, line: string)
    requires Valid(s) && c in s.clients && c in s.readers && c !in failing
    requires IsOpen(s.link) && s.link.input != [] && s.link.input[0] == Decoded(text)
    requires Dispatch(text) == Report(line)
    ensures var s' := ReadStep(s, c, failing, osError, false);
      && s'.link == s.link.(input := s.link.input[1..])
      && s'.clients == s.clients && s'.readers == s.readers && s'.supervisor == s.supervisor
      && s'.outbox.Keys == s.outbox.Keys
      && s'.outbox[c] == s.outbox[c] + [RobotStatus(line)]
      && (forall d :: d in s.outbox && d != c ==> s'.outbox[d] == s.outbox[d])
  {
    var s1 := s.(link := s.link.(input := s.link.input[1..]));
    ReadStepDecoded(s, c, failing, osError);
    DeliveredToOne(s.outbox, c, RobotStatus(line));
    assert ReadStep(s, c, failing, osError, false) == s1.(outbox := s.outbox[c := s.outbox[c] + [RobotStatus(line)]]);
  }

  /** Sending to a single client whose send succeeds appends to that outbox alone. */
  lemma DeliveredToOne(outbox: map<ClientId, seq<Event>>, c: ClientId, ev: Event)
    requires c in outbox
    ensures Delivered(outbox, {c}, {}, ev) == outbox[c := outbox[c] + [ev]]
  {
  }

  /** A `status:` line is broadcast, as the `connection_status` event the dispatch
      gives, to every registered client; the line is consumed. */
  lemma StatusGoesToAll(s: State, c: ClientId, failing: set<ClientId>, osError: bool, text: string,
                        status: Status, message: string)
    requires Valid(s) && c in s.clients && c in s.readers && !SendFails(s.clients, failing)
    requires IsOpen(s.link) && s.link.input != [] && s.link.input[0] == Decoded(text)
    requires Dispatch(text) == Announce(status, message)
    ensures var s' := ReadStep(s, c, failing, osError, false);
      && s'.link == s.link.(input := s.link.input[1..])
      && s'.clients == s.clients && s'.readers == s.readers
      && s'.outbox.Keys == s.outbox.Keys
      && (forall d :: d in s.clients ==> s'.outbox[d] == s.outbox[d] + [ConnectionStatus(status, message)])
      && (forall d :: d in s.outbox && d !in s.clients ==> s'.outbox[d] == s.outbox[d])
  {
    var s1 := s.(link := s.link.(input := s.link.input[1..]));
    assert ReadStep(s, c, failing, osError, false) == React(s1, c, failing, osError, Announce(status, message));
    assert React(s1, c, failing, osError, Announce(status, message)) == AfterBroadcast(s1, failing, status, message);
    BroadcastDelivers(s1, failing, status, message);
    NoFailingTarget(s.clients, failing);
  }

  /** Blank, `ack:` and unrecognised lines are consumed and reach no client. */
  lemma QuietLinesReachNobody(s: State, c: ClientId, failing: set<ClientId>, osError: bool, text: string)
    requires c in s.clients && c in s.readers
    requires IsOpen(s.link) && s.link.input != [] && s.link.input[0] == Decoded(text)
    requires !Dispatch(text).Report? && !Dispatch(text).Announce?
    ensures ReadStep(s, c, failing, osError, false) == s.(link := s.link.(input := s.link.input[1..]))
  {
  }

  /** A line that does not decode is consumed and ends the reader task, whose
      handler catches only serial and OS errors. */
  lemma UndecodableEndsReader(s: State, c: ClientId, failing: set<ClientId>, osError: bool)
    requires c in s.clients && c in s.readers
    requires IsOpen(s.link) && s.link.input != [] && s.link.input[0] == Undecodable
    ensures ReadStep(s, c, failing, osError, false) ==
      s.(link := s.link.(input := s.link.input[1..]), readers := s.readers - {c})
  {
  }

  /** The sample status line, read by a client, tells every client the controller is
      connected. */
  lemma ReadyLineConnectsEveryone(s: State, c: ClientId, failing: set<ClientId>, osError: bool,
                                  sep: string, message: string)
    requires Valid(s) && c in s.clients && c in s.readers && !SendFails(s.clients, failing)
    requires AllSpace(sep) && Trimmed(message) && message != [] && !Contains(message, StatusPrefix)
    requires IsReady(message)
    requires IsOpen(s.link) && s.link.input != [] && s.link.input[0] == Decoded(StatusPrefix + sep + message)
    ensures var s' := ReadStep(s, c, failing, osError, false);
      && s'.outbox.Keys == s.outbox.Keys
      && forall d :: d in s.clients ==>
           s'.outbox[d] == s.outbox[d] + [ConnectionStatus(Connected, "\U{2705} " + message)]
  {
    StatusAnnounced(sep, message);
    StatusGoesToAll(s, c, failing, osError, StatusPrefix + sep + message, Connected, "\U{2705} " + message);
  }

  // ---------------------------------------------------------------- invariants

  /** Every transition keeps every registered client and running reader supplied with
      an outbox. */
  lemma ApplyKeepsValid(s: State, op: Op)
    requires Valid(s)
    ensures Valid(Apply(s, op))
  {
    match op
    case Supervise(ports, failing, open, poll) =>
      StepKeepsValid(s, ports, failing, open, poll);
    case Read(c, failing, osError, ioFault) =>
      ReadKeepsValid(s, c, failing, osError, ioFault);
    case _ =>
  }

  lemma StepKeepsValid(s: State, ports: seq<PortInfo>, failing: StepFailures,
                       open: OpenOutcome, poll: PollOutcome)
    requires Valid(s)
    ensures Valid(SupervisorStep(s, ports, failing, open, poll))
  {
    StepFrame(s, ports, failing, open, poll);
    StepKeepsOutboxes(s, ports, failing, open, poll);
  }

  lemma StepKeepsOutboxes(s: State, ports: seq<PortInfo>, failing: StepFailures,
                          open: OpenOutcome, poll: PollOutcome)
    ensures SupervisorStep(s, ports, failing, open, poll).outbox.Keys == s.outbox.Keys
  {
    var t := SupervisorStep(s, ports, failing, open, poll);
    if !s.supervisor.Running? {
    } else if IsOpen(s.link) {
      if poll.PollFailed? {
        assert t == Handle(s, poll.fault, failing.handler);
        HandleKeepsOutboxes(s, poll.fault, failing.handler);
      }
    } else {
      var s1 := AfterBroadcast(s, failing.search, Connecting, SearchingMessage);
      BroadcastKeys(s, failing.search, Connecting, SearchingMessage);
      var port := ArduinoDevice(ports);
      if BroadcastRaises(s, failing.search) {
        assert t == s1;
      } else if port.None? || port.value == [] {
        assert t == AfterBroadcast(s1, failing.second, Disconnected, NotFoundMessage);
        BroadcastKeys(s1, failing.second, Disconnected, NotFoundMessage);
      } else {
        var s2 := AfterBroadcast(s1, failing.second, Connecting, OpeningMessage(port.value));
        BroadcastKeys(s1, failing.second, Connecting, OpeningMessage(port.value));
        if !BroadcastRaises(s1, failing.second) && !open.Opened? {
          var s3 := if open.ResetFailed? then s2.(link := OpenedLink(port.value, open.stale)) else s2;
          assert t == Handle(s3, open.fault, failing.handler);
          HandleKeepsOutboxes(s3, open.fault, failing.handler);
        }
      }
    }
  }

  lemma BroadcastKeys(s: State, failing: set<ClientId>, status: Status, message: string)
    ensures AfterBroadcast(s, failing, status, message).outbox.Keys == s.outbox.Keys
  {
    DeliveredKeys(s.outbox, s.clients, failing, ConnectionStatus(status, message));
  }

  lemma HandleKeepsOutboxes(s: State, fault: Fault, failing: set<ClientId>)
    ensures Handle(s, fault, failing).outbox.Keys == s.outbox.Keys
  {
    if fault.SerialFault? {
      BroadcastKeys(s.(link := NoLink), failing, Disconnected, ErrorMessage(fault.reason));
    }
  }

  lemma ReadKeepsValid(s: State, c: ClientId, failing: set<ClientId>, osError: bool, ioFault: bool)
    requires Valid(s)
    ensures Valid(ReadStep(s, c, failing, osError, ioFault))
  {
    if c in s.readers && c in s.clients && IsOpen(s.link) && !ioFault && s.link.input != [] {
      var s1 := s.(link := s.link.(input := s.link.input[1..]));
      if s.link.input[0].Decoded? {
        ReactKeepsValid(s1, c, failing, osError, Dispatch(s.link.input[0].text));
      }
    }
  }

  lemma ReactKeepsValid(s: State, c: ClientId, failing: set<ClientId>, osError: bool, a: LineAction)
    requires Valid(s)
    ensures Valid(React(s, c, failing, osError, a))
  {
    match a
    case Report(line) =>
      DeliveredKeys(s.outbox, {c}, {}, RobotStatus(line));
    case Announce(status, message) =>
      DeliveredKeys(s.outbox, s.clients, failing, ConnectionStatus(status, message));
    case _ =>
  }

  lemma DeliveredKeys(outbox: map<ClientId, seq<Event>>, targets: set<ClientId>,
                      failing: set<ClientId>, ev: Event)
    ensures Delivered(outbox, targets, failing, ev).Keys == outbox.Keys
  {
  }

  lemma {:induction false} RunKeepsValid(s: State, ops: seq<Op>)
    requires Valid(s)
    ensures Valid(Run(s, ops))
    decreases |ops|
  {
    if ops != [] {
      ApplyKeepsValid(s, ops[0]);
      RunKeepsValid(Apply(s, ops[0]), ops[1..]);
    }
  }

  // ---------------------------------------------------------------- the reader loop

  /** The reader loop changes neither the registered clients nor the supervisor. */
  lemma {:induction false} DrainKeepsRegistry(s: State, c: ClientId, failing: set<ClientId>, osError: bool)
    ensures Drain(s, c, failing, osError).clients == s.clients
    ensures Drain(s, c, failing, osError).supervisor == s.supervisor
    ensures Drain(s, c, failing, osError).readers <= s.readers
    decreases Backlog(s), if c in s.readers then 1 else 0
  {
    if !Idle(s, c) {
      ReadStepProgress(s, c, failing, osError);
      ReadStepKeepsRegistry(s, c, failing, osError, false);
      DrainKeepsRegistry(ReadStep(s, c, failing, osError, false), c, failing, osError);
    }
  }

  lemma ReadStepKeepsRegistry(s: State, c: ClientId, failing: set<ClientId>, osError: bool, ioFault: bool)
    ensures var s' := ReadStep(s, c, failing, osError, ioFault);
      s'.clients == s.clients && s'.supervisor == s.supervisor && s'.readers <= s.readers
  {
    if c in s.readers && c in s.clients && IsOpen(s.link) && !ioFault && s.link.input != [] {
      var s1 := s.(link := s.link.(input := s.link.input[1..]));
      if s.link.input[0].Decoded? {
        ReactKeepsRegistry(s1, c, failing, osError, Dispatch(s.link.input[0].text));
      }
    }
  }

  lemma ReactKeepsRegistry(s: State, c: ClientId, failing: set<ClientId>, osError: bool, a: LineAction)
    ensures var s' := React(s, c, failing, osError, a);
      s'.clients == s.clients && s'.supervisor == s.supervisor && s'.readers <= s.readers
  {
  }

  /** The sends of the reader's client cannot end it: none fails, or whatever fails
      raises an `OSError` the loop catches. */
  predicate SendsHarmless(s: State, c: ClientId, failing: set<ClientId>, osError: bool)
  {
    osError || (c !in failing && s.clients * failing == {})
  }

  /** While the reader's client stays registered, its sends cannot end it and every
      waiting line decodes, the loop consumes the whole input buffer and the reader
      keeps running. */
  lemma {:induction false} DrainConsumesAll(s: State, c: ClientId, failing: set<ClientId>, osError: bool)
    requires c in s.readers && c in s.clients && IsOpen(s.link)
    requires SendsHarmless(s, c, failing, osError)
    requires forall k :: 0 <= k < |s.link.input| ==> s.link.input[k].Decoded?
    ensures var s' := Drain(s, c, failing, osError);
      IsOpen(s'.link) && s'.link.input == [] && c in s'.readers
      && s'.link.written == s.link.written
    decreases |s.link.input|
  {
    if s.link.input != [] {
      ConsumeOne(s, c, failing, osError);
      DrainConsumesAll(ReadStep(s, c, failing, osError, false), c, failing, osError);
    }
  }

  /** One step of the loop in the situation of `DrainConsumesAll`. */
  lemma ConsumeOne(s: State, c: ClientId, failing: set<ClientId>, osError: bool)
    requires c in s.readers && c in s.clients && IsOpen(s.link)
    requires SendsHarmless(s, c, failing, osError)
    requires s.link.input != [] && s.link.input[0].Decoded?
    ensures var s' := ReadStep(s, c, failing, osError, false);
      && Drain(s, c, failing, osError) == Drain(s', c, failing, osError)
      && c in s'.readers && s'.clients == s.clients && IsOpen(s'.link)
      && s'.link.input == s.link.input[1..] && s'.link.written == s.link.written
  {
    var s1 := s.(link := s.link.(input := s.link.input[1..]));
    var a := Dispatch(s.link.input[0].text);
    ReactKeepsLink(s1, c, failing, osError, a);
    ReactKeepsReader(s1, c, failing, osError, a);
    ReactKeepsRegistry(s1, c, failing, osError, a);
    ReadStepDecoded(s, c, failing, osError);
  }

  lemma ReadStepDecoded(s: State, c: ClientId, failing: set<ClientId>, osError: bool)
    requires c in s.readers && c in s.clients && IsOpen(s.link) && s.link.input != []
    requires s.link.input[0].Decoded?
    ensures ReadStep(s, c, failing, osError, false)
         == React(s.(link := s.link.(input := s.link.input[1..])), c, failing, osError, Dispatch(s.link.input[0].text))
  {
  }

  lemma ReactKeepsReader(s: State, c: ClientId, failing: set<ClientId>, osError: bool, a: LineAction)
    requires c in s.readers && SendsHarmless(s, c, failing, osError)
    ensures c in React(s, c, failing, osError, a).readers
  {
  }
}

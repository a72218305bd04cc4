/** The bridge as the program keeps it: one object whose fields are the module-level
    serial link `ser` and client set `active_clients`, the class attribute
    `RobotConsumer.connection_manager_task`, the running reader tasks and what each web
    client has been sent. Each method is one handler or one loop iteration of
    scara_app/consumers.py, changing the fields in place; its postcondition ties the new
    fields to the transition function of the same name in `Bridge`. */
module Consumers {
  import opened Text
  import opened Ports
  import opened Telemetry
  import opened Bridge
  import BridgeProperties

  class RobotBridge {
    var link: Link
    var clients: set<ClientId>
    var supervisor: Task
    var readers: set<ClientId>
    var outbox: map<ClientId, seq<Event>>

    /** The fields as one `Bridge.State`. */
    function Model(): State
      reads this
    {
      State(link, clients, supervisor, readers, outbox)
    }

    /** Import time: no link, no client, no supervisor task. */
    constructor ()
      ensures Model() == Initial
    {
      link := NoLink;
      clients := {};
      supervisor := NotStarted;
      readers := {};
      outbox := map[];
    }

    /** `broadcast_status`: one send per registered client, all of them attempted; the
        result says whether the gathered sends raise. */
    method BroadcastStatus(status: Status, message: string, failing: set<ClientId>) returns (raised: bool)
      requires Valid(Model())
      modifies this`outbox
      ensures Model() == AfterBroadcast(old(Model()), failing, status, message)
      ensures raised == BroadcastRaises(old(Model()), failing)
      ensures Valid(Model())
    {
      if clients == {} {
        BridgeProperties.BroadcastToNobody(Model(), failing, status, message);
        return false;
      }
      var ev := ConnectionStatus(status, message);
      var pending := clients;
      ghost var sent: set<ClientId> := {};
      raised := false;
      BridgeProperties.DeliveredToNobody(outbox, failing, ev);
      while pending != {}
        invariant sent !! pending && sent + pending == clients
        invariant outbox == Delivered(old(outbox), sent, failing, ev)
        invariant raised == SendFails(sent, failing)
        decreases pending
      {
        var c :| c in pending;
        BridgeProperties.DeliveredOneMore(old(outbox), sent, failing, ev, c);
        BridgeProperties.SendFailsOneMore(sent, failing, c);
        if c in failing {
          raised := true;
        } else {
          outbox := outbox[c := outbox[c] + [ev]];
        }
        pending := pending - {c};
        sent := sent + {c};
      }
      BridgeProperties.DeliveredKeys(old(outbox), clients, failing, ev);
    }

    /** The two `except` clauses of the supervisor loop. */
    method HandleFault(fault: Fault, failing: set<ClientId>)
      requires Valid(Model())
      modifies this
      ensures Model() == Handle(old(Model()), fault, failing)
      ensures Valid(Model())
    {
      match fault
      case SerialFault(reason) =>
        if link.Serial? {
          // `ser.close()`: observable only through the link being dropped next.
          link := link.(isOpen := false);
        }
        link := NoLink;
        var raised := BroadcastStatus(Disconnected, ErrorMessage(reason), failing);
        if raised {
          supervisor := Crashed;
        }
      case OtherFault(_) =>
    }

    /** One iteration of the `while True` loop of `manage_arduino_connection`. */
    method ManageStep(ports: seq<PortInfo>, failing: StepFailures, open: OpenOutcome, poll: PollOutcome)
      requires Valid(Model())
      modifies this
      ensures Model() == SupervisorStep(old(Model()), ports, failing, open, poll)
      ensures Valid(Model())
    {
      if !supervisor.Running? {
        return;
      }
      if IsOpen(link) {
        match poll
        case Polled =>
        case PollFailed(f) =>
          HandleFault(f, failing.handler);
      } else {
        var raised := BroadcastStatus(Connecting, SearchingMessage, failing.search);
        if raised {
          return;
        }
        var port := FindArduinoPort(ports);
        if port.Some? && port.value != [] {
          raised := BroadcastStatus(Connecting, OpeningMessage(port.value), failing.second);
          if raised {
            return;
          }
          match open
          case Opened(stale) =>
            link := OpenedLink(port.value, stale);
            link := link.(input := []);
          case OpenFailed(f) =>
            HandleFault(f, failing.handler);
          case ResetFailed(stale, f) =>
            link := OpenedLink(port.value, stale);
            HandleFault(f, failing.handler);
        } else {
          raised := BroadcastStatus(Disconnected, NotFoundMessage, failing.second);
        }
      }
    }

    /** `RobotConsumer.connect` for client `c`. */
    method Connect(c: ClientId)
      requires Valid(Model())
      modifies this
      ensures Model() == Bridge.Connect(old(Model()), c)
      ensures Valid(Model())
    {
      if c !in outbox {
        outbox := outbox[c := []];
      }
      clients := clients + {c};
      if supervisor.NotStarted? {
        supervisor := Running;
      }
      readers := readers + {c};
    }

    /** `RobotConsumer.disconnect` for client `c`; the result says whether `remove`
        raised `KeyError`. */
    method Disconnect(c: ClientId) returns (keyError: bool)
      requires Valid(Model())
      modifies this
      ensures Model() == Bridge.Disconnect(old(Model()), c)
      ensures keyError == DisconnectRaises(old(Model()), c)
      ensures Valid(Model())
    {
      if c !in clients {
        return true;
      }
      clients := clients - {c};
      keyError := false;
    }

    /** `RobotConsumer.receive`: the command and a newline go to an open link; the
        write raising is swallowed. */
    method Receive(text: string, writeFails: bool)
      requires Valid(Model())
      modifies this
      ensures Model() == Bridge.Receive(old(Model()), text, writeFails)
      ensures Valid(Model())
    {
      if IsOpen(link) {
        if !writeFails {
          link := link.(written := link.written + [text + "\n"]);
        }
      }
    }

    /** What the reader of client `c` does with one dispatched line; `osError` says
        whether a failing send raises an `OSError`, which the loop catches. */
    method React(c: ClientId, failing: set<ClientId>, osError: bool, action: LineAction)
      requires Valid(Model()) && c in clients
      modifies this
      ensures Model() == Bridge.React(old(Model()), c, failing, osError, action)
      ensures Valid(Model())
    {
      match action
      case Report(line) =>
        if c !in failing {
          BridgeProperties.DeliveredToOne(outbox, c, RobotStatus(line));
          outbox := outbox[c := outbox[c] + [RobotStatus(line)]];
        } else if !osError {
          readers := readers - {c};
        }
      case Announce(status, message) =>
        var raised := BroadcastStatus(status, message, failing);
        if raised && !osError {
          readers := readers - {c};
        }
      case _ =>
    }

    /** One iteration of `read_from_arduino` for client `c`. */
    method ReadOnce(c: ClientId, failing: set<ClientId>, osError: bool, ioFault: bool)
      requires Valid(Model())
      modifies this
      ensures Model() == ReadStep(old(Model()), c, failing, osError, ioFault)
      ensures Valid(Model())
    {
      if c !in readers {
        return;
      }
      if c !in clients {
        readers := readers - {c};
        return;
      }
      if !IsOpen(link) || ioFault || link.input == [] {
        return;
      }
      var raw := link.input[0];
      link := link.(input := link.input[1..]);
      match raw
      case Undecodable =>
        readers := readers - {c};
      case Decoded(text) =>
        React(c, failing, osError, Dispatch(text));
    }

    /** The `while self in active_clients` loop of `read_from_arduino` for client `c`,
        run while no other task interleaves and no I/O error occurs, until the reader
        is idle. */
    method ReadLoop(c: ClientId, failing: set<ClientId>, osError: bool)
      requires Valid(Model())
      modifies this
      ensures Model() == Drain(old(Model()), c, failing, osError)
      ensures Idle(Model(), c)
      ensures Valid(Model())
    {
      while !Idle(Model(), c)
        invariant Valid(Model())
        invariant Drain(Model(), c, failing, osError) == Drain(old(Model()), c, failing, osError)
        decreases Backlog(Model()), if c in readers then 1 else 0
      {
        ReadStepProgress(Model(), c, failing, osError);
        ReadOnce(c, failing, osError, false);
      }
    }
  }
}

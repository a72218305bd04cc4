/** Choosing the serial port the robot controller is attached to (`find_arduino_port`). */
module Ports {
  import opened Text

  datatype Option<T> = None | Some(value: T)

  /** One entry of the serial-port enumeration: the device path and its
      human-readable description. */
  datatype PortInfo = PortInfo(device: string, description: string)

  /** The description names the controller board ("Arduino") or its USB-serial
      adapter chip ("CH340"). */
  predicate IsController(p: PortInfo)
  {
    Contains(p.description, "Arduino") || Contains(p.description, "CH340")
  }

  /** `ports[i]` is a controller port and no earlier one is. */
  predicate IsFirstController(ports: seq<PortInfo>, i: nat)
    requires i < |ports|
  {
    IsController(ports[i]) && forall j :: 0 <= j < i ==> !IsController(ports[j])
  }

  /** Index of the first controller port in enumeration order, `|ports|` when there is none. */
  function FirstController(ports: seq<PortInfo>): (i: nat)
    ensures i <= |ports|
    ensures forall j :: 0 <= j < i ==> !IsController(ports[j])
    ensures i < |ports| ==> IsController(ports[i])
  {
    if ports == [] then 0
    else if IsController(ports[0]) then 0
    else 1 + FirstController(ports[1..])
  }

  /** The device of the first controller port, `None` when no port matches. */
  function ArduinoDevice(ports: seq<PortInfo>): (r: Option<string>)
    ensures r.None? <==> forall j :: 0 <= j < |ports| ==> !IsController(ports[j])
    ensures r.Some? ==> exists i :: 0 <= i < |ports| && r.value == ports[i].device && IsFirstController(ports, i)
  {
    var i := FirstController(ports);
    if i < |ports| then Some(ports[i].device) else None
  }

  /** The scan over the enumerated ports, returning at the first match. */
  method FindArduinoPort(ports: seq<PortInfo>) returns (r: Option<string>)
    ensures r == ArduinoDevice(ports)
  {
    for i := 0 to |ports|
      invariant forall j :: 0 <= j < i ==> !IsController(ports[j])
    {
      if IsController(ports[i]) {
        return Some(ports[i].device);
      }
    }
    return None;
  }
}

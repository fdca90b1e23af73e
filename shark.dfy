/** The Shark robot-vacuum adapter over the Ayla Networks cloud API
    (src/lib/shark.ts): commands become one datapoint written to one named
    device property, and the device list is filtered to Shark models and
    folded into a status record. */
module Shark {
  import opened Common

  datatype CleaningMode = Eco | Normal | Max

  datatype Status = Status(
    cleaning: bool,
    docked: bool,
    charging: bool,
    batteryLevel: int,
    cleaningMode: CleaningMode)

  datatype Capabilities = Capabilities(roomCleaning: bool, selfEmpty: bool, mapping: bool)

  datatype Robot = Robot(
    id: string,
    name: string,
    model: string,
    serialNumber: string,
    online: bool,
    status: Status,
    capabilities: Capabilities)

  /** One entry of a device's `properties` array; a missing value is `None`. */
  datatype Property = Property(name: string, value: Option<int>)

  /** One entry of the vendor's device list. */
  datatype VendorDevice = VendorDevice(
    dsn: string,
    productName: Option<string>,
    oemModel: Option<string>,
    connectionStatus: Option<string>,
    properties: Option<seq<Property>>)

  /** The value written to a property: a number for the verbs, a room id for room cleaning. */
  datatype DatapointValue = IntValue(n: int) | TextValue(s: string)

  datatype Datapoint = Datapoint(property: string, value: DatapointValue)

  /** A POST of one datapoint to `<base><path>`. */
  datatype DatapointRequest = DatapointRequest(path: string, datapoint: Datapoint)

  const KnownCommands: set<string> := {"start", "stop", "dock", "find", "mode"}

  // ---------------------------------------------------------------------
  // Commands

  /** The `power_mode` value for the `mode` verb. */
  function ModeValue(value: Value): (n: int)
    ensures 0 <= n <= 2
    ensures n == 0 <==> value == Text("eco")
    ensures n == 2 <==> value == Text("max")
  {
    if value == Text("eco") then 0 else if value == Text("max") then 2 else 1
  }

  /** The datapoint a verb writes; `None` for a verb the adapter rejects. */
  function CommandDatapoint(command: string, value: Value): (r: Option<Datapoint>)
    ensures r.Some? <==> command in KnownCommands
    ensures r.Some? && r.value.property == "operating_mode" <==> command in {"start", "stop", "dock"}
    ensures r.Some? ==> r.value.value.IntValue?
  {
    match command
    case "start" => Some(Datapoint("operating_mode", IntValue(1)))
    case "stop" => Some(Datapoint("operating_mode", IntValue(0)))
    case "dock" => Some(Datapoint("operating_mode", IntValue(3)))
    case "find" => Some(Datapoint("find_device", IntValue(1)))
    case "mode" => Some(Datapoint("power_mode", IntValue(ModeValue(value))))
    case _ => None
  }

  function DatapointPath(robotId: string, property: string): string {
    "/dsns/" + robotId + "/properties/" + property + "/datapoints.json"
  }

  /** The request `controlSharkRobot` sends, if any. */
  function ControlRequest(robotId: string, command: string, value: Value): (r: Option<DatapointRequest>)
    ensures r.Some? <==> command in KnownCommands
    ensures r.Some? ==> r.value.path == DatapointPath(robotId, r.value.datapoint.property)
  {
    match CommandDatapoint(command, value)
    case None => None
    case Some(dp) => Some(DatapointRequest(DatapointPath(robotId, dp.property), dp))
  }

  /** `controlSharkRobot`: an unknown verb throws before any call and is
      caught, giving false; otherwise the result is `response.ok`. */
  function ControlSharkRobot(robotId: string, command: string, value: Value, reply: Reply<()>): (ok: bool)
    ensures ok <==> command in KnownCommands && IsOk(reply)
  {
    match ControlRequest(robotId, command, value)
    case None => false
    case Some(_) => IsOk(reply)
  }

  /** The request `cleanRoom` sends: the room id written to `room_list`. */
  function CleanRoomRequest(robotId: string, roomId: string): (r: DatapointRequest)
    ensures r.datapoint == Datapoint("room_list", TextValue(roomId))
    ensures r.path == DatapointPath(robotId, "room_list")
  {
    DatapointRequest(DatapointPath(robotId, "room_list"), Datapoint("room_list", TextValue(roomId)))
  }

  /** `cleanRoom` returns `response.ok`, and false when the call throws. */
  function CleanRoom(robotId: string, roomId: string, reply: Reply<()>): (ok: bool)
    ensures ok <==> IsOk(reply)
  {
    IsOk(reply)
  }

  // ---------------------------------------------------------------------
  // Device list

  const DefaultStatus: Status := Status(false, true, false, 50, Normal)

  /** How one property changes the status record. */
  function ApplyProperty(s: Status, p: Property): Status {
    if p.name == "operating_mode" then s.(cleaning := p.value != Some(0))
    else if p.name == "dock_status" then s.(docked := p.value == Some(1))
    else if p.name == "battery_level" then
      s.(batteryLevel := if p.value.Some? && p.value.value != 0 then p.value.value else 50)
    else s
  }

  /** The status after applying the properties in array order. */
  function FoldProperties(s: Status, ps: seq<Property>): Status
    decreases |ps|
  {
    if ps == [] then s else ApplyProperty(FoldProperties(s, ps[..|ps| - 1]), ps[|ps| - 1])
  }

  /** The last property named `name`, if any: the reference meaning of the fold. */
  function LastNamed(ps: seq<Property>, name: string): (r: Option<Property>)
    ensures r.Some? ==> r.value in ps && r.value.name == name
    decreases |ps|
  {
    if ps == [] then None
    else if ps[|ps| - 1].name == name then Some(ps[|ps| - 1])
    else LastNamed(ps[..|ps| - 1], name)
  }

  /** The fold is "last writer wins" per recognised name: each flag comes from
      the last property carrying its name, unknown names are ignored, and the
      charging flag and the cleaning mode are never touched. */
  lemma FoldIsLastWriterWins(s: Status, ps: seq<Property>)
    ensures var r := FoldProperties(s, ps);
      && r.cleaning == (match LastNamed(ps, "operating_mode")
                        case None => s.cleaning
                        case Some(p) => p.value != Some(0))
      && r.docked == (match LastNamed(ps, "dock_status")
                      case None => s.docked
                      case Some(p) => p.value == Some(1))
      && r.batteryLevel == (match LastNamed(ps, "battery_level")
                            case None => s.batteryLevel
                            case Some(p) => if p.value.Some? && p.value.value != 0 then p.value.value else 50)
      && r.charging == s.charging
      && r.cleaningMode == s.cleaningMode
  {
    FoldCleaning(s, ps);
    FoldDocked(s, ps);
    FoldBattery(s, ps);
    FoldUntouched(s, ps);
  }

  lemma {:induction false} FoldCleaning(s: Status, ps: seq<Property>)
    ensures FoldProperties(s, ps).cleaning == (match LastNamed(ps, "operating_mode")
                                               case None => s.cleaning
                                               case Some(p) => p.value != Some(0))
    decreases |ps|
  {
    if ps != [] {
      FoldCleaning(s, ps[..|ps| - 1]);
    }
  }

  lemma {:induction false} FoldDocked(s: Status, ps: seq<Property>)
    ensures FoldProperties(s, ps).docked == (match LastNamed(ps, "dock_status")
                                             case None => s.docked
                                             case Some(p) => p.value == Some(1))
    decreases |ps|
  {
    if ps != [] {
      FoldDocked(s, ps[..|ps| - 1]);
    }
  }

  lemma {:induction false} FoldBattery(s: Status, ps: seq<Property>)
    ensures FoldProperties(s, ps).batteryLevel == (match LastNamed(ps, "battery_level")
                                                   case None => s.batteryLevel
                                                   case Some(p) => if p.value.Some? && p.value.value != 0 then p.value.value else 50)
    decreases |ps|
  {
    if ps != [] {
      FoldBattery(s, ps[..|ps| - 1]);
    }
  }

  lemma {:induction false} FoldUntouched(s: Status, ps: seq<Property>)
    ensures FoldProperties(s, ps).charging == s.charging
    ensures FoldProperties(s, ps).cleaningMode == s.cleaningMode
    decreases |ps|
  {
    if ps != [] {
      FoldUntouched(s, ps[..|ps| - 1]);
    }
  }

  /** `oem_model` is present and contains lower-case "shark" (case-sensitive). */
  predicate IsSharkDevice(d: VendorDevice) {
    Present(d.oemModel) && Contains(d.oemModel.value, "shark")
  }

  /** `dsn.slice(-4)`: the last four characters, or all of a shorter string. */
  function LastFour(s: string): (r: string)
    ensures |r| == if |s| < 4 then |s| else 4
    ensures s == s[..|s| - |r|] + r
  {
    s[if |s| < 4 then 0 else |s| - 4..]
  }

  /** The robot record built for one Shark device before its properties are read. */
  function InitialRobot(d: VendorDevice): (r: Robot)
    requires IsSharkDevice(d)
    ensures r.id == d.dsn && r.serialNumber == d.dsn && r.model == d.oemModel.value
    ensures r.name == if Present(d.productName) then d.productName.value else "Shark Robot " + LastFour(d.dsn)
    ensures r.online <==> d.connectionStatus == Some("Online")
    ensures r.status == DefaultStatus
    ensures r.capabilities.roomCleaning && r.capabilities.mapping
    ensures r.capabilities.selfEmpty <==> Contains(r.model, "IQ") || Contains(r.model, "Matrix")
  {
    var model := d.oemModel.value;
    Robot(
      d.dsn,
      OrElse(d.productName, "Shark Robot " + LastFour(d.dsn)),
      model,
      d.dsn,
      d.connectionStatus == Some("Online"),
      DefaultStatus,
      Capabilities(true, Contains(model, "IQ") || Contains(model, "Matrix"), true))
  }

  /** The full record for one Shark device. */
  function ToRobot(d: VendorDevice): (r: Robot)
    requires IsSharkDevice(d)
  {
    InitialRobot(d).(status := FoldProperties(DefaultStatus, d.properties.GetOr([])))
  }

  /** The robots the device list yields, in device order. */
  function SharkRobots(ds: seq<VendorDevice>): seq<Robot>
    decreases |ds|
  {
    if ds == [] then []
    else
      var last := ds[|ds| - 1];
      SharkRobots(ds[..|ds| - 1]) + (if IsSharkDevice(last) then [ToRobot(last)] else [])
  }

  /** The `properties.forEach` of `getSharkRobots`: each recognised
      property overwrites its field of the status in place. */
  method ReadProperties(status: Status, props: seq<Property>) returns (r: Status)
    ensures r == FoldProperties(status, props)
  {
    r := status;
    var j := 0;
    while j < |props|
      invariant 0 <= j <= |props|
      invariant r == FoldProperties(status, props[..j])
    {
      var prop := props[j];
      if prop.name == "operating_mode" {
        r := r.(cleaning := prop.value != Some(0));
      } else if prop.name == "dock_status" {
        r := r.(docked := prop.value == Some(1));
      } else if prop.name == "battery_level" {
        r := r.(batteryLevel := if prop.value.Some? && prop.value.value != 0 then prop.value.value else 50);
      }
      FoldStep(status, props, j);
      j := j + 1;
    }
    assert props[..|props|] == props;
  }

  /** `getSharkRobots` after the fetch: a non-ok status or a thrown error
      gives the empty list; otherwise one robot per Shark device. */
  method GetSharkRobots(reply: Reply<seq<VendorDevice>>) returns (robots: seq<Robot>)
    ensures robots == if IsOk(reply) then SharkRobots(reply.body) else []
  {
    robots := [];
    if !IsOk(reply) {
      return;
    }
    var data := reply.body;
    var i := 0;
    while i < |data|
      invariant 0 <= i <= |data|
      invariant robots == SharkRobots(data[..i])
    {
      var device := data[i];
      if IsSharkDevice(device) {
        var robot := InitialRobot(device);
        var status := ReadProperties(robot.status, device.properties.GetOr([]));
        robot := robot.(status := status);
        robots := robots + [robot];
      }
      SharkRobotsStep(data, i);
      i := i + 1;
    }
    assert data[..|data|] == data;
  }

  /** One more property is one more step of the fold. */
  lemma FoldStep(s: Status, ps: seq<Property>, j: int)
    requires 0 <= j < |ps|
    ensures FoldProperties(s, ps[..j + 1]) == ApplyProperty(FoldProperties(s, ps[..j]), ps[j])
  {
    assert ps[..j + 1][..j] == ps[..j];
  }

  /** One more device adds its robot when it is a Shark device. */
  lemma SharkRobotsStep(ds: seq<VendorDevice>, i: int)
    requires 0 <= i < |ds|
    ensures SharkRobots(ds[..i + 1]) == SharkRobots(ds[..i]) + (if IsSharkDevice(ds[i]) then [ToRobot(ds[i])] else [])
  {
    assert ds[..i + 1][..i] == ds[..i];
  }

  /** Filtering distributes over concatenation, so devices keep their order. */
  lemma {:induction false} SharkRobotsAppend(a: seq<VendorDevice>, b: seq<VendorDevice>)
    ensures SharkRobots(a + b) == SharkRobots(a) + SharkRobots(b)
    decreases |b|
  {
    if b != [] {
      SharkRobotsAppend(a, b[..|b| - 1]);
      assert (a + b)[..|a + b| - 1] == a + b[..|b| - 1];
    } else {
      assert a + b == a;
    }
  }

  /** Device `i` is a Shark device and produces robot `r`. */
  predicate Produces(ds: seq<VendorDevice>, i: int, r: Robot) {
    0 <= i < |ds| && IsSharkDevice(ds[i]) && r == ToRobot(ds[i])
  }

  /** A robot is listed exactly when some Shark device of the list produced it. */
  lemma SharkRobotsMembers(ds: seq<VendorDevice>, r: Robot)
    ensures r in SharkRobots(ds) <==> exists i :: Produces(ds, i, r)
  {
    if r in SharkRobots(ds) {
      var i := ListedIndex(ds, r);
    }
    if exists i :: Produces(ds, i, r) {
      var i :| Produces(ds, i, r);
      ProducedListed(ds, i, r);
    }
  }

  /** The device that produced a listed robot. */
  lemma {:induction false} ListedIndex(ds: seq<VendorDevice>, r: Robot) returns (i: int)
    requires r in SharkRobots(ds)
    ensures Produces(ds, i, r)
    decreases |ds|
  {
    var init := ds[..|ds| - 1];
    if r in SharkRobots(init) {
      i := ListedIndex(init, r);
      assert ds[i] == init[i];
    } else {
      i := |ds| - 1;
    }
  }

  /** A robot produced by a device of the list is listed. */
  lemma {:induction false} ProducedListed(ds: seq<VendorDevice>, i: int, r: Robot)
    requires Produces(ds, i, r)
    ensures r in SharkRobots(ds)
    decreases |ds|
  {
    var init := ds[..|ds| - 1];
    if i < |ds| - 1 {
      assert init[i] == ds[i];
      ProducedListed(init, i, r);
    }
  }

  /** Every listed robot has its dsn as id and serial number and a model containing "shark". */
  lemma SharkRobotsIdentity(ds: seq<VendorDevice>, r: Robot)
    requires r in SharkRobots(ds)
    ensures r.id == r.serialNumber && Contains(r.model, "shark")
  {
    SharkRobotsMembers(ds, r);
  }

  // ---------------------------------------------------------------------
  // Reading back what the verbs write

  /** The property a datapoint would show in the next device listing. */
  function AsProperty(dp: Datapoint): Property {
    Property(dp.property, if dp.value.IntValue? then Some(dp.value.n) else None)
  }

  /** The properties written by a run of recognised verbs, in order. */
  function Written(cmds: seq<string>, value: Value): seq<Property>
    requires forall i :: 0 <= i < |cmds| ==> cmds[i] in KnownCommands
    decreases |cmds|
  {
    if cmds == [] then []
    else Written(cmds[..|cmds| - 1], value) + [AsProperty(CommandDatapoint(cmds[|cmds| - 1], value).value)]
  }

  /** The property a recognised verb writes, as the listing reads it back. */
  lemma VerbProperty(c: string, value: Value)
    requires c in KnownCommands
    ensures var p := AsProperty(CommandDatapoint(c, value).value);
      && p.name != "dock_status" && p.name != "battery_level"
      && (c == "start" ==> p == Property("operating_mode", Some(1)))
      && (c == "stop" ==> p == Property("operating_mode", Some(0)))
      && (c == "dock" ==> p == Property("operating_mode", Some(3)))
  {
  }

  /** After a run of verbs is read back, the robot reports cleaning after a
      final `start` or `dock` (so `dock` reads back as cleaning) and not
      after a final `stop`; no verb touches the docked flag or the battery
      level. */
  lemma {:induction false} VerbsReadBack(s: Status, cmds: seq<string>, value: Value)
    requires forall i :: 0 <= i < |cmds| ==> cmds[i] in KnownCommands
    ensures var r := FoldProperties(s, Written(cmds, value));
      && r.docked == s.docked
      && r.batteryLevel == s.batteryLevel
      && (cmds != [] && cmds[|cmds| - 1] in {"start", "dock"} ==> r.cleaning)
      && (cmds != [] && cmds[|cmds| - 1] == "stop" ==> !r.cleaning)
    decreases |cmds|
  {
    if cmds != [] {
      var init := cmds[..|cmds| - 1];
      var c := cmds[|cmds| - 1];
      VerbsReadBack(s, init, value);
      var w := Written(cmds, value);
      var p := AsProperty(CommandDatapoint(c, value).value);
      assert w == Written(init, value) + [p];
      assert w[..|w| - 1] == Written(init, value);
      VerbProperty(c, value);
      assert FoldProperties(s, w) == ApplyProperty(FoldProperties(s, Written(init, value)), p);
    }
  }

  /** The record the dashboard shows when no Shark credential is configured. */
  const MockRobot: Robot := Robot(
    "SHARK123456",
    "Kitchen Shark Robot",
    "Shark AI Ultra",
    "SHARK123456",
    true,
    Status(false, true, true, 85, Normal),
    Capabilities(true, true, true))

  /** The mock robot is online, docked and charging at 85% battery. */
  lemma MockRobotState()
    ensures MockRobot.online && MockRobot.status.docked && MockRobot.status.charging
    ensures MockRobot.status.batteryLevel == 85 && MockRobot.id == MockRobot.serialNumber
  {
  }
}

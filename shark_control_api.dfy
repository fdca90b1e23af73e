/** The robot-control endpoint (src/pages/api/shark/control.ts): method and
    field checks, the mock answer when no Shark token is configured, the
    routing between room cleaning and plain commands, and the mapping of
    the adapter's verdict to 200 or 500. */
module SharkControlApi {
  import opened Common
  import Shark

  /** The fields read from the JSON body. */
  datatype RequestBody = RequestBody(robotId: Value, command: Value, value: Value, roomId: Value)

  /** The adapter operation the handler performs, if any. */
  datatype Call =
    | NoCall
    | CleanRoomCall(robotId: string, roomId: string)
    | CommandCall(robotId: string, command: string, value: Value)

  /** A POST whose body names both a robot and a command. */
  predicate Accepted(verb: string, body: Option<RequestBody>) {
    verb == "POST" && body.Some? && Truthy(body.value.robotId) && Truthy(body.value.command)
  }

  /** `clean_room` with a room goes to `cleanRoom`; everything else, including
      `clean_room` without a room, goes to `controlSharkRobot`. */
  function Route(body: RequestBody): (c: Call)
    ensures c.CleanRoomCall? <==> body.command == Text("clean_room") && Truthy(body.roomId)
    ensures c.CleanRoomCall? ==> c.roomId == Render(body.roomId)
    ensures c.CommandCall? ==> c.command == Render(body.command) && c.value == body.value
    ensures !c.NoCall? && c.robotId == Render(body.robotId)
  {
    if body.command == Text("clean_room") && Truthy(body.roomId) then
      CleanRoomCall(Render(body.robotId), Render(body.roomId))
    else
      CommandCall(Render(body.robotId), Render(body.command), body.value)
  }

  /** The adapter call made for a request: none unless it is accepted and a
      token is configured. */
  function Dispatch(verb: string, token: Option<string>, body: Option<RequestBody>): (c: Call)
    ensures c.NoCall? <==> !Accepted(verb, body) || !Present(token)
    ensures !c.NoCall? ==> c == Route(body.value)
  {
    if Accepted(verb, body) && Present(token) then Route(body.value) else NoCall
  }

  /** The adapter's verdict for a call, given what the vendor answered. */
  function Perform(c: Call, reply: Reply<()>): (ok: bool)
    ensures c.NoCall? ==> !ok
    ensures c.CleanRoomCall? ==> (ok <==> IsOk(reply))
    ensures c.CommandCall? ==> (ok <==> c.command in Shark.KnownCommands && IsOk(reply))
  {
    match c
    case NoCall => false
    case CleanRoomCall(robotId, roomId) => Shark.CleanRoom(robotId, roomId, reply)
    case CommandCall(robotId, command, value) => Shark.ControlSharkRobot(robotId, command, value, reply)
  }

  /** The response of the handler. A missing body makes the destructuring
      throw, which the handler's catch turns into a 500. */
  function Handle(verb: string, token: Option<string>, body: Option<RequestBody>, reply: Reply<()>): (r: ControlResponse)
    ensures verb != "POST" ==> r == ControlResponse(405, None, "Method not allowed", false)
    ensures verb == "POST" && body.None? ==>
      r == ControlResponse(500, Some(false), "Error controlling Shark robot", false)
    ensures verb == "POST" && body.Some? && !Accepted(verb, body) ==>
      r == ControlResponse(400, None, "Robot ID and command are required", false)
    ensures Accepted(verb, body) && !Present(token) ==>
      r == ControlResponse(200, Some(true), "Mock Shark robot " + Render(body.value.command) + " command executed", true)
    ensures Accepted(verb, body) && Present(token) ==>
      (r.status == 200 <==> Perform(Route(body.value), reply))
      && r.success == Some(r.status == 200) && !r.mock
      && r.message == (if r.status == 200 then "Successfully executed " else "Failed to execute ")
                      + Render(body.value.command) + " command"
  {
    if verb != "POST" then ControlResponse(405, None, "Method not allowed", false)
    else if body.None? then ControlResponse(500, Some(false), "Error controlling Shark robot", false)
    else
      var b := body.value;
      if !Truthy(b.robotId) || !Truthy(b.command) then
        ControlResponse(400, None, "Robot ID and command are required", false)
      else if !Present(token) then
        ControlResponse(200, Some(true), "Mock Shark robot " + Render(b.command) + " command executed", true)
      else if Perform(Dispatch(verb, token, body), reply) then
        ControlResponse(200, Some(true), "Successfully executed " + Render(b.command) + " command", false)
      else
        ControlResponse(500, Some(false), "Failed to execute " + Render(b.command) + " command", false)
  }

  /** Only four statuses are ever sent; `success` is present except on 400
      and 405, and it is true exactly on 200. */
  lemma StatusCodes(verb: string, token: Option<string>, body: Option<RequestBody>, reply: Reply<()>)
    ensures var r := Handle(verb, token, body, reply);
      && r.status in {200, 400, 405, 500}
      && (r.success.None? <==> r.status in {400, 405})
      && (r.success.Some? ==> (r.success.value <==> r.status == 200))
  {
  }

  /** Without a token the handler makes no call, so the vendor's answer
      cannot change the response. */
  lemma MockIgnoresVendor(verb: string, token: Option<string>, body: Option<RequestBody>, r1: Reply<()>, r2: Reply<()>)
    requires !Present(token)
    ensures Dispatch(verb, token, body) == NoCall
    ensures Handle(verb, token, body, r1) == Handle(verb, token, body, r2)
  {
  }

  /** The 200 answer with a token is exactly the adapter's success, and only
      a call that was dispatched can succeed. */
  lemma SuccessMeansDispatched(verb: string, token: Option<string>, body: Option<RequestBody>, reply: Reply<()>)
    requires Present(token)
    ensures Handle(verb, token, body, reply).status == 200 <==> Perform(Dispatch(verb, token, body), reply)
  {
  }

  /** `clean_room` without a room reaches `controlSharkRobot`, which does not
      know that command: with a token the request always fails. */
  lemma CleanRoomNeedsRoom(robotId: Value, value: Value, roomId: Value, token: Option<string>, reply: Reply<()>)
    requires Truthy(robotId) && !Truthy(roomId) && Present(token)
    ensures Handle("POST", token, Some(RequestBody(robotId, Text("clean_room"), value, roomId)), reply).status == 500
  {
    var b := RequestBody(robotId, Text("clean_room"), value, roomId);
    assert Route(b).command == "clean_room";
    assert "clean_room" !in Shark.KnownCommands;
  }
}

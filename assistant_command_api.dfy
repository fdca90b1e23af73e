/** The voice-command endpoint (src/pages/api/google-assistant/command.ts):
    method and field checks, then the simulated execution result together
    with the phrase the user is told to say. */
module AssistantCommandApi {
  import opened Common
  import Assistant

  /** The answer of the endpoint: `{message}` on 400 and 405,
      `{success, message, command, instructions}` on 200, where `command` is
      the body's field echoed as it arrived (a number stays a number). */
  datatype CommandResponse =
    | Rejected(status: int, message: string)
    | Answered(success: bool, message: string, command: Value, instructions: string)

  const InstructionPrefix: string := "Say to your Google Home/Assistant: \""

  /** The phrase the user is told to say. */
  function Instructions(command: string): (s: string)
    ensures |s| == |InstructionPrefix| + |command| + 1
    ensures s[..|InstructionPrefix|] == InstructionPrefix
    ensures s[|InstructionPrefix|..|s| - 1] == command && s[|s| - 1] == '"'
  {
    var s := InstructionPrefix + command + "\"";
    assert s[|InstructionPrefix|..|s| - 1] == command;
    s
  }

  /** The command can be read back from the instructions. */
  lemma InstructionsInjective(c1: string, c2: string)
    requires Instructions(c1) == Instructions(c2)
    ensures c1 == c2
  {
    var s := Instructions(c1);
    assert c1 == s[|InstructionPrefix|..|s| - 1];
  }

  /** The response of the handler for a body whose `command` field is
      `command` (`body` is `None` when there is no body, which makes the
      destructuring throw into the 500 answer). The other body fields are
      read but unused. */
  function Handle(verb: string, body: Option<Value>): (r: CommandResponse)
    ensures verb != "POST" ==> r == Rejected(405, "Method not allowed")
    ensures verb == "POST" && body.None? ==> r == Rejected(500, "Error processing voice command")
    ensures verb == "POST" && body.Some? && !Truthy(body.value) ==> r == Rejected(400, "Voice command required")
    ensures r.Answered? <==> verb == "POST" && body.Some? && Truthy(body.value)
    ensures r.Answered? ==>
      var c := Render(body.value);
      && r.command == body.value
      && r.success == Assistant.ExecuteVoiceCommand(c).success
      && r.message == Assistant.ExecuteVoiceCommand(c).message
      && r.instructions == Instructions(c)
  {
    if verb != "POST" then Rejected(405, "Method not allowed")
    else if body.None? then Rejected(500, "Error processing voice command")
    else if !Truthy(body.value) then Rejected(400, "Voice command required")
    else
      var c := Render(body.value);
      var result := Assistant.ExecuteVoiceCommand(c);
      Answered(result.success, result.message, body.value, Instructions(c))
  }

  /** Every accepted command is reported as a success, and both the message
      and the instructions quote it. */
  lemma AcceptedCommandsSucceed(command: Value)
    requires Truthy(command)
    ensures var r := Handle("POST", Some(command));
      && r.Answered? && r.success && r.command == command
      && r.message[22..|r.message| - 1] == Render(command)
      && r.instructions[|InstructionPrefix|..|r.instructions| - 1] == Render(command)
  {
  }
}

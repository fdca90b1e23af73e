/** Voice phrases for the Google Assistant bridge (src/lib/google-assistant.ts):
    the action-to-phrase table with its fallback, the simulated execution
    result, and the Hue phrase templates. */
module Assistant {
  import opened Common

  /** The `scene_*` keys of the phrase table. */
  const SceneActions: set<string> := {"scene_bright", "scene_dim", "scene_off", "scene_cozy"}

  /** The device-specific keys of the phrase table. */
  const DeviceActions: set<string> := {"turn_on", "turn_off", "brightness", "color"}

  /** `createVoiceCommand`: the phrase stored under `action`, or
      `<action> <device>` for any other action. Every stored phrase is
      non-empty, so the `||` fallback is taken exactly for the other actions. */
  function CreateVoiceCommand(device: string, action: string, value: Value): (phrase: string)
    ensures action == "turn_on" ==> phrase == "turn on the " + device
    ensures action == "turn_off" ==> phrase == "turn off the " + device
    ensures action == "brightness" ==> phrase == "set the " + device + " to " + Render(value) + "%"
    ensures action == "color" ==> phrase == "change the " + device + " to " + Render(value)
    ensures action !in SceneActions && action !in DeviceActions ==> phrase == action + " " + device
  {
    match action
    case "turn_on" => "turn on the " + device
    case "turn_off" => "turn off the " + device
    case "brightness" => "set the " + device + " to " + Render(value) + "%"
    case "color" => "change the " + device + " to " + Render(value)
    case "scene_bright" => "turn on all lights"
    case "scene_dim" => "dim all lights to 20%"
    case "scene_off" => "turn off all lights"
    case "scene_cozy" => "set mood lighting"
    case _ => action + " " + device
  }

  /** A scene phrase depends on neither the device nor the value. */
  lemma ScenesIgnoreDevice(action: string, d1: string, d2: string, v1: Value, v2: Value)
    requires action in SceneActions
    ensures CreateVoiceCommand(d1, action, v1) == CreateVoiceCommand(d2, action, v2)
    ensures |CreateVoiceCommand(d1, action, v1)| > 0
  {
  }

  /** A string sandwiched between a fixed prefix and a fixed suffix is
      determined by the whole. */
  lemma SandwichInjective(prefix: string, d1: string, d2: string, suffix: string)
    requires prefix + d1 + suffix == prefix + d2 + suffix
    ensures d1 == d2
  {
    var w1, w2 := prefix + d1 + suffix, prefix + d2 + suffix;
    assert |d1| == |d2|;
    assert d1 == w1[|prefix|..|prefix| + |d1|];
    assert d2 == w2[|prefix|..|prefix| + |d2|];
  }

  /** The fixed text around the device in the phrase of a non-scene action. */
  function Frame(action: string, value: Value): (string, string) {
    if action == "turn_on" then ("turn on the ", "")
    else if action == "turn_off" then ("turn off the ", "")
    else if action == "brightness" then ("set the ", " to " + Render(value) + "%")
    else if action == "color" then ("change the ", " to " + Render(value))
    else (action + " ", "")
  }

  lemma FramedPhrase(action: string, value: Value, device: string)
    requires action !in SceneActions
    ensures CreateVoiceCommand(device, action, value) == Frame(action, value).0 + device + Frame(action, value).1
  {
    var (prefix, suffix) := Frame(action, value);
    var head := prefix + device;
    if action == "brightness" {
      ConcatAssoc(head, " to ", Render(value));
      ConcatAssoc(head, " to " + Render(value), "%");
    } else if action == "color" {
      ConcatAssoc(head, " to ", Render(value));
    } else {
      assert suffix == [] && head + suffix == head;
    }
  }

  /** For every action that mentions the device, the phrase determines the
      device: two devices never share a phrase. */
  lemma DeviceRecoverable(action: string, value: Value, d1: string, d2: string)
    requires action !in SceneActions
    requires CreateVoiceCommand(d1, action, value) == CreateVoiceCommand(d2, action, value)
    ensures d1 == d2
  {
    FramedPhrase(action, value, d1);
    FramedPhrase(action, value, d2);
    SandwichInjective(Frame(action, value).0, d1, d2, Frame(action, value).1);
  }

  /** What `executeVoiceCommand` resolves to. */
  datatype Execution = Execution(success: bool, message: string)

  /** `executeVoiceCommand`: nothing is sent anywhere; the result always
      reports success and quotes the command, which can be read back from
      the message. */
  function ExecuteVoiceCommand(command: string): (r: Execution)
    ensures r.success
    ensures |r.message| == |command| + 23
    ensures r.message[..22] == "Voice command ready: \""
    ensures r.message[22..|r.message| - 1] == command
    ensures r.message[|r.message| - 1] == '"'
  {
    var message := "Voice command ready: \"" + command + "\"";
    assert message[22..|message| - 1] == command;
    Execution(true, message)
  }

  /** Distinct commands give distinct messages. */
  lemma ExecutionInjective(c1: string, c2: string)
    requires ExecuteVoiceCommand(c1) == ExecuteVoiceCommand(c2)
    ensures c1 == c2
  {
    var m := ExecuteVoiceCommand(c1).message;
    assert c1 == m[22..|m| - 1];
  }

  // ---------------------------------------------------------------------
  // `VOICE_COMMANDS.hue`

  function TurnOn(room: string): string {
    "turn on the " + room + " lights"
  }

  function TurnOff(room: string): string {
    "turn off the " + room + " lights"
  }

  function Dim(room: string, level: int): string {
    "dim the " + room + " lights to " + IntToString(level) + "%"
  }

  function Brighten(room: string): string {
    "brighten the " + room + " lights"
  }

  function ColorPhrase(room: string, color: string): string {
    "change the " + room + " lights to " + color
  }

  const SceneBright: string := "turn on all lights"
  const SceneCozy: string := "set cozy lighting"
  const SceneMovie: string := "set movie lighting"
  const SceneNight: string := "set night lighting"
  const SceneOff: string := "turn off all lights"

  /** The room templates agree with the phrase table applied to the device
      `<room> lights`; the `bright` and `off` scenes agree with the table's
      scene phrases, while the table's `scene_cozy` phrase differs from the
      `cozy` scene template. */
  lemma TemplatesMatchTable(room: string, color: string, v: Value)
    ensures TurnOn(room) == CreateVoiceCommand(room + " lights", "turn_on", v)
    ensures TurnOff(room) == CreateVoiceCommand(room + " lights", "turn_off", v)
    ensures ColorPhrase(room, color) == CreateVoiceCommand(room + " lights", "color", Text(color))
    ensures SceneBright == CreateVoiceCommand(room, "scene_bright", v)
    ensures SceneOff == CreateVoiceCommand(room, "scene_off", v)
    ensures SceneCozy != CreateVoiceCommand(room, "scene_cozy", v)
  {
    ConcatAssoc("turn on the ", room, " lights");
    ConcatAssoc("turn off the ", room, " lights");
    ColorTemplate(room, color);
    CozyDiffers(room, v);
  }

  lemma ColorTemplate(room: string, color: string)
    ensures ColorPhrase(room, color) == "change the " + (room + " lights") + " to " + color
  {
    var head := "change the " + room;
    ConcatAssoc(head, " lights", " to ");
    assert " lights" + " to " == " lights to ";
    ConcatAssoc("change the ", room, " lights");
  }

  lemma CozyDiffers(room: string, v: Value)
    ensures SceneCozy != CreateVoiceCommand(room, "scene_cozy", v)
  {
    assert SceneCozy[4] == 'c' && CreateVoiceCommand(room, "scene_cozy", v)[4] == 'm';
  }

  /** The dim template quotes the level in decimal right before the final '%'. */
  lemma DimCarriesLevel(room: string, level: nat)
    ensures var phrase := Dim(room, level);
      var digits := phrase[|phrase| - 1 - |NatToString(level)|..|phrase| - 1];
      && phrase[|phrase| - 1] == '%'
      && AllDigits(digits) && DigitsValue(digits) == level
  {
    var phrase := Dim(room, level);
    var s := NatToString(level);
    assert phrase == "dim the " + room + " lights to " + s + "%";
    assert phrase[|phrase| - 1 - |s|..|phrase| - 1] == s;
    NatToStringRoundTrip(level);
  }
}

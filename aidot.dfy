/** The AI Dot local-network lighting adapter (src/lib/aidot.ts): a verb
    becomes a POST of a small JSON payload to a sub-path of the device's IP,
    and the device's status record is normalised with defaults. */
module AiDot {
  import opened Common

  datatype Color = Color(r: int, g: int, b: int)

  /** The colour object a caller passes; a missing component is `None`. */
  datatype ColorInput = ColorInput(r: Option<int>, g: Option<int>, b: Option<int>)

  /** A verb together with its value. */
  datatype Command =
    | Power(on: Value)
    | Brightness(level: int)
    | SetColor(color: ColorInput)
    | Temperature(kelvin: Value)
    | Unrecognised(name: string)

  datatype Payload =
    | PowerBody(on: Value)
    | BrightnessBody(brightness: int)
    | ColorBody(rgb: Color)
    | TemperatureBody(temperature: Value)

  /** A POST of `payload` to `http://<ip><path>`. */
  datatype Request = Request(path: string, payload: Payload)

  /** `Math.max(0, Math.min(100, v))`. */
  function Clamp(v: int): (r: int)
    ensures 0 <= r <= 100
    ensures 0 <= v <= 100 ==> r == v
    ensures v < 0 ==> r == 0
    ensures v > 100 ==> r == 100
  {
    if v < 0 then 0 else if v > 100 then 100 else v
  }

  /** `c || 255`: a missing or zero component becomes 255. */
  function ComponentOr255(c: Option<int>): (r: int)
    ensures c.Some? && c.value != 0 ==> r == c.value
    ensures c.None? || c.value == 0 ==> r == 255
  {
    if c.Some? && c.value != 0 then c.value else 255
  }

  function ColorPayload(c: ColorInput): (rgb: Color)
    ensures rgb.r != 0 && rgb.g != 0 && rgb.b != 0
  {
    Color(ComponentOr255(c.r), ComponentOr255(c.g), ComponentOr255(c.b))
  }

  /** The request `controlAiDotDevice` sends, if any. */
  function ControlRequest(cmd: Command): (r: Option<Request>)
    ensures r.None? <==> cmd.Unrecognised?
    ensures cmd.Power? ==> r == Some(Request("/api/power", PowerBody(cmd.on)))
    ensures cmd.Temperature? ==> r == Some(Request("/api/temperature", TemperatureBody(cmd.kelvin)))
    ensures cmd.Brightness? ==>
      (r.value.path == "/api/brightness" && r.value.payload == BrightnessBody(Clamp(cmd.level)))
    ensures cmd.SetColor? ==>
      (r.value.path == "/api/color" && r.value.payload == ColorBody(ColorPayload(cmd.color)))
  {
    match cmd
    case Power(on) => Some(Request("/api/power", PowerBody(on)))
    case Brightness(level) => Some(Request("/api/brightness", BrightnessBody(Clamp(level))))
    case SetColor(c) => Some(Request("/api/color", ColorBody(ColorPayload(c))))
    case Temperature(k) => Some(Request("/api/temperature", TemperatureBody(k)))
    case Unrecognised(_) => None
  }

  /** `controlAiDotDevice`: false for an unknown verb (thrown and caught
      before any call), otherwise `response.ok`. */
  function ControlAiDotDevice(deviceIp: string, cmd: Command, reply: Reply<()>): (ok: bool)
    ensures ok <==> !cmd.Unrecognised? && IsOk(reply)
  {
    ControlRequest(cmd).Some? && IsOk(reply)
  }

  // ---------------------------------------------------------------------
  // Device state

  /** The `state` object of a status reply; absent fields are `None`. */
  datatype StateData = StateData(on: Option<bool>, brightness: Option<int>, color: Option<Color>, temperature: Option<int>)

  /** The body of `GET http://<ip>/api/status`. */
  datatype StatusData = StatusData(
    id: Option<string>,
    name: Option<string>,
    model: Option<string>,
    deviceType: Option<string>,
    state: Option<StateData>)

  datatype DeviceState = DeviceState(on: bool, brightness: int, color: Option<Color>, temperature: Option<int>)

  datatype Device = Device(
    id: string,
    name: string,
    ip: string,
    model: string,
    deviceType: string,
    online: bool,
    state: DeviceState)

  /** Every `from` in `s` replaced by `to`; with '.' and '_' this is
      `ip.replace(/\./g, '_')`. */
  function ReplaceChar(s: string, from: char, to: char): (r: string)
    ensures |r| == |s|
    ensures forall i :: 0 <= i < |s| ==> r[i] == if s[i] == from then to else s[i]
    decreases |s|
  {
    if s == [] then [] else [if s[0] == from then to else s[0]] + ReplaceChar(s[1..], from, to)
  }

  /** An address without underscores (every IPv4 address) is recovered from
      the id derived from it, so distinct addresses get distinct ids. */
  lemma DerivedIdRoundTrip(ip: string)
    requires forall i :: 0 <= i < |ip| ==> ip[i] != '_'
    ensures ReplaceChar(ReplaceChar(ip, '.', '_'), '_', '.') == ip
  {
  }

  lemma DerivedIdInjective(ip1: string, ip2: string)
    requires forall i :: 0 <= i < |ip1| ==> ip1[i] != '_'
    requires forall i :: 0 <= i < |ip2| ==> ip2[i] != '_'
    requires ReplaceChar(ip1, '.', '_') == ReplaceChar(ip2, '.', '_')
    ensures ip1 == ip2
  {
    DerivedIdRoundTrip(ip1);
    DerivedIdRoundTrip(ip2);
  }

  /** The record built from a status reply for the device at `ip`. */
  function DeviceFromStatus(ip: string, data: StatusData): (d: Device)
    ensures d.ip == ip && d.online
    ensures d.id == if Present(data.id) then data.id.value else ReplaceChar(ip, '.', '_')
    ensures d.name == if Present(data.name) then data.name.value else "AI Dot Light (" + ip + ")"
    ensures d.model == if Present(data.model) then data.model.value else "Unknown"
    ensures d.deviceType == if Present(data.deviceType) then data.deviceType.value else "bulb"
    ensures d.state.on <==> data.state.Some? && data.state.value.on == Some(true)
    ensures d.state.brightness != 0
    ensures data.state.Some? && data.state.value.brightness.Some? && data.state.value.brightness.value != 0
            ==> d.state.brightness == data.state.value.brightness.value
    ensures data.state.None? || data.state.value.brightness.None? ==> d.state.brightness == 50
    ensures data.state.Some? && data.state.value.brightness == Some(0) ==> d.state.brightness == 50
    ensures d.state.color == (if data.state.Some? then data.state.value.color else None)
    ensures d.state.temperature == (if data.state.Some? then data.state.value.temperature else None)
  {
    var st := data.state;
    Device(
      OrElse(data.id, ReplaceChar(ip, '.', '_')),
      OrElse(data.name, "AI Dot Light (" + ip + ")"),
      ip,
      OrElse(data.model, "Unknown"),
      OrElse(data.deviceType, "bulb"),
      true,
      DeviceState(
        st.Some? && st.value.on == Some(true),
        if st.Some? && st.value.brightness.Some? && st.value.brightness.value != 0
        then st.value.brightness.value else 50,
        if st.Some? then st.value.color else None,
        if st.Some? then st.value.temperature else None))
  }

  /** `getAiDotDeviceState`: a record exactly when the status call answered 2xx. */
  function GetAiDotDeviceState(ip: string, reply: Reply<StatusData>): (r: Option<Device>)
    ensures r.Some? <==> IsOk(reply)
    ensures r.Some? ==> r.value.ip == ip && r.value.online
  {
    if IsOk(reply) then Some(DeviceFromStatus(ip, reply.body)) else None
  }

  /** `discoverAiDotDevices`: network scanning is not implemented, so no device is found. */
  function DiscoverAiDotDevices(): (r: seq<Device>)
    ensures |r| == 0
  {
    []
  }
}

/** The Philips Hue cloud adapter (src/lib/philips-hue.ts): the OAuth
    authorize URL and token exchange parameters, the light list normalised
    from the native 0-254 brightness scale to percent, and the control body
    built for a command. */
module Hue {
  import opened Common

  // ---------------------------------------------------------------------
  // Brightness scales

  /** `Math.round(n / d)` for the exact quotient, `d > 0`: halves round up. */
  function RoundDiv(n: int, d: int): (r: int)
    requires d > 0
    ensures 2 * d * r <= 2 * n + d < 2 * d * r + 2 * d
  {
    (2 * n + d) / (2 * d)
  }

  /** `Math.round(bri / 254 * 100)`: native brightness to percent. */
  function NativeToPercent(bri: int): (p: int)
    ensures 0 <= bri <= 254 ==> 0 <= p <= 100
    ensures bri == 0 ==> p == 0
    ensures bri == 254 ==> p == 100
  {
    RoundDiv(100 * bri, 254)
  }

  /** `Math.round(p * 254 / 100)`: percent to native brightness. */
  function PercentToNative(p: int): (bri: int)
    ensures 0 <= p <= 100 ==> 0 <= bri <= 254
    ensures p == 0 ==> bri == 0
    ensures p == 100 ==> bri == 254
  {
    RoundDiv(254 * p, 100)
  }

  /** A quotient pinned between two consecutive multiples of the divisor
      `2 * 254` that `RoundDiv(_, 254)` divides by. */
  lemma DivBetween(x: int, q: int)
    requires 2 * 254 * q <= x < 2 * 254 * q + 2 * 254
    ensures x / (2 * 254) == q
  {
  }

  /** Every whole percentage survives the trip to the native scale and back. */
  lemma PercentRoundTrip(p: int)
    requires 0 <= p <= 100
    ensures NativeToPercent(PercentToNative(p)) == p
  {
    var n := PercentToNative(p);
    // 200 n lies within 100 of 2 * 254 p, so 200 n + 254 lies in
    // [2 * 254 p, 2 * 254 p + 2 * 254).
    assert 2 * 254 * p - 100 < 200 * n <= 2 * 254 * p + 100;
    DivBetween(200 * n + 254, p);
  }

  // ---------------------------------------------------------------------
  // Light list

  /** The `state` object of a vendor light; absent fields are `None`. */
  datatype LightState = LightState(on: Option<bool>, bri: Option<int>)

  /** One value of the vendor's id-keyed light map. */
  datatype VendorLight = VendorLight(name: Option<string>, lightType: Option<string>, state: Option<LightState>)

  datatype HueDevice = HueDevice(
    id: string,
    name: string,
    archetype: string,
    on: bool,
    brightness: int,
    deviceType: string)

  /** The raw brightness, with a missing value read as 0. */
  function RawBrightness(l: VendorLight): int {
    if l.state.Some? && l.state.value.bri.Some? then l.state.value.bri.value else 0
  }

  /** The record for the light stored under `id`. */
  function NormaliseLight(id: string, l: VendorLight): (d: HueDevice)
    ensures d.id == id && d.deviceType == "light"
    ensures d.name == if Present(l.name) then l.name.value else "Light " + id
    ensures d.archetype == if Present(l.lightType) then l.lightType.value else "light"
    ensures d.on <==> l.state.Some? && l.state.value.on == Some(true)
    ensures 0 <= RawBrightness(l) <= 254 ==> 0 <= d.brightness <= 100
    ensures RawBrightness(l) == 0 ==> d.brightness == 0
  {
    HueDevice(
      id,
      OrElse(l.name, "Light " + id),
      OrElse(l.lightType, "light"),
      l.state.Some? && l.state.value.on == Some(true),
      NativeToPercent(RawBrightness(l)),
      "light")
  }

  /** `getHueDevices`: one record per map entry, in entry order. The status
      code is not consulted; a missing body gives no lights, and a thrown
      error (network or parse) is swallowed into the empty list. */
  function GetHueDevices(reply: Reply<Option<seq<(string, VendorLight)>>>): (r: seq<HueDevice>)
    ensures reply.Threw? || reply.body.None? ==> r == []
    ensures reply.Reply? && reply.body.Some? ==>
      |r| == |reply.body.value|
      && forall i :: 0 <= i < |r| ==> r[i] == NormaliseLight(reply.body.value[i].0, reply.body.value[i].1)
  {
    if reply.Threw? || reply.body.None? then []
    else
      var entries := reply.body.value;
      seq(|entries|, i requires 0 <= i < |entries| => NormaliseLight(entries[i].0, entries[i].1))
  }

  // ---------------------------------------------------------------------
  // Control

  datatype HueCommand =
    | On(value: Value)
    | Brightness(percent: int)
    | SetColor(r: int, g: int, b: int)
    | Other(name: string)

  /** The JSON body sent to `/route/api/0/lights/<id>/state`. `XyBody` stands
      for the CIE xy pair computed from the RGB components. */
  datatype Body = OnBody(on: Value) | BriBody(bri: int) | XyBody(r: int, g: int, b: int) | EmptyBody

  /** The body for a command. A brightness command sends the rounded native
      value for any percent, also one outside 0..100 (150 sends 381); for a
      percent in range that value reads back as the percent. */
  function ControlBody(cmd: HueCommand): (body: Body)
    ensures cmd.On? ==> body == OnBody(cmd.value)
    ensures cmd.Brightness? ==> body == BriBody(PercentToNative(cmd.percent))
    ensures cmd.SetColor? ==> body == XyBody(cmd.r, cmd.g, cmd.b)
    ensures cmd.Brightness? && 0 <= cmd.percent <= 100 ==>
      body.BriBody? && 0 <= body.bri <= 254 && NativeToPercent(body.bri) == cmd.percent
    ensures cmd.Other? ==> body == EmptyBody
  {
    match cmd
    case On(v) => OnBody(v)
    case Brightness(p) =>
      var bri := PercentToNative(p);
      assert 0 <= p <= 100 ==> NativeToPercent(bri) == p by {
        if 0 <= p <= 100 {
          PercentRoundTrip(p);
        }
      }
      BriBody(bri)
    case SetColor(r, g, b) => XyBody(r, g, b)
    case Other(_) => EmptyBody
  }

  /** What a caller of `controlHueDevice` observes: the parsed response, or
      the error rethrown. */
  datatype Outcome<T> = Returned(response: T) | Rethrown

  /** `controlHueDevice` rethrows where `getHueDevices` swallows. */
  function ControlHueDevice<T>(cmd: HueCommand, reply: Reply<T>): (r: Outcome<T>)
    ensures r.Rethrown? <==> reply.Threw?
    ensures reply.Reply? ==> r == Returned(reply.body)
  {
    match reply
    case Threw => Rethrown
    case Reply(_, body) => Returned(body)
  }

  // ---------------------------------------------------------------------
  // OAuth parameters

  /** The first value stored under `key`. */
  function Param(params: seq<(string, string)>, key: string): Option<string>
    decreases |params|
  {
    if params == [] then None
    else if params[0].0 == key then Some(params[0].1)
    else Param(params[1..], key)
  }

  /** Looking a key up skips every earlier entry stored under another key. */
  lemma {:induction false} SkipParams(params: seq<(string, string)>, n: nat, key: string)
    requires n <= |params|
    requires forall i :: 0 <= i < n ==> params[i].0 != key
    ensures Param(params, key) == Param(params[n..], key)
    decreases n
  {
    if n > 0 {
      SkipParams(params[1..], n - 1, key);
      assert params[1..][n - 1..] == params[n..];
    }
  }

  function RedirectUri(baseUrl: string): string {
    baseUrl + "/api/auth/callback/hue"
  }

  /** The query parameters of the authorize URL `https://api.meethue.com/v2/oauth2/authorize`. */
  function AuthParams(clientId: string, baseUrl: string): (params: seq<(string, string)>)
    ensures Param(params, "client_id") == Some(clientId)
    ensures Param(params, "response_type") == Some("code")
    ensures Param(params, "scope") == Some("read write")
    ensures Param(params, "redirect_uri") == Some(baseUrl + "/api/auth/callback/hue")
  {
    var params := [("client_id", clientId), ("response_type", "code"), ("scope", "read write"),
                   ("redirect_uri", RedirectUri(baseUrl))];
    SkipParams(params, 2, "scope");
    SkipParams(params, 3, "redirect_uri");
    params
  }

  /** The form parameters of the authorization-code exchange. */
  function TokenParams(code: string, clientId: string, clientSecret: string, baseUrl: string): (params: seq<(string, string)>)
    ensures Param(params, "grant_type") == Some("authorization_code")
    ensures Param(params, "code") == Some(code)
    ensures Param(params, "client_id") == Some(clientId)
    ensures Param(params, "redirect_uri") == Some(RedirectUri(baseUrl))
  {
    var params := [("grant_type", "authorization_code"), ("code", code), ("client_id", clientId),
                   ("client_secret", clientSecret), ("redirect_uri", RedirectUri(baseUrl))];
    SkipParams(params, 2, "client_id");
    SkipParams(params, 4, "redirect_uri");
    params
  }

  /** The exchange repeats the client id and the redirect URI of the authorize
      request, as section 4.1.3 of RFC 6749 requires. */
  lemma ExchangeMatchesAuthorize(code: string, clientId: string, clientSecret: string, baseUrl: string)
    ensures Param(TokenParams(code, clientId, clientSecret, baseUrl), "redirect_uri")
         == Param(AuthParams(clientId, baseUrl), "redirect_uri")
    ensures Param(TokenParams(code, clientId, clientSecret, baseUrl), "client_id")
         == Param(AuthParams(clientId, baseUrl), "client_id")
  {
  }

  /** `getHueAccessToken`: `data.access_token || null`, with no status check;
      a thrown error gives null. */
  function AccessToken(reply: Reply<Option<string>>): (token: Option<string>)
    ensures token.Some? <==> reply.Reply? && Present(reply.body)
    ensures token.Some? ==> token == reply.body
  {
    if reply.Reply? && Present(reply.body) then reply.body else None
  }
}

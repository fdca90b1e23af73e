/** The playback-control endpoint (src/pages/api/spotify/control.ts): method
    and field checks, the mock answer when no Spotify token is configured,
    and the mapping of the adapter's verdict to 200 or 500. */
module SpotifyControlApi {
  import opened Common
  import Spotify

  /** The fields read from the JSON body. */
  datatype RequestBody = RequestBody(action: Value, deviceId: Value, value: Value)

  /** A POST whose body names an action. */
  predicate Accepted(verb: string, body: Option<RequestBody>) {
    verb == "POST" && body.Some? && Truthy(body.value.action)
  }

  /** The request the adapter would send for this body, if the action is
      known. The device id is handed over as it arrived: it selects the
      device in the query when truthy, and a `transfer` sends it unchanged. */
  function AdapterRequest(body: RequestBody): (r: Option<Spotify.Request>)
    ensures r.Some? <==> Render(body.action) in Spotify.KnownActions
    ensures Render(body.action) in {"play", "pause", "next", "previous"} ==>
      r.Some? && r.value.query == Spotify.DeviceParam(body.deviceId)
    ensures Render(body.action) == "transfer" ==>
      r.Some? && r.value.body.Some? && r.value.body.value.deviceIds == [body.deviceId]
  {
    Spotify.BuildRequest(Render(body.action), body.deviceId, body.value)
  }

  /** Whether the handler calls the adapter at all. */
  predicate CallsAdapter(verb: string, token: Option<string>, body: Option<RequestBody>) {
    Accepted(verb, body) && Present(token)
  }

  /** The response of the handler. A missing body makes the destructuring
      throw, which the handler's catch turns into a 500. */
  function Handle(verb: string, token: Option<string>, body: Option<RequestBody>, reply: Reply<()>): (r: ControlResponse)
    ensures verb != "POST" ==> r == ControlResponse(405, None, "Method not allowed", false)
    ensures verb == "POST" && body.None? ==>
      r == ControlResponse(500, Some(false), "Error controlling Spotify playback", false)
    ensures verb == "POST" && body.Some? && !Accepted(verb, body) ==>
      r == ControlResponse(400, None, "Action is required", false)
    ensures Accepted(verb, body) && !Present(token) ==>
      r == ControlResponse(200, Some(true), "Mock Spotify " + Render(body.value.action) + " command executed", true)
    ensures CallsAdapter(verb, token, body) ==>
      (r.status == 200 <==> Render(body.value.action) in Spotify.KnownActions && IsOk(reply))
      && r.success == Some(r.status == 200) && !r.mock
      && r.message == (if r.status == 200 then "Successfully executed " else "Failed to execute ")
                      + Render(body.value.action)
  {
    if verb != "POST" then ControlResponse(405, None, "Method not allowed", false)
    else if body.None? then ControlResponse(500, Some(false), "Error controlling Spotify playback", false)
    else
      var b := body.value;
      if !Truthy(b.action) then ControlResponse(400, None, "Action is required", false)
      else if !Present(token) then
        ControlResponse(200, Some(true), "Mock Spotify " + Render(b.action) + " command executed", true)
      else if Spotify.ControlSpotifyPlayback(Render(b.action), b.deviceId, b.value, reply) then
        ControlResponse(200, Some(true), "Successfully executed " + Render(b.action), false)
      else
        ControlResponse(500, Some(false), "Failed to execute " + Render(b.action), false)
  }

  /** Only four statuses are ever sent; `success` is present except on 400
      and 405, and it is true exactly on 200. */
  lemma StatusCodes(verb: string, token: Option<string>, body: Option<RequestBody>, reply: Reply<()>)
    ensures var r := Handle(verb, token, body, reply);
      && r.status in {200, 400, 405, 500}
      && (r.success.None? <==> r.status in {400, 405})
      && (r.success.Some? ==> (r.success.value <==> r.status == 200))
  {
  }

  /** Without a token the vendor's answer cannot change the response. */
  lemma MockIgnoresVendor(verb: string, token: Option<string>, body: Option<RequestBody>, r1: Reply<()>, r2: Reply<()>)
    requires !Present(token)
    ensures !CallsAdapter(verb, token, body)
    ensures Handle(verb, token, body, r1) == Handle(verb, token, body, r2)
  {
  }

  /** With a token, a 200 means the adapter built a request and the vendor
      accepted it. */
  lemma SuccessMeansRequestSent(verb: string, token: Option<string>, body: Option<RequestBody>, reply: Reply<()>)
    requires Present(token)
    ensures Handle(verb, token, body, reply).status == 200 ==>
      CallsAdapter(verb, token, body) && AdapterRequest(body.value).Some? && IsOk(reply)
  {
  }
}

/** The Spotify Web API adapter (src/lib/spotify.ts): a playback action
    becomes one request (method, path, query, body), the playback-state reply
    is mapped to a state or to "nothing playing", and two display helpers
    format durations and progress. */
module Spotify {
  import opened Common

  datatype HttpMethod = Put | Post

  /** The body of a `transfer` request: the device id exactly as the caller
      passed it (a missing one is serialised as null), and the play flag. */
  datatype TransferBody = TransferBody(deviceIds: seq<Value>, play: Value)

  /** A request to `https://api.spotify.com/v1<path><query>`. */
  datatype Request = Request(verb: HttpMethod, path: string, query: string, body: Option<TransferBody>)

  const KnownActions: set<string> := {"play", "pause", "next", "previous", "volume", "transfer"}

  /** `?device_id=<id>` when the device id is truthy, nothing otherwise. */
  function DeviceParam(deviceId: Value): (q: string)
    ensures q == "" <==> !Truthy(deviceId)
    ensures Truthy(deviceId) ==> |q| >= 11 && q[..11] == "?device_id=" && q[11..] == Render(deviceId)
  {
    if Truthy(deviceId) then "?device_id=" + Render(deviceId) else ""
  }

  /** The request `controlSpotifyPlayback` sends, if any. */
  function BuildRequest(action: string, deviceId: Value, value: Value): (r: Option<Request>)
    ensures r.Some? <==> action in KnownActions
    ensures r.Some? ==> (r.value.verb == Post <==> action in {"next", "previous"})
    ensures r.Some? ==> (r.value.body.Some? <==> action == "transfer")
    ensures action in {"play", "pause", "next", "previous"} ==>
      (r.value.path == "/me/player/" + action && r.value.query == DeviceParam(deviceId))
    ensures action == "volume" ==> r.value.path == "/me/player/volume"
    ensures action == "transfer" ==>
      (r.value.path == "/me/player" && r.value.query == ""
       && r.value.body == Some(TransferBody([deviceId], if Truthy(value) then value else Flag(false))))
  {
    var deviceParam := DeviceParam(deviceId);
    match action
    case "play" => Some(Request(Put, "/me/player/play", deviceParam, None))
    case "pause" => Some(Request(Put, "/me/player/pause", deviceParam, None))
    case "next" => Some(Request(Post, "/me/player/next", deviceParam, None))
    case "previous" => Some(Request(Post, "/me/player/previous", deviceParam, None))
    case "volume" =>
      var devicePart := if Truthy(deviceId) then "&device_id=" + Render(deviceId) else "";
      Some(Request(Put, "/me/player/volume", "?volume_percent=" + Render(value) + devicePart, None))
    case "transfer" =>
      Some(Request(Put, "/me/player", "", Some(TransferBody([deviceId], if Truthy(value) then value else Flag(false)))))
    case _ => None
  }

  // ---------------------------------------------------------------------
  // Reading a query string back

  /** The `key=value` pieces of a query string `?k1=v1&k2=v2`. */
  function QueryPairs(query: string): seq<string> {
    if query == [] || query[0] != '?' then [] else Split(query[1..], '&')
  }

  /** The value of the first piece whose key is `key`. */
  function Lookup(pairs: seq<string>, key: string): Option<string>
    decreases |pairs|
  {
    if pairs == [] then None
    else if |key| + 1 <= |pairs[0]| && pairs[0][..|key| + 1] == key + "=" then Some(pairs[0][|key| + 1..])
    else Lookup(pairs[1..], key)
  }

  function QueryParam(query: string, key: string): Option<string> {
    Lookup(QueryPairs(query), key)
  }

  predicate NoAmpersand(s: string) {
    forall j :: 0 <= j < |s| ==> s[j] != '&'
  }

  /** Parsing the query of a built request gives back the device id exactly
      when one was given, and for `volume` also the volume value, provided
      neither contains '&' (which the source does not escape). */
  lemma QueryCarriesParameters(action: string, deviceId: Value, value: Value)
    requires action in KnownActions && action != "transfer"
    requires NoAmpersand(Render(deviceId))
    requires NoAmpersand(Render(value))
    ensures var q := BuildRequest(action, deviceId, value).value.query;
      && QueryParam(q, "device_id") == (if Truthy(deviceId) then Some(Render(deviceId)) else None)
      && (action == "volume" ==> QueryParam(q, "volume_percent") == Some(Render(value)))
  {
    var q := BuildRequest(action, deviceId, value).value.query;
    if action == "volume" {
      if Truthy(deviceId) {
        assert q == "?volume_percent=" + Render(value) + "&device_id=" + Render(deviceId);
        VolumeQueryWithDevice(Render(value), Render(deviceId));
      } else {
        assert q == "?volume_percent=" + Render(value);
        VolumeQueryAlone(Render(value));
      }
    } else if Truthy(deviceId) {
      assert q == "?device_id=" + Render(deviceId);
      DeviceQuery(Render(deviceId));
    }
  }

  lemma DeviceQuery(id: string)
    requires NoAmpersand(id)
    ensures QueryParam("?device_id=" + id, "device_id") == Some(id)
  {
    var idPair := "device_id=" + id;
    PairNoAmpersand("device_id=", id);
    OnePairQuery("?device_id=", "device_id=", id);
    PairsOfQuery([idPair]);
    LookupHit([idPair], "device_id", id);
  }

  lemma VolumeQueryAlone(v: string)
    requires NoAmpersand(v)
    ensures QueryParam("?volume_percent=" + v, "device_id") == None
    ensures QueryParam("?volume_percent=" + v, "volume_percent") == Some(v)
  {
    var volPair := "volume_percent=" + v;
    PairNoAmpersand("volume_percent=", v);
    OnePairQuery("?volume_percent=", "volume_percent=", v);
    PairsOfQuery([volPair]);
    LookupHit([volPair], "volume_percent", v);
    LookupSkipsVolume([volPair], v);
    assert [volPair][1..] == [];
  }

  lemma VolumeQueryWithDevice(v: string, id: string)
    requires NoAmpersand(v) && NoAmpersand(id)
    ensures QueryParam("?volume_percent=" + v + "&device_id=" + id, "device_id") == Some(id)
    ensures QueryParam("?volume_percent=" + v + "&device_id=" + id, "volume_percent") == Some(v)
  {
    var volPair := "volume_percent=" + v;
    var idPair := "device_id=" + id;
    PairNoAmpersand("volume_percent=", v);
    PairNoAmpersand("device_id=", id);
    TwoPairQuery(v, id);
    PairsOfQuery([volPair, idPair]);
    LookupHit([volPair, idPair], "volume_percent", v);
    LookupSkipsVolume([volPair, idPair], v);
    assert [volPair, idPair][1..] == [idPair];
    LookupHit([idPair], "device_id", id);
  }

  /** A query built from pieces without '&' parses back into those pieces. */
  lemma PairsOfQuery(pairs: seq<string>)
    requires |pairs| >= 1
    requires forall i :: 0 <= i < |pairs| ==> NoAmpersand(pairs[i])
    ensures QueryPairs("?" + Join(pairs, '&')) == pairs
  {
    var q := "?" + Join(pairs, '&');
    assert q[1..] == Join(pairs, '&');
    assert NoSepIn(pairs, '&') by {
      forall i, j | 0 <= i < |pairs| && 0 <= j < |pairs[i]| ensures pairs[i][j] != '&' {
        assert NoAmpersand(pairs[i]);
      }
    }
    SplitJoin(pairs, '&');
  }

  lemma PairNoAmpersand(prefix: string, v: string)
    requires NoAmpersand(prefix) && NoAmpersand(v)
    ensures NoAmpersand(prefix + v)
  {
    forall j | 0 <= j < |prefix + v| ensures (prefix + v)[j] != '&' {
      if j >= |prefix| {
        assert (prefix + v)[j] == v[j - |prefix|];
      }
    }
  }

  /** A query with a single piece is that piece joined on its own. */
  lemma OnePairQuery(head: string, key: string, v: string)
    requires head == "?" + key
    ensures head + v == "?" + Join([key + v], '&')
  {
    ConcatAssoc("?", key, v);
  }

  /** The volume query with a device id is the two pieces joined by '&'. */
  lemma TwoPairQuery(v: string, id: string)
    ensures "?volume_percent=" + v + "&device_id=" + id == "?" + Join(["volume_percent=" + v, "device_id=" + id], '&')
  {
    var pairs := ["volume_percent=" + v, "device_id=" + id];
    assert pairs[1..] == ["device_id=" + id];
    assert Join(pairs, '&') == "volume_percent=" + v + "&" + ("device_id=" + id);
  }

  /** A first piece `key=v` is found, with value `v`. */
  lemma LookupHit(pairs: seq<string>, key: string, v: string)
    requires pairs != [] && pairs[0] == key + "=" + v
    ensures Lookup(pairs, key) == Some(v)
  {
    var p := pairs[0];
    assert p[..|key| + 1] == key + "=";
    assert p[|key| + 1..] == v;
  }

  /** Looking for the device id skips a first piece that holds the volume. */
  lemma LookupSkipsVolume(pairs: seq<string>, v: string)
    requires pairs != [] && pairs[0] == "volume_percent=" + v
    ensures Lookup(pairs, "device_id") == Lookup(pairs[1..], "device_id")
  {
    assert pairs[0][0] == 'v';
    assert ("device_id" + "=")[0] == 'd';
  }

  // ---------------------------------------------------------------------
  // Outcomes

  /** `controlSpotifyPlayback`: false for an unknown action (thrown and
      caught before any call); otherwise true iff `response.ok` or the status
      is 204. Since 204 is itself a 2xx status, that is exactly `response.ok`. */
  function ControlSpotifyPlayback(action: string, deviceId: Value, value: Value, reply: Reply<()>): (ok: bool)
    ensures ok <==> action in KnownActions && IsOk(reply)
  {
    BuildRequest(action, deviceId, value).Some? && (IsOk(reply) || (reply.Reply? && reply.status == 204))
  }

  datatype Track = Track(name: string, artist: string, durationMs: nat)

  datatype PlaybackState = PlaybackState(
    deviceName: string,
    volumePercent: int,
    isPlaying: bool,
    progressMs: nat,
    item: Option<Track>)

  /** `getSpotifyPlaybackState`: 204 ("no active device"), any other non-2xx
      status and a thrown error all give `None`; a 2xx reply gives its body. */
  function GetSpotifyPlaybackState(reply: Reply<PlaybackState>): (r: Option<PlaybackState>)
    ensures r.Some? <==> IsOk(reply) && reply.status != 204
    ensures r.Some? ==> r.value == reply.body
  {
    if reply.Reply? && reply.status == 204 then None
    else if IsOk(reply) then Some(reply.body)
    else None
  }

  // ---------------------------------------------------------------------
  // Display helpers

  /** `formatDuration`: `<minutes>:<seconds, two digits>`. */
  function FormatDuration(ms: nat): (r: string)
    ensures |r| >= 4 && r[|r| - 3] == ':'
    ensures AllDigits(r[..|r| - 3]) && AllDigits(r[|r| - 2..])
    ensures DigitsValue(r[|r| - 2..]) < 60
    ensures DigitsValue(r[..|r| - 3]) * 60 + DigitsValue(r[|r| - 2..]) == ms / 1000
  {
    var minutes := ms / 60000;
    var seconds := (ms % 60000) / 1000;
    var mm := NatToString(minutes);
    var ss := [DigitChar(seconds / 10), DigitChar(seconds % 10)];
    var r := mm + ":" + ss;
    assert r[..|r| - 3] == mm && r[|r| - 2..] == ss;
    NatToStringRoundTrip(minutes);
    DurationSplit(ms);
    assert DigitsValue(ss) == seconds by {
      assert ss[..1] == [DigitChar(seconds / 10)];
      assert [DigitChar(seconds / 10)][..0] == [];
      assert DigitsValue(ss[..1]) == seconds / 10;
    }
    r
  }

  /** Whole minutes and the remaining whole seconds add up to the whole seconds. */
  lemma DurationSplit(ms: nat)
    ensures (ms % 60000) / 1000 < 60
    ensures (ms / 60000) * 60 + (ms % 60000) / 1000 == ms / 1000
  {
    var m, rest := ms / 60000, ms % 60000;
    assert ms == 60000 * m + rest;
    assert ms / 1000 == 60 * m + rest / 1000;
  }

  /** `getProgressPercentage`, in exact arithmetic. */
  function ProgressPercentage(progressMs: int, durationMs: int): (r: real)
    ensures durationMs == 0 ==> r == 0.0
    ensures r <= 100.0
    ensures 0 <= progressMs && 0 < durationMs ==> 0.0 <= r
    ensures 0 <= progressMs <= durationMs && 0 < durationMs ==> r == (progressMs as real / durationMs as real) * 100.0
  {
    if durationMs == 0 then 0.0
    else
      var p := (progressMs as real / durationMs as real) * 100.0;
      if p < 100.0 then p else 100.0
  }

  /** The state shown when no Spotify credential is configured. */
  const MockState: PlaybackState := PlaybackState(
    "Kitchen Display", 65, true, 45000, Some(Track("Blinding Lights", "The Weeknd", 200040)))

  /** The mock is playing "Blinding Lights", whose duration displays as 3:20. */
  lemma MockStateDisplay()
    ensures MockState.isPlaying && MockState.item.Some? && MockState.item.value.name == "Blinding Lights"
    ensures FormatDuration(MockState.item.value.durationMs) == "3:20"
  {
    assert NatToString(3) == "3";
  }
}

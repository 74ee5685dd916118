/**
 * The records the controller's HTTPS API returns, and the outcomes of one
 * HTTP exchange as the communicator observes them.
 */
module ApiTypes {
  import opened Common

  /** One irrigation zone as the controller reports it; `uid` and `state` are what the binding reads. */
  datatype ZoneInfo = ZoneInfo(
    uid: int,
    name: string,
    state: int,
    active: bool,
    userDuration: int,
    machineDuration: int,
    remaining: int,
    cycle: int,
    noOfCycles: int,
    restriction: bool,
    zoneType: int,
    master: bool)

  /** The reply of the `zone` endpoint: the zones in the order the controller lists them. */
  datatype ZonesInfo = ZonesInfo(zones: seq<ZoneInfo>)

  /** The reply of the `apiVer` endpoint; a field missing from the JSON is None. */
  datatype ApiVersion = ApiVersion(apiVer: Option<string>, hwVer: Option<string>, swVer: Option<string>)

  /** The reply of the `provision` endpoint, reduced to the one field the binding reads (as its text). */
  datatype DeviceInfo = DeviceInfo(rainSensorRainStart: Option<string>)

  /** The reply of the `diag` endpoint, reduced to the one field the binding reads. */
  datatype Diagnostics = Diagnostics(uptime: Option<string>)

  /** The freshly constructed objects an unauthenticated getter returns. */
  const EmptyZones := ZonesInfo([])
  const EmptyDeviceInfo := DeviceInfo(None)
  const EmptyDiagnostics := Diagnostics(None)

  /** Status 200 (OK, section 15.3.1 of RFC 9110). */
  const HttpOk := 200

  /**
   * What one GET exchange produced: a response with its status and the body
   * as decoded into the requested record, or one of the exceptions the HTTP
   * client throws while waiting for it.
   */
  datatype HttpOutcome<T> =
    | Response(status: int, payload: T)
    | Timeout
    | ExecutionFailure
    | Interrupted

  /**
   * What one login POST produced: a response with its status and the
   * `access_token` field of its JSON body (None when the body does not parse
   * as a JSON object), or a transport exception.
   */
  datatype LoginExchange =
    | LoginReply(status: int, accessToken: Option<string>)
    | LoginFailure

  /** The cause carried by a RainMachineException raised for a GET. */
  datatype CommError =
    | BadStatus(status: int)
    | TimedOut
    | TransportFailure
    | WaitInterrupted

  /** A request the communicator put on the network. */
  datatype Request =
    | Post(url: string, contentType: string, body: string)
    | Get(url: string, timeoutSeconds: nat)
}

/**
 * The bridge handler, which polls one controller and fans its zones out to
 * the zone handlers registered with it, and the zone handler, which shows
 * the state of one zone. The framework's scheduler is reduced to job
 * handles: which handle the bridge holds, which scheduled jobs are still
 * live, and which handles were cancelled.
 */
module Handlers {
  import opened Common
  import opened ApiTypes
  import opened ApiClient

  const PropertyApiVersion := "version_api"
  const PropertyHwVersion := "version_hardware"
  const PropertySwVersion := "version_software"
  const PropertyUptime := "uptime"

  /** How old, in milliseconds, the zone snapshot may get before a cycle fetches it again. */
  const MaximumRefreshPeriod := 3000

  datatype ThingStatus = Initializing | Online | Offline

  /** The state of the last-rain channel: UNDEF, or the text of the rain-sensor start time. */
  datatype LastRain = Undef | RainStart(text: string)

  /** A thing property as `setProperty` leaves it: a value is stored, a null one removes the key. */
  ghost predicate Shows(props: map<string, string>, key: string, value: Option<string>)
  {
    match value
    case Some(v) => key in props && props[key] == v
    case None => key !in props
  }

  /** `props` and `props'` agree on every key outside `keys`. */
  ghost predicate AgreeOutside(props: map<string, string>, props': map<string, string>, keys: set<string>)
  {
    forall k :: k !in keys ==> (k in props <==> k in props') && (k in props ==> props[k] == props'[k])
  }

  /** `setProperty(key, value)`. */
  function SetProperty(props: map<string, string>, key: string, value: Option<string>): (r: map<string, string>)
    ensures Shows(r, key, value)
    ensures AgreeOutside(props, r, {key})
  {
    if value.Some? then props[key := value.value] else props - {key}
  }

  /** The three version properties `initialize` writes. */
  function VersionProperties(props: map<string, string>, v: ApiVersion): (r: map<string, string>)
    ensures Shows(r, PropertyApiVersion, v.apiVer)
    ensures Shows(r, PropertyHwVersion, v.hwVer)
    ensures Shows(r, PropertySwVersion, v.swVer)
    ensures AgreeOutside(props, r, {PropertyApiVersion, PropertyHwVersion, PropertySwVersion})
  {
    var p1 := SetProperty(props, PropertyApiVersion, v.apiVer);
    var p2 := SetProperty(p1, PropertyHwVersion, v.hwVer);
    SetProperty(p2, PropertySwVersion, v.swVer)
  }

  /** The last-rain channel: UNDEF when the controller reports no rain start, its text otherwise. */
  function LastRainOf(info: DeviceInfo): (r: LastRain)
    ensures r.Undef? <==> info.rainSensorRainStart.None?
    ensures r.RainStart? ==> r.text == info.rainSensorRainStart.value
  {
    match info.rainSensorRainStart
    case None => Undef
    case Some(text) => RainStart(text)
  }

  /** The zone snapshot is fetched when there is none or it is strictly older than the maximum period. */
  predicate NeedsZoneFetch(cache: Option<ZonesInfo>, lastZoneUpdate: int, now: int): (r: bool)
    ensures cache.None? ==> r
    ensures cache.Some? && now <= lastZoneUpdate + MaximumRefreshPeriod ==> !r
    ensures cache.Some? && now > lastZoneUpdate + MaximumRefreshPeriod ==> r
  {
    cache.None? || now - lastZoneUpdate > MaximumRefreshPeriod
  }

  /** The login replies and GET outcomes one poll cycle meets, in the order it meets them. */
  datatype CycleNetwork = CycleNetwork(
    diagLogin: LoginExchange,
    diagnostics: string -> HttpOutcome<Diagnostics>,
    infoLogin: LoginExchange,
    deviceInfo: string -> HttpOutcome<DeviceInfo>,
    zonesLogin: LoginExchange,
    zones: string -> HttpOutcome<ZonesInfo>)

  /**
   * What a poll cycle, or a stage of one, does: the uptime property it
   * writes (None if it never got that far), the last-rain state it writes,
   * the zone snapshot and its timestamp afterwards, the zones it hands out,
   * the error that cut it short, and the session's token afterwards, the
   * requests it sent and whether it re-asserted an interrupt.
   */
  datatype Fetch = Fetch(
    uptime: Option<Option<string>>,
    lastRain: Option<LastRain>,
    zonesCache: Option<ZonesInfo>,
    lastZoneUpdate: int,
    delivered: seq<ZoneInfo>,
    failed: Option<CommError>,
    token: string,
    sent: seq<Request>,
    interrupted: bool)

  /** A stage's effect preceded by an exchange that sent `sent`. */
  function Preceded(f: Fetch, sent: seq<Request>, interrupted: bool): Fetch
  {
    f.(sent := sent + f.sent, interrupted := interrupted || f.interrupted)
  }

  lemma AppendAssociates<T>(a: seq<T>, b: seq<T>, c: seq<T>)
    ensures (a + b) + c == a + (b + c)
  {
  }

  /** A stage that stopped at an error: the snapshot is kept and nothing is handed out. */
  function Halted<T>(cache: Option<ZonesInfo>, lastZoneUpdate: int, e: Exchange<T>): Fetch
    requires e.result.Err?
  {
    Fetch(None, None, cache, lastZoneUpdate, [], Some(e.result.error), e.token, e.sent, e.interrupted)
  }

  /**
   * The zone stage: a stale or missing snapshot is fetched and stamped with
   * `fetchedAt`; a fresh one is reused without any request. The snapshot's
   * zones are handed out unless the fetch failed.
   */
  function ZoneStage(token: string, password: string, address: string, cache: Option<ZonesInfo>, lastZoneUpdate: int,
                     now: int, fetchedAt: int, net: CycleNetwork): (f: Fetch)
    ensures f.uptime.None? && f.lastRain.None?
    ensures |f.sent| <= 2
    ensures f.interrupted ==> f.failed == Some(WaitInterrupted)
  {
    if !NeedsZoneFetch(cache, lastZoneUpdate, now) then
      Fetch(None, None, cache, lastZoneUpdate, cache.value.zones, None, token, [], false)
    else
      var e := AuthenticatedExchange(token, password, address, CmdApiZone, EmptyZones, net.zonesLogin, net.zones);
      if e.result.Err? then Halted(cache, lastZoneUpdate, e)
      else Fetch(None, None, Some(e.result.value), fetchedAt, e.result.value.zones, None, e.token, e.sent, e.interrupted)
  }

  /** The device-information stage: the last-rain channel, then the zone stage. */
  function InfoStage(token: string, password: string, address: string, cache: Option<ZonesInfo>, lastZoneUpdate: int,
                     now: int, fetchedAt: int, net: CycleNetwork): (f: Fetch)
    ensures f.uptime.None?
    ensures |f.sent| <= 4
    ensures f.interrupted ==> f.failed == Some(WaitInterrupted)
  {
    var e := AuthenticatedExchange(token, password, address, CmdProvision, EmptyDeviceInfo, net.infoLogin, net.deviceInfo);
    if e.result.Err? then Halted(cache, lastZoneUpdate, e)
    else
      var rest := ZoneStage(e.token, password, address, cache, lastZoneUpdate, now, fetchedAt, net);
      Preceded(rest, e.sent, e.interrupted).(lastRain := Some(LastRainOf(e.result.value)))
  }

  /**
   * `updateBridge` on a session holding `token`: diagnostics, then device
   * information, then (when the snapshot is stale) the zones; the first
   * error skips every later step, and `fetchedAt` is the clock reading
   * taken after a successful zone fetch.
   */
  function Cycle(token: string, password: string, address: string, cache: Option<ZonesInfo>, lastZoneUpdate: int,
                 now: int, fetchedAt: int, net: CycleNetwork): (f: Fetch)
    ensures |f.sent| <= 6
    ensures f.interrupted ==> f.failed == Some(WaitInterrupted)
  {
    var e := AuthenticatedExchange(token, password, address, CmdDiagnostics, EmptyDiagnostics, net.diagLogin, net.diagnostics);
    if e.result.Err? then Halted(cache, lastZoneUpdate, e)
    else
      var rest := InfoStage(e.token, password, address, cache, lastZoneUpdate, now, fetchedAt, net);
      Preceded(rest, e.sent, e.interrupted).(uptime := Some(e.result.value.uptime))
  }

  /**
   * The order of a cycle: an error keeps the snapshot and hands nothing
   * out; without one, uptime and last rain are both written and the
   * snapshot's zones are handed out; last rain is written only after uptime.
   */
  lemma CycleOrder(token: string, password: string, address: string, cache: Option<ZonesInfo>, lastZoneUpdate: int,
                   now: int, fetchedAt: int, net: CycleNetwork)
    ensures var f := Cycle(token, password, address, cache, lastZoneUpdate, now, fetchedAt, net);
            (f.failed.Some? ==> f.zonesCache == cache && f.lastZoneUpdate == lastZoneUpdate && f.delivered == []) &&
            (f.failed.None? ==> f.uptime.Some? && f.lastRain.Some? && f.zonesCache.Some? && f.delivered == f.zonesCache.value.zones) &&
            (f.lastRain.Some? ==> f.uptime.Some?)
  {
  }

  /**
   * The snapshot's age rule: a fresh snapshot is kept with its timestamp
   * and costs no zone request; a stale one that is fetched successfully is
   * stamped with `fetchedAt`.
   */
  lemma SnapshotAgeRule(token: string, password: string, address: string, cache: Option<ZonesInfo>, lastZoneUpdate: int,
                        now: int, fetchedAt: int, net: CycleNetwork)
    ensures var f := Cycle(token, password, address, cache, lastZoneUpdate, now, fetchedAt, net);
            (!NeedsZoneFetch(cache, lastZoneUpdate, now) ==>
               f.zonesCache == cache && f.lastZoneUpdate == lastZoneUpdate && Get(CommandUrl(address, CmdApiZone), HttpTimeoutSeconds) !in f.sent) &&
            (NeedsZoneFetch(cache, lastZoneUpdate, now) && f.failed.None? ==> f.lastZoneUpdate == fetchedAt)
  {
    if !NeedsZoneFetch(cache, lastZoneUpdate, now) {
      var zoneGet := Get(CommandUrl(address, CmdApiZone), HttpTimeoutSeconds);
      var d := AuthenticatedExchange(token, password, address, CmdDiagnostics, EmptyDiagnostics, net.diagLogin, net.diagnostics);
      var i := AuthenticatedExchange(d.token, password, address, CmdProvision, EmptyDeviceInfo, net.infoLogin, net.deviceInfo);
      ExchangeStaysOnCommand(token, password, address, CmdDiagnostics, EmptyDiagnostics, net.diagLogin, net.diagnostics);
      ExchangeStaysOnCommand(d.token, password, address, CmdProvision, EmptyDeviceInfo, net.infoLogin, net.deviceInfo);
      CommandUrlsDiffer(address, CmdApiZone, CmdDiagnostics);
      CommandUrlsDiffer(address, CmdApiZone, CmdProvision);
      assert zoneGet !in d.sent;
      assert zoneGet !in i.sent;
      assert zoneGet !in d.sent + i.sent;
    }
  }

  /**
   * A session without a password and without a token (every session the
   * bridge handler builds) sends nothing in a cycle and never fails: the
   * uptime property is removed, last rain is UNDEF, and a stale snapshot is
   * replaced by the empty zone list.
   */
  lemma PasswordlessCycle(address: string, cache: Option<ZonesInfo>, lastZoneUpdate: int, now: int, fetchedAt: int, net: CycleNetwork)
    ensures var f := Cycle("", "", address, cache, lastZoneUpdate, now, fetchedAt, net);
            f.sent == [] && f.token == "" && !f.interrupted && f.failed.None? &&
            f.uptime == Some(None) && f.lastRain == Some(Undef) &&
            (NeedsZoneFetch(cache, lastZoneUpdate, now) ==> f.zonesCache == Some(EmptyZones))
  {
    WithoutPasswordNothingIsSent(address, CmdDiagnostics, EmptyDiagnostics, net.diagLogin, net.diagnostics);
    WithoutPasswordNothingIsSent(address, CmdProvision, EmptyDeviceInfo, net.infoLogin, net.deviceInfo);
    WithoutPasswordNothingIsSent(address, CmdApiZone, EmptyZones, net.zonesLogin, net.zones);
  }

  /**
   * Consequently such a bridge only ever holds the empty snapshot, and no
   * zone is ever handed to a zone handler.
   */
  lemma PasswordlessBridgeDeliversNothing(address: string, cache: Option<ZonesInfo>, lastZoneUpdate: int, now: int, fetchedAt: int,
                                          net: CycleNetwork)
    requires cache == None || cache == Some(EmptyZones)
    ensures var f := Cycle("", "", address, cache, lastZoneUpdate, now, fetchedAt, net);
            f.zonesCache == Some(EmptyZones) && f.delivered == []
  {
    PasswordlessCycle(address, cache, lastZoneUpdate, now, fetchedAt, net);
  }

  /** A cycle that finds the controller silent on diagnostics writes nothing and keeps the snapshot. */
  lemma FailedDiagnosticsWriteNothing(token: string, password: string, address: string, cache: Option<ZonesInfo>, lastZoneUpdate: int,
                                      now: int, fetchedAt: int, net: CycleNetwork)
    requires token != ""
    requires net.diagnostics(CommandUrl(address, CmdDiagnostics)).Timeout?
    ensures var f := Cycle(token, password, address, cache, lastZoneUpdate, now, fetchedAt, net);
            f.failed == Some(TimedOut) && f.uptime.None? && f.lastRain.None? && f.zonesCache == cache &&
            f.sent == [Get(CommandUrl(address, CmdDiagnostics), HttpTimeoutSeconds)]
  {
    HeldTokenSkipsLogin(token, password, address, CmdDiagnostics, EmptyDiagnostics, net.diagLogin, net.diagnostics);
  }

  /** The zone `z` is handed to `h`: its uid is registered, to `h`. */
  predicate Delivers(registry: map<int, ZoneHandler>, z: ZoneInfo, h: ZoneHandler)
  {
    z.uid in registry && registry[z.uid] == h
  }

  /**
   * The zone `h` ends up showing after `zones` were handed out in order:
   * the last one delivered to it, or None when none was.
   */
  function LastDelivered(zones: seq<ZoneInfo>, registry: map<int, ZoneHandler>, h: ZoneHandler): (r: Option<ZoneInfo>)
    ensures r.None? <==> forall k :: 0 <= k < |zones| ==> !Delivers(registry, zones[k], h)
    ensures r.Some? ==> exists k :: 0 <= k < |zones| && zones[k] == r.value && Delivers(registry, zones[k], h) &&
                                    forall j :: k < j < |zones| ==> !Delivers(registry, zones[j], h)
  {
    if zones == [] then None
    else
      var z := zones[|zones| - 1];
      if Delivers(registry, z, h) then Some(z)
      else
        var init := zones[..|zones| - 1];
        assert forall k :: 0 <= k < |init| ==> init[k] == zones[k];
        LastDelivered(init, registry, h)
  }

  /** A thing's channel and status, as a zone handler holds them. */
  class ZoneHandler {
    /** The zone configuration's uid; None until `initialize` reads the configuration. */
    var config: Option<int>
    var status: ThingStatus
    /** The zone-state channel; None until a zone is delivered. */
    var zoneState: Option<int>

    constructor ()
      ensures config.None? && status == Initializing && zoneState.None?
    {
      config := None;
      status := Initializing;
      zoneState := None;
    }

    /**
     * The handler shows `last` if a zone was delivered, and is as it was
     * otherwise; its configuration is never touched.
     */
    twostate predicate Received(last: Option<ZoneInfo>)
      reads this
    {
      config == old(config) &&
      match last
      case Some(z) => status == Online && zoneState == Some(z.state)
      case None => status == old(status) && zoneState == old(zoneState)
    }

    method UpdateZoneInformation(zone: Option<ZoneInfo>)
      modifies this`status, this`zoneState
      ensures zone.None? ==> status == Offline && zoneState == old(zoneState)
      ensures zone.Some? ==> status == Online && zoneState == Some(zone.value.state)
    {
      if zone.None? {
        status := Offline;
        return;
      }
      status := Online;
      zoneState := Some(zone.value.state);
    }

    /**
     * Registers this handler with the bridge's handler, whatever the bridge's
     * status; with no bridge or no handler nothing happens.
     */
    method BridgeStatusChanged(bridge: BridgeLink) returns (registered: bool, started: bool)
      requires config.Some?
      requires bridge.Handled? ==> bridge.handler.Valid()
      modifies bridge.Frame()
      ensures registered <==> bridge.Handled?
      ensures !registered ==> !started
      ensures registered ==> bridge.handler.Valid() && bridge.handler.Registered(config.value, this, started)
    {
      if !bridge.Handled? {
        return false, false;
      }
      started := bridge.handler.RegisterZoneStatusCallback(config.value, this);
      registered := true;
    }

    method Initialize(uid: int, bridge: BridgeLink) returns (registered: bool, started: bool)
      requires bridge.Handled? ==> bridge.handler.Valid()
      modifies this`config, bridge.Frame()
      ensures config == Some(uid)
      ensures registered <==> bridge.Handled?
      ensures !registered ==> !started
      ensures registered ==> bridge.handler.Valid() && bridge.handler.Registered(uid, this, started)
    {
      config := Some(uid);
      if bridge.NoBridge? {
        return false, false;
      }
      registered, started := BridgeStatusChanged(bridge);
    }
  }

  /** What `getBridge()` yields for a zone: no bridge, a bridge without a handler, or its handler. */
  datatype BridgeLink = NoBridge | WithoutHandler | Handled(handler: BridgeHandler)
  {
    function Frame(): set<object>
    {
      if Handled? then {handler} else {}
    }
  }

  /** The handles a stop cancels: the held one, if it is still live. */
  function Cancelled(job: Option<nat>, live: set<nat>): seq<nat>
  {
    if job.Some? && job.value in live then [job.value] else []
  }

  class BridgeHandler {
    var status: ThingStatus
    var properties: map<string, string>
    /** The last-rain channel; None until a cycle writes it. */
    var lastRain: Option<LastRain>
    var device: Communicator?
    /** The configured refresh period in seconds; None until `initialize` reads the configuration. */
    var refresh: Option<int>
    var zoneHandlers: map<int, ZoneHandler>
    var zonesCache: Option<ZonesInfo>
    var lastZoneUpdate: int
    /** The handle held in `updateJob`, the scheduled jobs not yet cancelled or ended, and the cancellations made. */
    var updateJob: Option<nat>
    var liveJobs: set<nat>
    var jobsScheduled: nat
    var cancellations: seq<nat>

    /** Only the held handle can be live, and it is one that was scheduled. */
    predicate Valid()
      reads this
    {
      (forall j :: j in liveJobs ==> updateJob == Some(j)) &&
      (updateJob.Some? ==> updateJob.value < jobsScheduled)
    }

    constructor ()
      ensures Valid()
      ensures status == Offline && properties == map[] && lastRain.None? && device == null && refresh.None?
      ensures zoneHandlers == map[] && zonesCache.None? && lastZoneUpdate == 0
      ensures updateJob.None? && liveJobs == {} && jobsScheduled == 0 && cancellations == []
    {
      status := Offline;
      properties := map[];
      lastRain := None;
      device := null;
      refresh := None;
      zoneHandlers := map[];
      zonesCache := None;
      lastZoneUpdate := 0;
      updateJob := None;
      liveJobs := {};
      jobsScheduled := 0;
      cancellations := [];
    }

    /** No job is live and no handle is held; the one that was live, if any, was cancelled. */
    twostate predicate Stopped()
      reads this
    {
      updateJob.None? && liveJobs == {} && jobsScheduled == old(jobsScheduled) &&
      cancellations == old(cancellations) + Cancelled(old(updateJob), old(liveJobs))
    }

    /**
     * The previous job was stopped, then a new one was scheduled if the
     * refresh period allows it; `started` is false when scheduling throws
     * (no configuration, or a period that is not positive).
     */
    twostate predicate Restarted(started: bool)
      reads this
    {
      started == (refresh.Some? && refresh.value > 0) &&
      cancellations == old(cancellations) + Cancelled(old(updateJob), old(liveJobs)) &&
      (started ==> updateJob == Some(old(jobsScheduled)) && liveJobs == {old(jobsScheduled)} && jobsScheduled == old(jobsScheduled) + 1) &&
      (!started ==> updateJob.None? && liveJobs == {} && jobsScheduled == old(jobsScheduled))
    }

    /**
     * `zone` now maps to `h`, every other entry is as it was, and the job
     * was restarted; nothing else about the handler changed.
     */
    twostate predicate Registered(zone: int, h: ZoneHandler, started: bool)
      reads this
    {
      zoneHandlers == old(zoneHandlers)[zone := h] && Restarted(started) &&
      status == old(status) && properties == old(properties) && lastRain == old(lastRain) &&
      device == old(device) && refresh == old(refresh) &&
      zonesCache == old(zonesCache) && lastZoneUpdate == old(lastZoneUpdate)
    }

    /** At most one update job is ever live. */
    lemma AtMostOneLiveJob()
      requires Valid()
      ensures |liveJobs| <= 1
    {
      if updateJob.Some? && updateJob.value in liveJobs {
        assert liveJobs == {updateJob.value};
      } else {
        assert liveJobs == {};
      }
    }

    method StopUpdateJob()
      requires Valid()
      modifies this`updateJob, this`liveJobs, this`cancellations
      ensures Valid() && Stopped()
    {
      var job := updateJob;
      if job.Some? && job.value in liveJobs {
        liveJobs := liveJobs - {job.value};
        cancellations := cancellations + [job.value];
      }
      updateJob := None;
    }

    method StartUpdateJob() returns (started: bool)
      requires Valid()
      modifies this`updateJob, this`liveJobs, this`jobsScheduled, this`cancellations
      ensures Valid() && Restarted(started)
    {
      StopUpdateJob();
      if refresh.None? || refresh.value <= 0 {
        return false;
      }
      updateJob := Some(jobsScheduled);
      liveJobs := {jobsScheduled};
      jobsScheduled := jobsScheduled + 1;
      started := true;
    }

    /**
     * `initialize`: a new session (if its HTTP client starts), its versions
     * as properties and ONLINE, or OFFLINE when either step fails; the
     * update job is restarted in every case.
     */
    method Initialize(host: string, password: string, refreshSeconds: int, clientStarts: bool,
                      versions: string -> HttpOutcome<ApiVersion>) returns (started: bool)
      requires Valid()
      modifies this`refresh, this`device, this`properties, this`status
      modifies this`updateJob, this`liveJobs, this`jobsScheduled, this`cancellations
      ensures Valid() && refresh == Some(refreshSeconds) && Restarted(started)
      ensures !clientStarts ==> device == old(device) && status == Offline && properties == old(properties)
      ensures clientStarts ==>
                device != null && fresh(device) &&
                device.address == NormaliseAddress(host) && device.password == "" && device.accessToken == "" &&
                var url := CommandUrl(device.address, CmdApiVer);
                var v := GetResult(versions(url));
                device.requests == [Get(url, HttpTimeoutSeconds)] &&
                device.interruptReasserted == versions(url).Interrupted? &&
                (v.Ok? ==> status == Online && properties == VersionProperties(old(properties), v.value)) &&
                (v.Err? ==> status == Offline && properties == old(properties))
    {
      refresh := Some(refreshSeconds);
      if !clientStarts {
        status := Offline;
      } else {
        var session := new Communicator.WithPassword(host, password);
        device := session;
        var v := session.GetVersions(versions);
        if v.Ok? {
          properties := VersionProperties(properties, v.value);
          status := Online;
        } else {
          status := Offline;
        }
      }
      started := StartUpdateJob();
    }

    method Dispose()
      requires Valid()
      modifies this`updateJob, this`liveJobs, this`cancellations
      ensures Valid() && Stopped()
    {
      StopUpdateJob();
    }

    method RegisterZoneStatusCallback(zone: int, h: ZoneHandler) returns (started: bool)
      requires Valid()
      modifies this`zoneHandlers, this`updateJob, this`liveJobs, this`jobsScheduled, this`cancellations
      ensures Valid() && Registered(zone, h, started)
    {
      zoneHandlers := zoneHandlers[zone := h];
      started := StartUpdateJob();
    }

    /** Hands each zone, in order, to the handler registered for its uid. */
    method DispatchZones(zones: seq<ZoneInfo>)
      modifies zoneHandlers.Values
      ensures forall h :: h in zoneHandlers.Values ==> h.Received(LastDelivered(zones, zoneHandlers, h))
    {
      for i := 0 to |zones|
        invariant forall h :: h in zoneHandlers.Values ==> h.Received(LastDelivered(zones[..i], zoneHandlers, h))
      {
        var z := zones[i];
        if z.uid in zoneHandlers {
          zoneHandlers[z.uid].UpdateZoneInformation(Some(z));
        }
        assert zones[..i + 1][..i] == zones[..i];
      }
      assert zones[..|zones|] == zones;
    }

    /** The handler's state after a cycle, or a stage `f` of one, ran over `session`, apart from its status. */
    twostate predicate Applied(session: Communicator, registry: map<int, ZoneHandler>, f: Fetch)
      reads this, session, registry.Values
    {
      properties == (if f.uptime.Some? then SetProperty(old(properties), PropertyUptime, f.uptime.value) else old(properties)) &&
      lastRain == (if f.lastRain.Some? then f.lastRain else old(lastRain)) &&
      zonesCache == f.zonesCache && lastZoneUpdate == f.lastZoneUpdate &&
      session.Advanced(f.token, f.sent, f.interrupted) &&
      forall h :: h in registry.Values ==> h.Received(LastDelivered(f.delivered, registry, h))
    }

    /**
     * One `updateBridge` run: without a session it throws before doing
     * anything; otherwise it applies `Cycle` and ends ONLINE.
     */
    twostate predicate Polled(now: int, fetchedAt: int, net: CycleNetwork)
      reads this, device, zoneHandlers.Values
    {
      device == old(device) && zoneHandlers == old(zoneHandlers) &&
      if device == null then
        status == old(status) && properties == old(properties) && lastRain == old(lastRain) &&
        zonesCache == old(zonesCache) && lastZoneUpdate == old(lastZoneUpdate) &&
        forall h :: h in zoneHandlers.Values ==> h.Received(None)
      else
        status == Online &&
        Applied(device, zoneHandlers, Cycle(old(device.accessToken), device.password, device.address, old(zonesCache), old(lastZoneUpdate),
                                            now, fetchedAt, net))
    }

    method UpdateBridge(now: int, fetchedAt: int, net: CycleNetwork) returns (completed: bool)
      modifies this`status, this`properties, this`lastRain, this`zonesCache, this`lastZoneUpdate
      modifies device, zoneHandlers.Values
      ensures completed <==> device != null
      ensures Polled(now, fetchedAt, net)
    {
      if device == null {
        return false;
      }
      completed := true;
      PollSession(device, now, fetchedAt, net);
    }

    /** `updateBridge` over an existing session: the diagnostics stage, then the device-information stage. */
    method PollSession(session: Communicator, now: int, fetchedAt: int, net: CycleNetwork)
      modifies this`status, this`properties, this`lastRain, this`zonesCache, this`lastZoneUpdate
      modifies session, zoneHandlers.Values
      ensures status == Online
      ensures Applied(session, zoneHandlers, Cycle(old(session.accessToken), session.password, session.address,
                                                  old(zonesCache), old(lastZoneUpdate), now, fetchedAt, net))
    {
      ghost var e := AuthenticatedExchange(session.accessToken, session.password, session.address, CmdDiagnostics, EmptyDiagnostics,
                                           net.diagLogin, net.diagnostics);
      ghost var f := Cycle(session.accessToken, session.password, session.address, zonesCache, lastZoneUpdate, now, fetchedAt, net);
      var diagnostics := session.GetDiagnostics(net.diagLogin, net.diagnostics);
      if diagnostics.Ok? {
        ghost var rest := InfoStage(session.accessToken, session.password, session.address, zonesCache, lastZoneUpdate, now, fetchedAt, net);
        assert f == Preceded(rest, e.sent, e.interrupted).(uptime := Some(diagnostics.value.uptime));
        properties := SetProperty(properties, PropertyUptime, diagnostics.value.uptime);
        PollDeviceInfo(session, now, fetchedAt, net);
        AppendAssociates(old(session.requests), e.sent, rest.sent);
      } else {
        assert f == Halted(zonesCache, lastZoneUpdate, e);
      }
      status := Online;
    }

    /** The device-information stage of `updateBridge`: the last-rain channel, then the zone stage. */
    method PollDeviceInfo(session: Communicator, now: int, fetchedAt: int, net: CycleNetwork)
      modifies this`lastRain, this`zonesCache, this`lastZoneUpdate, session, zoneHandlers.Values
      ensures Applied(session, zoneHandlers, InfoStage(old(session.accessToken), session.password, session.address,
                                                      old(zonesCache), old(lastZoneUpdate), now, fetchedAt, net))
    {
      ghost var e := AuthenticatedExchange(session.accessToken, session.password, session.address, CmdProvision, EmptyDeviceInfo,
                                           net.infoLogin, net.deviceInfo);
      var info := session.GetDeviceInfo(net.infoLogin, net.deviceInfo);
      if info.Ok? {
        ghost var rest := ZoneStage(session.accessToken, session.password, session.address, zonesCache, lastZoneUpdate, now, fetchedAt, net);
        lastRain := Some(LastRainOf(info.value));
        RefreshAndDispatch(session, now, fetchedAt, net);
        AppendAssociates(old(session.requests), e.sent, rest.sent);
      }
    }

    /** The zone stage of `updateBridge`: refresh the snapshot if it is stale, then hand its zones out. */
    method RefreshAndDispatch(session: Communicator, now: int, fetchedAt: int, net: CycleNetwork)
      modifies this`zonesCache, this`lastZoneUpdate, session, zoneHandlers.Values
      ensures Applied(session, zoneHandlers, ZoneStage(old(session.accessToken), session.password, session.address,
                                                      old(zonesCache), old(lastZoneUpdate), now, fetchedAt, net))
    {
      if zonesCache.None? || now - lastZoneUpdate > MaximumRefreshPeriod {
        var zones := session.GetZones(net.zonesLogin, net.zones);
        if zones.Err? {
          return;
        }
        zonesCache := Some(zones.value);
        lastZoneUpdate := fetchedAt;
      }
      DispatchZones(zonesCache.value.zones);
    }

    /**
     * One run of the held update job by the scheduler. A run that throws
     * ends the job: it is no longer live, so a later stop cancels nothing.
     */
    method RunUpdateJob(now: int, fetchedAt: int, net: CycleNetwork) returns (completed: bool)
      requires Valid() && updateJob.Some? && updateJob.value in liveJobs
      modifies this`status, this`properties, this`lastRain, this`zonesCache, this`lastZoneUpdate, this`liveJobs
      modifies device, zoneHandlers.Values
      ensures Valid() && Polled(now, fetchedAt, net)
      ensures completed <==> device != null
      ensures liveJobs == if completed then old(liveJobs) else {}
    {
      completed := UpdateBridge(now, fetchedAt, net);
      if !completed {
        liveJobs := {};
      }
    }
  }
}

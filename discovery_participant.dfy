/**
 * The mDNS discovery participant: which advertised services become bridge
 * entries, what those entries carry, and the cache of the host address last
 * seen for each serial number.
 */
module MdnsDiscovery {
  import opened Common
  import opened JavaText

  const RainMachineMdnsId := "rainmachine"
  const DiscoveryId := "id"
  /** Both configuration keys are `id`: the address written second replaces the serial. */
  const ConfigId := "id"
  const ConfigAddress := "id"
  /** The service type the participant asks for, written without the root label's trailing dot. */
  const ServiceType := "_hap._tcp.local"
  const BridgeThingType := "rainmachine_bridge"

  /**
   * An advertised service: its instance name, its type, its IPv4 addresses
   * as text (an entry may be null) and its TXT properties.
   */
  datatype ServiceInfo = ServiceInfo(
    name: string,
    serviceType: string,
    inet4Addresses: seq<Option<string>>,
    properties: map<string, string>)

  /** `getPropertyString`: None when the TXT record has no such key. */
  function PropertyString(info: ServiceInfo, key: string): (r: Option<string>)
    ensures r.Some? <==> key in info.properties
    ensures r.Some? ==> r.value == info.properties[key]
  {
    if key in info.properties then Some(info.properties[key]) else None
  }

  /** The service lists an address and the first one is not null. */
  predicate HasAddress(info: ServiceInfo)
  {
    |info.inet4Addresses| > 0 && info.inet4Addresses[0].Some?
  }

  /** A thing identifier: its type and its id segment (None for a null id). */
  datatype ThingUid = ThingUid(thingType: string, id: Option<string>)

  /**
   * `getThingUID`: a bridge id for a service whose name mentions the
   * product, which has a first address, and whose type is exactly
   * `ServiceType`; the id is the service's serial number.
   */
  function GetThingUid(info: ServiceInfo): (r: Option<ThingUid>)
    ensures r.Some? <==> Contains(info.name, RainMachineMdnsId) && HasAddress(info) && info.serviceType == ServiceType
    ensures r.Some? ==> r.value == ThingUid(BridgeThingType, PropertyString(info, DiscoveryId))
  {
    if !Contains(info.name, RainMachineMdnsId) then None
    else if !HasAddress(info) then None
    else if ServiceType == info.serviceType then Some(ThingUid(BridgeThingType, PropertyString(info, DiscoveryId)))
    else None
  }

  /** The service is turned into an inbox entry. */
  predicate Accepted(info: ServiceInfo)
  {
    GetThingUid(info).Some? && PropertyString(info, DiscoveryId).Some?
  }

  /** An inbox entry produced from mDNS. */
  datatype MdnsResult = MdnsResult(uid: ThingUid, properties: map<string, string>, representationProperty: string, caption: string)

  /**
   * `createResult`: an entry for an accepted service, carrying the host
   * address under the configuration key and labelled with the serial number.
   */
  function ResultFor(info: ServiceInfo): (r: Option<MdnsResult>)
    ensures r.Some? <==> Accepted(info)
    ensures r.Some? ==>
              var serial := info.properties[DiscoveryId];
              r.value.uid == ThingUid(BridgeThingType, Some(serial)) &&
              r.value.properties == map[ConfigId := info.inet4Addresses[0].value] &&
              r.value.representationProperty == ConfigId &&
              r.value.caption == "RainMachine " + serial
  {
    if !Contains(info.name, RainMachineMdnsId) then None
    else if !HasAddress(info) then None
    else
      match GetThingUid(info)
      case None => None
      case Some(uid) =>
        match PropertyString(info, DiscoveryId)
        case None => None
        case Some(serial) =>
          var host := info.inet4Addresses[0].value;
          var properties := map[ConfigId := serial];
          var properties' := properties[ConfigAddress := host];
          Some(MdnsResult(uid, properties', ConfigId, "RainMachine " + serial))
  }

  /** The address cache after `info` was seen: accepted services record their first address under their serial. */
  function Remember(cache: map<string, string>, info: ServiceInfo): (r: map<string, string>)
    ensures Accepted(info) ==> r == cache[info.properties[DiscoveryId] := info.inet4Addresses[0].value]
    ensures !Accepted(info) ==> r == cache
  {
    if Accepted(info) then cache[info.properties[DiscoveryId] := info.inet4Addresses[0].value] else cache
  }

  /** `getLastKnownHostAddress` on a cache: the empty string for an unknown serial. */
  function LookUp(cache: map<string, string>, serial: string): string
  {
    if serial in cache then cache[serial] else ""
  }

  /** After an accepted service, its serial resolves to its address and every other serial is unaffected. */
  lemma LookUpAfterRemember(cache: map<string, string>, info: ServiceInfo, serial: string)
    ensures Accepted(info) && serial == info.properties[DiscoveryId] ==>
              LookUp(Remember(cache, info), serial) == info.inet4Addresses[0].value
    ensures !(Accepted(info) && serial == info.properties[DiscoveryId]) ==>
              LookUp(Remember(cache, info), serial) == LookUp(cache, serial)
  {
  }

  /**
   * The entry's configuration carries the host address and not the serial:
   * the two keys coincide, so the serial survives only as the label and the uid.
   */
  lemma EntryHoldsOnlyTheAddress(info: ServiceInfo)
    requires Accepted(info)
    ensures ResultFor(info).value.properties.Keys == {ConfigId}
    ensures ResultFor(info).value.properties[ConfigId] == info.inet4Addresses[0].value
  {
  }

  /** A service whose type carries the trailing root dot is not a match. */
  lemma TrailingDotTypeRejected(info: ServiceInfo)
    requires info.serviceType == ServiceType + "."
    ensures ResultFor(info).None?
  {
    assert |info.serviceType| != |ServiceType|;
  }

  /** Services whose name does not mention the product are ignored. */
  lemma ForeignServiceIgnored(info: ServiceInfo)
    requires !Contains(info.name, RainMachineMdnsId)
    ensures ResultFor(info).None? && GetThingUid(info).None?
  {
  }


  /** The participant, with the one piece of state it updates. */
  class DiscoveryParticipant {
    var lastKnownHostAddresses: map<string, string>

    constructor ()
      ensures lastKnownHostAddresses == map[]
    {
      lastKnownHostAddresses := map[];
    }

    method CreateResult(info: ServiceInfo) returns (r: Option<MdnsResult>)
      modifies this
      ensures r == ResultFor(info)
      ensures lastKnownHostAddresses == Remember(old(lastKnownHostAddresses), info)
    {
      if !Contains(info.name, RainMachineMdnsId) {
        return None;
      }
      if !HasAddress(info) {
        return None;
      }
      var uid := GetThingUid(info);
      if uid.None? {
        return None;
      }
      var serial := PropertyString(info, DiscoveryId);
      if serial.None? {
        return None;
      }
      var host := info.inet4Addresses[0].value;
      lastKnownHostAddresses := lastKnownHostAddresses[serial.value := host];
      var properties := map[ConfigId := serial.value];
      properties := properties[ConfigAddress := host];
      return Some(MdnsResult(uid.value, properties, ConfigId, "RainMachine " + serial.value));
    }

    function GetLastKnownHostAddress(serial: string): (r: string)
      reads this
      ensures serial in lastKnownHostAddresses ==> r == lastKnownHostAddresses[serial]
      ensures serial !in lastKnownHostAddresses ==> r == ""
    {
      LookUp(lastKnownHostAddresses, serial)
    }
  }
}

/**
 * The UDP broadcast discovery: collecting the controllers' replies, then,
 * for each, asking the controller for its hardware version and announcing
 * one bridge and its zones.
 */
module DiscoveryService {
  import opened Common
  import opened JavaText
  import opened ApiTypes
  import opened ApiClient
  import opened DiscoveryReply

  type Byte = b: int | 0 <= b < 256

  /** The size of the buffer each reply is received into. */
  const ReceiveBufferSize := 15000

  /** The byte array a reply lands in: the datagram, cut to the buffer's size, then zeros. */
  function ReceiveBuffer(payload: seq<Byte>): (r: seq<Byte>)
    ensures |r| == ReceiveBufferSize
    ensures forall k :: 0 <= k < |payload| && k < ReceiveBufferSize ==> r[k] == payload[k]
    ensures forall k :: |payload| <= k < ReceiveBufferSize ==> r[k] == 0
  {
    seq(ReceiveBufferSize, k requires 0 <= k < ReceiveBufferSize => if k < |payload| then payload[k] else 0)
  }

  /** One byte decoded as UTF-8: ASCII as itself, anything else as the replacement character. */
  function DecodeByte(b: Byte): char
  {
    if b < 128 then b as char else '\U{FFFD}'
  }

  /** `new String(bytes, "UTF-8")`, one byte at a time: ASCII bytes keep their character. */
  function Decode(bs: seq<Byte>): (r: string)
    ensures |r| == |bs|
    ensures forall k :: 0 <= k < |bs| && bs[k] < 128 ==> r[k] == bs[k] as char
    ensures forall k :: 0 <= k < |bs| && bs[k] >= 128 ==> r[k] == '\U{FFFD}'
  {
    seq(|bs|, k requires 0 <= k < |bs| => DecodeByte(bs[k]))
  }

  /** The text handed to the reply parser: the whole buffer decoded, then trimmed. */
  function Message(payload: seq<Byte>): (r: string)
    ensures |r| <= ReceiveBufferSize
    ensures r == [] || (!IsTrimmable(r[0]) && !IsTrimmable(r[|r| - 1]))
  {
    Trim(Decode(ReceiveBuffer(payload)))
  }

  /**
   * The zeros after the datagram never reach the parser: the message is the
   * trimmed text of the datagram itself, cut to the buffer's size.
   */
  lemma MessageIsTrimmedDatagram(payload: seq<Byte>)
    ensures var kept := if |payload| <= ReceiveBufferSize then payload else payload[..ReceiveBufferSize];
            Message(payload) == Trim(Decode(kept))
  {
    var kept := if |payload| <= ReceiveBufferSize then payload else payload[..ReceiveBufferSize];
    var text := Decode(ReceiveBuffer(payload));
    var pad := text[|kept|..];
    assert text == Decode(kept) + pad;
    forall k | 0 <= k < |pad| ensures IsTrimmable(pad[k]) {
      assert pad[k] == DecodeByte(0);
    }
    TrimIgnoresPadding(Decode(kept), pad);
  }

  /** What one `receive` on the socket produced. */
  datatype ReceiveEvent =
    | Packet(payload: seq<Byte>)
    | ReceiveTimeout
    | IOError

  /** The parsed replies gathered so far, or the exception that ended the broadcast. */
  type Replies = Result<seq<DiscoveryData>, ParseError>

  /** How one datagram is turned into a reply (or the exception doing so throws). */
  type Reader = seq<Byte> -> Result<DiscoveryData, ParseError>

  /** The broadcast's reader: the reply constructor applied to the decoded, trimmed buffer. */
  function ReadReply(payload: seq<Byte>): (r: Result<DiscoveryData, ParseError>)
    ensures r.Ok? ==> Contains(Message(payload), Delimiter)
  {
    Parse(Message(payload))
  }

  /**
   * A datagram of blanks and zeros (an empty one included) trims to the
   * empty text, whose split has one piece: reading it throws.
   */
  lemma BlankDatagramIsMalformed(payload: seq<Byte>)
    requires forall k :: 0 <= k < |payload| ==> payload[k] <= 32
    ensures ReadReply(payload) == Err(MissingField(1))
  {
    var text := Decode(ReceiveBuffer(payload));
    forall k | 0 <= k < |text| ensures IsTrimmable(text[k]) {
      assert ReceiveBuffer(payload)[k] <= 32;
    }
    assert Message(payload) == [];
    assert IndexOf([], Delimiter).None?;
  }

  function PrependAll(ds: seq<DiscoveryData>, r: Replies): (p: Replies)
    ensures r.Err? ==> p == r
    ensures r.Ok? ==> p == Ok(ds + r.value)
  {
    match r
    case Ok(rest) => Ok(ds + rest)
    case Err(e) => Err(e)
  }

  /** One received reply added in front of what the rest of the broadcast collects. */
  function Step(reply: Result<DiscoveryData, ParseError>, rest: Replies): (r: Replies)
    ensures reply.Err? ==> r == Err(reply.error)
    ensures reply.Ok? && !reply.value.IsValid() ==> r == rest
    ensures reply.Ok? && reply.value.IsValid() ==> r == PrependAll([reply.value], rest)
  {
    match reply
    case Err(e) => Err(e)
    case Ok(d) => if d.IsValid() then PrependAll([d], rest) else rest
  }

  /**
   * `updBroadcast`: the valid replies received before the first timeout or
   * I/O error (running out of events counts as a timeout); a reply with
   * fewer than four fields throws out of the loop and loses them all.
   */
  function Collect(events: seq<ReceiveEvent>, read: Reader): (r: Replies)
    ensures r.Ok? ==> forall k :: 0 <= k < |r.value| ==> r.value[k].IsValid()
    decreases |events|
  {
    if events == [] then Ok([])
    else
      match events[0]
      case ReceiveTimeout => Ok([])
      case IOError => Ok([])
      case Packet(p) => Step(read(p), Collect(events[1..], read))
  }

  /** The events of receiving each of `received` in turn. */
  function Packets(received: seq<seq<Byte>>): (r: seq<ReceiveEvent>)
    ensures |r| == |received|
    ensures forall k :: 0 <= k < |r| ==> r[k] == Packet(received[k])
  {
    seq(|received|, k requires 0 <= k < |received| => Packet(received[k]))
  }

  /** Nothing received after the first timeout or I/O error is looked at. */
  lemma {:induction false} CollectStopsAtFirstSilence(received: seq<seq<Byte>>, stop: ReceiveEvent, later: seq<ReceiveEvent>, read: Reader)
    requires !stop.Packet?
    ensures Collect(Packets(received) + [stop] + later, read) == Collect(Packets(received), read)
    decreases |received|
  {
    if received == [] {
      assert Packets(received) + [stop] + later == [stop] + later;
    } else {
      var events := Packets(received) + [stop] + later;
      assert events[0] == Packet(received[0]);
      assert events[1..] == Packets(received[1..]) + [stop] + later;
      assert Packets(received)[1..] == Packets(received[1..]);
      CollectStopsAtFirstSilence(received[1..], stop, later, read);
    }
  }

  /** A reply that is not a RainMachine's is dropped and does not disturb the others. */
  lemma ForeignReplySkipped(p: seq<Byte>, events: seq<ReceiveEvent>, read: Reader)
    requires read(p).Ok? && !read(p).value.IsValid()
    ensures Collect([Packet(p)] + events, read) == Collect(events, read)
  {
    assert ([Packet(p)] + events)[1..] == events;
  }

  /** A RainMachine's reply is kept, in front of what the later datagrams collect. */
  lemma ValidReplyKept(p: seq<Byte>, events: seq<ReceiveEvent>, read: Reader)
    requires read(p).Ok? && read(p).value.IsValid()
    ensures Collect([Packet(p)] + events, read) == PrependAll([read(p).value], Collect(events, read))
  {
    assert ([Packet(p)] + events)[1..] == events;
  }

  /** The RainMachine replies among `received`, in arrival order, when every datagram parses. */
  function ValidReplies(received: seq<seq<Byte>>, read: Reader): (r: seq<DiscoveryData>)
    requires forall k :: 0 <= k < |received| ==> read(received[k]).Ok?
    ensures |r| <= |received|
    ensures forall k :: 0 <= k < |r| ==> r[k].IsValid()
    ensures forall k :: 0 <= k < |received| && read(received[k]).value.IsValid() ==> read(received[k]).value in r
    decreases |received|
  {
    if received == [] then []
    else
      var d := read(received[0]).value;
      var rest := ValidReplies(received[1..], read);
      assert forall k :: 1 <= k < |received| ==> received[k] == received[1..][k - 1];
      (if d.IsValid() then [d] else []) + rest
  }

  /** When every datagram parses, the broadcast collects exactly the valid replies, in arrival order. */
  lemma {:induction false} CollectKeepsValidReplies(received: seq<seq<Byte>>, read: Reader)
    requires forall k :: 0 <= k < |received| ==> read(received[k]).Ok?
    ensures Collect(Packets(received), read) == Ok(ValidReplies(received, read))
    decreases |received|
  {
    if received == [] {
      assert Packets(received) == [];
    } else {
      var events := Packets(received);
      assert events[0] == Packet(received[0]);
      assert events[1..] == Packets(received[1..]);
      CollectKeepsValidReplies(received[1..], read);
      assert Collect(events, read) == Step(read(received[0]), Collect(events[1..], read));
      var d := read(received[0]).value;
      var rest := ValidReplies(received[1..], read);
      assert ValidReplies(received, read) == (if d.IsValid() then [d] else []) + rest;
      if !d.IsValid() {
        assert [] + rest == rest;
      }
    }
  }

  /** A reply that cannot be parsed discards every reply received before it. */
  lemma MalformedReplyLosesEarlierOnes(received: seq<seq<Byte>>, p: seq<Byte>, later: seq<ReceiveEvent>, read: Reader)
    requires read(p).Err?
    requires forall k :: 0 <= k < |received| ==> read(received[k]).Ok?
    ensures Collect(Packets(received) + [Packet(p)] + later, read) == Err(read(p).error)
    decreases |received|
  {
    if received == [] {
      assert Packets(received) + [Packet(p)] + later == [Packet(p)] + later;
      assert ([Packet(p)] + later)[1..] == later;
    } else {
      var events := Packets(received) + [Packet(p)] + later;
      assert events[0] == Packet(received[0]);
      assert events[1..] == Packets(received[1..]) + [Packet(p)] + later;
      MalformedReplyLosesEarlierOnes(received[1..], p, later, read);
    }
  }

  /** The receive loop of `updBroadcast`, reading each datagram with `read`. */
  method CollectReplies(events: seq<ReceiveEvent>, read: Reader) returns (r: Replies)
    ensures r == Collect(events, read)
  {
    var collected: seq<DiscoveryData> := [];
    var i := 0;
    assert events[0..] == events;
    assert Collect(events, read).Ok? ==> [] + Collect(events, read).value == Collect(events, read).value;
    while true
      invariant 0 <= i <= |events|
      invariant Collect(events, read) == PrependAll(collected, Collect(events[i..], read))
      decreases |events| - i
    {
      assert collected + [] == collected;
      if i == |events| {
        return Ok(collected);
      }
      assert events[i..][1..] == events[i + 1..];
      match events[i] {
        case ReceiveTimeout =>
          return Ok(collected);
        case IOError =>
          return Ok(collected);
        case Packet(p) =>
          var reply := read(p);
          if reply.Err? {
            return Err(reply.error);
          }
          if reply.value.IsValid() {
            PrependAllAssociates(collected, reply.value, Collect(events[i + 1..], read));
            collected := collected + [reply.value];
          }
          i := i + 1;
      }
    }
  }

  lemma PrependAllAssociates(ds: seq<DiscoveryData>, d: DiscoveryData, r: Replies)
    ensures PrependAll(ds, PrependAll([d], r)) == PrependAll(ds + [d], r)
  {
    if r.Ok? {
      assert ds + ([d] + r.value) == ds + [d] + r.value;
    }
  }

  // ---------------------------------------------------------------------
  // Announcing what was found

  /** The characters a thing id segment keeps: `[A-Za-z0-9_-]`. */
  predicate IsIdChar(c: char)
  {
    'A' <= c <= 'Z' || 'a' <= c <= 'z' || '0' <= c <= '9' || c == '-' || c == '_'
  }

  /** `replaceAll("[^A-Za-z0-9\\-_]", "")`: the id characters of `s`, in order. */
  function StripNonIdChars(s: string): (r: string)
    ensures |r| <= |s|
    ensures forall k :: 0 <= k < |r| ==> IsIdChar(r[k])
    ensures forall c :: c in s && IsIdChar(c) ==> c in r
    ensures (forall k :: 0 <= k < |s| ==> IsIdChar(s[k])) ==> r == s
  {
    if s == [] then []
    else
      var rest := StripNonIdChars(s[1..]);
      assert forall c :: c in s ==> c == s[0] || c in s[1..];
      if IsIdChar(s[0]) then [s[0]] + rest else rest
  }

  /** The bridge's thing id: its MAC address with the separators removed, in lower case. */
  function BridgeId(mac: string): (r: string)
    ensures |r| <= |mac|
    ensures forall k :: 0 <= k < |r| ==> IsIdChar(r[k]) && !('A' <= r[k] <= 'Z')
  {
    ToLowerCase(StripNonIdChars(mac))
  }

  /** Deriving the id of an id changes nothing. */
  lemma BridgeIdIdempotent(mac: string)
    ensures BridgeId(BridgeId(mac)) == BridgeId(mac)
  {
    var id := BridgeId(mac);
    assert StripNonIdChars(id) == id;
    var again := ToLowerCase(id);
    assert forall k :: 0 <= k < |id| ==> again[k] == id[k];
  }

  /** Removing the non-id characters works piece by piece. */
  lemma {:induction false} StripNonIdCharsAppend(a: string, b: string)
    ensures StripNonIdChars(a + b) == StripNonIdChars(a) + StripNonIdChars(b)
    decreases |a|
  {
    if a != [] {
      assert (a + b)[0] == a[0];
      assert (a + b)[1..] == a[1..] + b;
      StripNonIdCharsAppend(a[1..], b);
      var x, y := StripNonIdChars(a[1..]), StripNonIdChars(b);
      if IsIdChar(a[0]) {
        assert StripNonIdChars(a + b) == [a[0]] + (x + y);
        assert [a[0]] + (x + y) == ([a[0]] + x) + y;
      } else {
        assert StripNonIdChars(a + b) == x + y;
      }
    } else {
      assert a + b == b;
    }
  }

  /** A separator in a MAC address (`:` or `.`) leaves no trace in the bridge id. */
  lemma SeparatorDropped(before: string, separator: char, after: string)
    requires !IsIdChar(separator)
    ensures StripNonIdChars(before + [separator] + after) == StripNonIdChars(before) + StripNonIdChars(after)
  {
    StripNonIdCharsAppend(before + [separator], after);
    StripNonIdCharsAppend(before, [separator]);
    assert StripNonIdChars([separator]) == [];
    assert StripNonIdChars(before) + [] == StripNonIdChars(before);
  }

  /** The model name and zone count for a hardware version code. */
  function HardwareModel(code: int): (r: (string, nat))
    ensures r.1 == 8 <==> code == 1 || code == 2
    ensures r.1 != 8 ==> r.1 == 16
    ensures r.0 == "" <==> code != 1 && code != 2 && code != 3 && code != 5
  {
    if code == 1 then ("Touch", 8)
    else if code == 2 then ("Mini-8", 8)
    else if code == 3 then ("HD-12/16", 16)
    else if code == 5 then ("Pro-8/16", 16)
    else ("", 16)
  }

  /** Why a scan stopped early: an exception that is not a RainMachineException. */
  datatype ScanAbort =
    | MalformedReply(error: ParseError)
    | NotANumber(hwVer: Option<string>)

  /**
   * The model and zone count a scan assumes for a controller: the defaults
   * when the version request fails, the hardware table when `hwVer` is a
   * number, and an abort (the uncaught NumberFormatException) when it is not.
   */
  function Classify(version: Result<ApiVersion, CommError>): (r: Result<(string, nat), ScanAbort>)
    ensures version.Err? ==> r == Ok(("", 16))
    ensures version.Ok? ==> (r.Err? <==> ParseInt(version.value.hwVer).None?)
    ensures r.Err? ==> r.error == NotANumber(version.value.hwVer)
    ensures r.Ok? ==> r.value.1 == 8 || r.value.1 == 16
  {
    match version
    case Err(_) => Ok(("", 16))
    case Ok(v) =>
      match ParseInt(v.hwVer)
      case None => Err(NotANumber(v.hwVer))
      case Some(code) => Ok(HardwareModel(code))
  }

  /** An inbox entry. Zone entries hang under the bridge whose id they carry. */
  datatype DiscoveryResult =
    | BridgeResult(thingId: string, thingLabel: string, host: string, mac: string, name: string)
    | ZoneResult(bridgeId: string, thingId: string, thingLabel: string, uid: int)

  /** The entry for zone number `zone`; its `uid` property is one more than the zone number. */
  function ZoneRecord(bridgeId: string, caption: string, zone: nat): (r: DiscoveryResult)
    ensures r.ZoneResult? && r.bridgeId == bridgeId && r.uid == zone + 1
  {
    ZoneResult(bridgeId, "zone" + NatToString(zone), caption + " (Zone " + NatToString(zone) + ")", zone + 1)
  }

  /** A zone's thing id is `zone` followed by the zone number's decimal digits. */
  lemma ZoneThingId(bridgeId: string, caption: string, zone: nat)
    ensures var id := ZoneRecord(bridgeId, caption, zone).thingId;
            |id| > 4 && id[..4] == "zone" && AllDigits(id[4..]) && DigitsValue(id[4..]) == zone
  {
    DigitsValueOfNatToString(zone);
    var id := ZoneRecord(bridgeId, caption, zone).thingId;
    assert id[4..] == NatToString(zone);
  }

  /** The entries for zones 1 to `zones`, in that order. */
  function ZoneRecords(bridgeId: string, caption: string, zones: nat): (r: seq<DiscoveryResult>)
    ensures |r| == zones
    ensures forall k :: 0 <= k < zones ==> r[k] == ZoneRecord(bridgeId, caption, k + 1)
  {
    if zones == 0 then [] else ZoneRecords(bridgeId, caption, zones - 1) + [ZoneRecord(bridgeId, caption, zones)]
  }

  /** The label shared by a controller and its zones. */
  function BridgeLabel(model: string, name: string): (r: string)
    ensures |r| >= 12 + |name| && r[..12] == "RainMachine "
    ensures r[|r| - |name|..] == name
  {
    "RainMachine " + model + ": " + name
  }

  /** Everything announced for one reply: the bridge, then each of its zones under it. */
  function ReplyResults(d: DiscoveryData, model: string, zones: nat): (r: seq<DiscoveryResult>)
    ensures |r| == zones + 1
    ensures r[0] == BridgeResult(BridgeId(d.mac), BridgeLabel(model, d.name), d.address, d.mac, d.name)
    ensures forall k :: 1 <= k < |r| ==> r[k].ZoneResult? && r[k].bridgeId == r[0].thingId && r[k].uid == k + 1
  {
    var bridgeId := BridgeId(d.mac);
    var caption := BridgeLabel(model, d.name);
    [BridgeResult(bridgeId, caption, d.address, d.mac, d.name)] + ZoneRecords(bridgeId, caption, zones)
  }

  /** What a scan put in the inbox, and the exception that cut it short, if any. */
  datatype ScanOutcome = ScanOutcome(emitted: seq<DiscoveryResult>, aborted: Option<ScanAbort>)

  /** `first`, then `rest` unless `first` was cut short. */
  function Then(first: ScanOutcome, rest: ScanOutcome): (r: ScanOutcome)
    ensures first.aborted.Some? ==> r == first
    ensures first.aborted.None? ==> r == ScanOutcome(first.emitted + rest.emitted, rest.aborted)
  {
    if first.aborted.Some? then first else ScanOutcome(first.emitted + rest.emitted, rest.aborted)
  }

  lemma ThenAssociates(a: ScanOutcome, b: ScanOutcome, c: ScanOutcome)
    ensures Then(a, Then(b, c)) == Then(Then(a, b), c)
  {
    if a.aborted.None? && b.aborted.None? {
      assert a.emitted + (b.emitted + c.emitted) == a.emitted + b.emitted + c.emitted;
    }
  }

  /** The URL of a controller's version request. */
  function VersionUrl(d: DiscoveryData): (r: string)
    ensures |r| >= 8 + |CmdApiVer| && r[..8] == "https://" && r[|r| - |CmdApiVer|..] == CmdApiVer
  {
    CommandUrl(NormaliseAddress(d.address), CmdApiVer)
  }

  /** A reply's plain address (an IPv4 address, say) is asked for its version unchanged. */
  lemma PlainAddressQueriedAsIs(d: DiscoveryData)
    requires '/' !in d.address
    ensures VersionUrl(d) == CommandUrl(d.address, CmdApiVer)
  {
    NormaliseKeepsBareHost(d.address);
  }


  /** What one reply of the broadcast leads to, `server` answering its version request. */
  function Announcement(d: DiscoveryData, server: string -> HttpOutcome<ApiVersion>): (r: ScanOutcome)
    ensures !d.IsValid() ==> r == ScanOutcome([], None)
    ensures r.aborted.None? && d.IsValid() ==> |r.emitted| == 9 || |r.emitted| == 17
    ensures r.aborted.Some? ==> r.emitted == []
  {
    if !d.IsValid() then ScanOutcome([], None)
    else
      match Classify(GetResult(server(VersionUrl(d))))
      case Err(a) => ScanOutcome([], Some(a))
      case Ok(mz) => ScanOutcome(ReplyResults(d, mz.0, mz.1), None)
  }

  /** The outcomes of `announce` for each reply in turn, up to the first abort. */
  function AnnounceEach(replies: seq<DiscoveryData>, announce: DiscoveryData -> ScanOutcome): ScanOutcome
    decreases |replies|
  {
    if replies == [] then ScanOutcome([], None)
    else Then(announce(replies[0]), AnnounceEach(replies[1..], announce))
  }

  /** The announcement of a reply, `server` answering its version request. */
  function Announcer(server: string -> HttpOutcome<ApiVersion>): DiscoveryData -> ScanOutcome
  {
    d => Announcement(d, server)
  }

  /** The announcements for each reply in turn, up to the first abort. */
  function ScanReplies(replies: seq<DiscoveryData>, server: string -> HttpOutcome<ApiVersion>): ScanOutcome
  {
    AnnounceEach(replies, Announcer(server))
  }

  /** Announcing one reply at a time adds at most `n` entries per reply. */
  lemma {:induction false} AnnounceEachBound(replies: seq<DiscoveryData>, announce: DiscoveryData -> ScanOutcome, n: nat)
    requires forall k :: 0 <= k < |replies| ==> |announce(replies[k]).emitted| <= n
    ensures |AnnounceEach(replies, announce).emitted| <= n * |replies|
    decreases |replies|
  {
    if replies != [] {
      assert forall k :: 1 <= k < |replies| ==> replies[1..][k - 1] == replies[k];
      AnnounceEachBound(replies[1..], announce, n);
      assert |announce(replies[0]).emitted| <= n;
    }
  }

  /** Each reply adds at most its bridge and sixteen zones. */
  lemma ScanRepliesBound(replies: seq<DiscoveryData>, server: string -> HttpOutcome<ApiVersion>)
    ensures |ScanReplies(replies, server).emitted| <= 17 * |replies|
  {
    forall k | 0 <= k < |replies|
      ensures |Announcer(server)(replies[k]).emitted| <= 17
    {
      var a := Announcement(replies[k], server);
      assert a.aborted.None? && replies[k].IsValid() ==> |a.emitted| == 9 || |a.emitted| == 17;
    }
    AnnounceEachBound(replies, Announcer(server), 17);
  }

  /** Replies whose every announcement is empty announce nothing, and do not abort. */
  lemma {:induction false} SilentRepliesAnnounceNothing(replies: seq<DiscoveryData>, announce: DiscoveryData -> ScanOutcome)
    requires forall k :: 0 <= k < |replies| ==> announce(replies[k]) == ScanOutcome([], None)
    ensures AnnounceEach(replies, announce) == ScanOutcome([], None)
    decreases |replies|
  {
    if replies != [] {
      assert forall k :: 1 <= k < |replies| ==> replies[1..][k - 1] == replies[k];
      SilentRepliesAnnounceNothing(replies[1..], announce);
      assert announce(replies[0]) == ScanOutcome([], None);
    }
  }

  /** Replies that are not a RainMachine's announce nothing and do not abort. */
  lemma ForeignRepliesAnnounceNothing(replies: seq<DiscoveryData>, server: string -> HttpOutcome<ApiVersion>)
    requires forall k :: 0 <= k < |replies| ==> !replies[k].IsValid()
    ensures ScanReplies(replies, server) == ScanOutcome([], None)
  {
    forall k | 0 <= k < |replies|
      ensures Announcer(server)(replies[k]) == ScanOutcome([], None)
    {
      assert !replies[k].IsValid();
    }
    SilentRepliesAnnounceNothing(replies, Announcer(server));
  }

  /** `startScan`: the broadcast, then the announcements. */
  function Scan(events: seq<ReceiveEvent>, server: string -> HttpOutcome<ApiVersion>): (r: ScanOutcome)
    ensures Collect(events, ReadReply).Err? ==> r == ScanOutcome([], Some(MalformedReply(Collect(events, ReadReply).error)))
    ensures Collect(events, ReadReply).Ok? ==> r == ScanReplies(Collect(events, ReadReply).value, server)
  {
    match Collect(events, ReadReply)
    case Err(e) => ScanOutcome([], Some(MalformedReply(e)))
    case Ok(replies) => ScanReplies(replies, server)
  }

  /** Every zone entry is announced after the bridge it hangs under. */
  predicate BridgeBeforeZones(rs: seq<DiscoveryResult>)
  {
    forall k :: 0 <= k < |rs| && rs[k].ZoneResult? ==>
      exists j :: 0 <= j < k && rs[j].BridgeResult? && rs[j].thingId == rs[k].bridgeId
  }

  lemma BridgeBeforeZonesAppend(a: seq<DiscoveryResult>, b: seq<DiscoveryResult>)
    requires BridgeBeforeZones(a) && BridgeBeforeZones(b)
    ensures BridgeBeforeZones(a + b)
  {
    var ab := a + b;
    forall k | 0 <= k < |ab| && ab[k].ZoneResult?
      ensures exists j :: 0 <= j < k && ab[j].BridgeResult? && ab[j].thingId == ab[k].bridgeId
    {
      if k < |a| {
        assert ab[k] == a[k];
        var j :| 0 <= j < k && a[j].BridgeResult? && a[j].thingId == a[k].bridgeId;
        assert ab[j] == a[j];
      } else {
        assert ab[k] == b[k - |a|];
        var j :| 0 <= j < k - |a| && b[j].BridgeResult? && b[j].thingId == b[k - |a|].bridgeId;
        assert ab[j + |a|] == b[j];
      }
    }
  }

  lemma AnnouncementBridgeFirst(d: DiscoveryData, server: string -> HttpOutcome<ApiVersion>)
    ensures BridgeBeforeZones(Announcement(d, server).emitted)
  {
    var rs := Announcement(d, server).emitted;
    forall k | 0 <= k < |rs| && rs[k].ZoneResult?
      ensures exists j :: 0 <= j < k && rs[j].BridgeResult? && rs[j].thingId == rs[k].bridgeId
    {
      assert rs[0].BridgeResult? && rs[0].thingId == rs[k].bridgeId;
    }
  }

  /** If each reply's own entries put bridges first, so do all of them announced in turn. */
  lemma {:induction false} AnnounceEachBridgeFirst(replies: seq<DiscoveryData>, announce: DiscoveryData -> ScanOutcome)
    requires forall k :: 0 <= k < |replies| ==> BridgeBeforeZones(announce(replies[k]).emitted)
    ensures BridgeBeforeZones(AnnounceEach(replies, announce).emitted)
    decreases |replies|
  {
    if replies != [] {
      assert forall k :: 1 <= k < |replies| ==> replies[1..][k - 1] == replies[k];
      AnnounceEachBridgeFirst(replies[1..], announce);
      assert BridgeBeforeZones(announce(replies[0]).emitted);
      var first, rest := announce(replies[0]), AnnounceEach(replies[1..], announce);
      if first.aborted.None? {
        BridgeBeforeZonesAppend(first.emitted, rest.emitted);
      }
    }
  }

  /** A scan never announces a zone before the controller it belongs to. */
  lemma ScanAnnouncesBridgeFirst(replies: seq<DiscoveryData>, server: string -> HttpOutcome<ApiVersion>)
    ensures BridgeBeforeZones(ScanReplies(replies, server).emitted)
  {
    forall k | 0 <= k < |replies|
      ensures BridgeBeforeZones(Announcer(server)(replies[k]).emitted)
    {
      AnnouncementBridgeFirst(replies[k], server);
    }
    AnnounceEachBridgeFirst(replies, Announcer(server));
  }

  /** Announcing a single reply in turn is announcing it. */
  lemma AnnounceOne(d: DiscoveryData, announce: DiscoveryData -> ScanOutcome)
    ensures AnnounceEach([d], announce) == announce(d)
  {
    assert [d][1..] == [];
    var a := announce(d);
    assert a.emitted + [] == a.emitted;
  }

  /** Scanning a single reply is announcing it. */
  lemma OneReplyScan(d: DiscoveryData, server: string -> HttpOutcome<ApiVersion>)
    ensures ScanReplies([d], server) == Announcement(d, server)
  {
    AnnounceOne(d, Announcer(server));
  }

  /** A lone datagram from a RainMachine is announced: the scan is that reply's announcement. */
  lemma ReceivedReplyAnnounced(p: seq<Byte>, server: string -> HttpOutcome<ApiVersion>)
    requires ReadReply(p).Ok? && ReadReply(p).value.IsValid()
    ensures Scan(Packets([p]), server) == Announcement(ReadReply(p).value, server)
  {
    var d := ReadReply(p).value;
    CollectKeepsValidReplies([p], ReadReply);
    assert ValidReplies([p], ReadReply) == [d];
    OneReplyScan(d, server);
  }

  /** A controller that cannot be asked for its version is still announced, as a 16-zone unknown model. */
  lemma UnreachableControllerAnnounced(d: DiscoveryData, server: string -> HttpOutcome<ApiVersion>)
    requires d.IsValid()
    requires !(server(VersionUrl(d)).Response? && server(VersionUrl(d)).status == HttpOk)
    ensures ScanReplies([d], server) == ScanOutcome(ReplyResults(d, "", 16), None)
    ensures |ScanReplies([d], server).emitted| == 17
  {
    OneReplyScan(d, server);
  }

  /** The version text "2" is classified as the eight-zone Mini. */
  lemma MiniClassified(d: DiscoveryData, server: string -> HttpOutcome<ApiVersion>)
    requires d.IsValid()
    requires server(VersionUrl(d)).Response? && server(VersionUrl(d)).status == HttpOk
    requires server(VersionUrl(d)).payload.hwVer == Some("2")
    ensures Announcement(d, server) == ScanOutcome(ReplyResults(d, "Mini-8", 8), None)
  {
    ParseIntOfNatToString(2);
    assert NatToString(2) == "2";
    assert Classify(GetResult(server(VersionUrl(d)))) == Ok(("Mini-8", 8));
  }

  /** A Mini-8 (hardware version 2) is announced with eight zones. */
  lemma MiniAnnouncedWithEightZones(d: DiscoveryData, server: string -> HttpOutcome<ApiVersion>)
    requires d.IsValid()
    requires server(VersionUrl(d)).Response? && server(VersionUrl(d)).status == HttpOk
    requires server(VersionUrl(d)).payload.hwVer == Some("2")
    ensures ScanReplies([d], server) == ScanOutcome(ReplyResults(d, "Mini-8", 8), None)
    ensures ScanReplies([d], server).emitted[0].thingLabel == "RainMachine Mini-8: " + d.name
    ensures |ScanReplies([d], server).emitted| == 9
  {
    MiniClassified(d, server);
    OneReplyScan(d, server);
    assert "RainMachine " + "Mini-8" + ": " == "RainMachine Mini-8: ";
  }

  /** A version reply whose `hwVer` is not a number aborts the announcement of that controller. */
  lemma NonNumericVersionAborts(d: DiscoveryData, server: string -> HttpOutcome<ApiVersion>)
    requires d.IsValid()
    requires server(VersionUrl(d)).Response? && server(VersionUrl(d)).status == HttpOk
    requires ParseInt(server(VersionUrl(d)).payload.hwVer).None?
    ensures Announcement(d, server) == ScanOutcome([], Some(NotANumber(server(VersionUrl(d)).payload.hwVer)))
  {
  }

  /**
   * Once the announcement of one reply aborts (if an earlier one has not
   * already), the replies after it are never announced.
   */
  lemma {:induction false} AbortStopsAnnouncing(replies: seq<DiscoveryData>, announce: DiscoveryData -> ScanOutcome, i: nat, later: seq<DiscoveryData>)
    requires i < |replies| && announce(replies[i]).aborted.Some?
    ensures AnnounceEach(replies + later, announce) == AnnounceEach(replies, announce)
    ensures AnnounceEach(replies, announce).aborted.Some?
    decreases i
  {
    assert (replies + later)[0] == replies[0];
    if i == 0 {
      assert AnnounceEach(replies + later, announce) == announce(replies[0]);
    } else {
      assert replies[1..][i - 1] == replies[i];
      assert (replies + later)[1..] == replies[1..] + later;
      AbortStopsAnnouncing(replies[1..], announce, i - 1, later);
    }
  }

  /** A controller whose version cannot be classified ends the scan: no later reply is announced. */
  lemma AbortStopsScan(replies: seq<DiscoveryData>, server: string -> HttpOutcome<ApiVersion>, i: nat, later: seq<DiscoveryData>)
    requires i < |replies| && Announcement(replies[i], server).aborted.Some?
    ensures ScanReplies(replies + later, server) == ScanReplies(replies, server)
    ensures ScanReplies(replies, server).aborted.Some?
  {
    AbortStopsAnnouncing(replies, Announcer(server), i, later);
  }

  /** One turn of the scan's loop: the reply at `i` is announced after what came before it. */
  lemma ScanStep(ds: seq<DiscoveryData>, server: string -> HttpOutcome<ApiVersion>, i: nat, before: ScanOutcome)
    requires i < |ds|
    ensures Then(before, ScanReplies(ds[i..], server))
         == Then(Then(before, Announcement(ds[i], server)), ScanReplies(ds[i + 1..], server))
  {
    assert ds[i..][1..] == ds[i + 1..];
    assert ds[i..][0] == ds[i];
    ThenAssociates(before, Announcement(ds[i], server), ScanReplies(ds[i + 1..], server));
  }

  /** The body of the scan's loop for one reply: ask for the version, then announce. */
  method Announce(d: DiscoveryData, server: string -> HttpOutcome<ApiVersion>) returns (o: ScanOutcome)
    ensures o == Announcement(d, server)
  {
    if !d.IsValid() {
      return ScanOutcome([], None);
    }
    var communicator := new Communicator(d.address);
    var version := communicator.GetVersions(server);
    var model, zones := "", 16;
    if version.Ok? {
      var code := ParseInt(version.value.hwVer);
      if code.None? {
        return ScanOutcome([], Some(NotANumber(version.value.hwVer)));
      }
      model, zones := HardwareModel(code.value).0, HardwareModel(code.value).1;
    }
    var bridgeId := BridgeId(d.mac);
    var caption := BridgeLabel(model, d.name);
    var zoneResults := AnnounceZones(bridgeId, caption, zones);
    return ScanOutcome([BridgeResult(bridgeId, caption, d.address, d.mac, d.name)] + zoneResults, None);
  }

  /** The scan's inner loop: the entries for zones 1 to `zones`, announced in turn. */
  method AnnounceZones(bridgeId: string, caption: string, zones: nat) returns (emitted: seq<DiscoveryResult>)
    ensures emitted == ZoneRecords(bridgeId, caption, zones)
  {
    emitted := [];
    for zone := 1 to zones + 1
      invariant emitted == ZoneRecords(bridgeId, caption, zone - 1)
    {
      emitted := emitted + [ZoneRecord(bridgeId, caption, zone)];
    }
  }

  /** `startScan`: the broadcast, then the announcement of each reply. */
  method StartScan(events: seq<ReceiveEvent>, server: string -> HttpOutcome<ApiVersion>)
    returns (emitted: seq<DiscoveryResult>, aborted: Option<ScanAbort>)
    ensures ScanOutcome(emitted, aborted) == Scan(events, server)
    ensures BridgeBeforeZones(emitted)
  {
    var replies := CollectReplies(events, ReadReply);
    if replies.Err? {
      return [], Some(MalformedReply(replies.error));
    }
    ScanAnnouncesBridgeFirst(replies.value, server);
    emitted, aborted := AnnounceReplies(replies.value, server);
  }

  /** The scan's outer loop: each reply announced in turn, up to the first abort. */
  method AnnounceReplies(ds: seq<DiscoveryData>, server: string -> HttpOutcome<ApiVersion>)
    returns (emitted: seq<DiscoveryResult>, aborted: Option<ScanAbort>)
    ensures ScanOutcome(emitted, aborted) == ScanReplies(ds, server)
  {
    emitted := [];
    assert ds[0..] == ds;
    for i := 0 to |ds|
      invariant ScanReplies(ds, server) == Then(ScanOutcome(emitted, None), ScanReplies(ds[i..], server))
    {
      ScanStep(ds, server, i, ScanOutcome(emitted, None));
      var o := Announce(ds[i], server);
      if o.aborted.Some? {
        return emitted + o.emitted, o.aborted;
      }
      emitted := emitted + o.emitted;
    }
    assert ds[|ds|..] == [];
    assert emitted + [] == emitted;
    aborted := None;
  }
}

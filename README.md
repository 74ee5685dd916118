# RainMachine binding — a Dafny model

A model of the RainMachine binding for the OpenSmartHouse home-automation
framework. The binding finds RainMachine irrigation controllers on the local
network in two ways:

- by a UDP broadcast, which yields one bridge entry and 8 or 16 zone entries
  per controller;
- by mDNS, which yields one bridge entry per advertised service.

It then talks to each controller over its HTTPS API (`/api/4/…`). A bridge
handler polls diagnostics, device information and the zone list on a fixed
schedule, and hands each zone's state to the zone handler registered for that
zone.

Modules:

- `Common`: `Option` and `Result`.
- `JavaText`: the `java.lang.String` and `Integer` operations the binding relies on, with their
  Java semantics written out: `indexOf`, `contains`, `endsWith`, `split` (trailing empty pieces
  dropped), `trim`, ASCII `toLowerCase`, `parseInt` with its 32-bit range, and `toString`.
- `ApiTypes`: the API's records, and the outcomes of one HTTP exchange as the client sees them.
- `ApiClient`:
  - address normalisation and URL construction;
  - the login gate over the session token;
  - the `Communicator` class. It holds the token and logs each request it puts on the network.
- `DiscoveryReply`: parsing a broadcast reply `SPRINKLER||<mac>||<name>||<address>`.
- `DiscoveryService`:
  - the broadcast's receive loop;
  - classifying a controller by its hardware version;
  - the order in which bridge and zone entries are announced.
- `MdnsDiscovery`: the mDNS participant, with its cache of last-known host addresses.
- `Handlers`:
  - the `BridgeHandler` class (initialisation, the update job's lifecycle, one poll cycle, zone
    dispatch);
  - the `ZoneHandler` class.

The network is not simulated. How it behaves is supplied by the caller:

- A login POST's outcome is a `LoginExchange` value.
- Each GET's outcome comes from a function from the requested URL to an `HttpOutcome`.
- Every request the communicator makes is appended to its `requests` field. This makes
  "no request was sent" observable.
- The poll cycle's effect is the function `Handlers.Cycle`. `BridgeHandler.UpdateBridge` is
  proved to apply exactly that function.

The model follows the code where the code does something its documentation
does not suggest:

- The address normaliser strips a scheme by cutting at the original address's length minus one.
  An address with a scheme and no trailing `/` therefore loses its last character.
- The session token is never added to a GET's URL. `String.concat`'s result is discarded.
- The two-argument communicator constructor ignores its password. The session password is
  always empty, so no authenticated getter ever logs in: each returns an empty record without
  a request (`Handlers.PasswordlessCycle`).
- The mDNS entry's two configuration keys are both `id`, so the address overwrites the serial
  number.
- The mDNS service type is compared without the trailing root dot.
- A reply with fewer than four fields throws out of the broadcast loop, and the replies collected
  before it are lost. A `hwVer` that is not a number throws out of the scan.

## Model

| member | source | states |
|---|---|---|
| JavaText.IndexOfFrom | src/main/java/org/opensmarthouse/binding/rainmachine/internal/api/RainMachineCommunicator.java:89 | the result is the first index at or after `from` where the pattern occurs; None means it occurs nowhere from there |
| JavaText.IndexOf | src/main/java/org/opensmarthouse/binding/rainmachine/internal/api/RainMachineCommunicator.java:88-89 | the first occurrence of the pattern (no earlier match); None exactly when it does not occur |
| JavaText.AbsentCharNotContained | src/main/java/org/opensmarthouse/binding/rainmachine/internal/discovery/RainMachineDiscoveryData.java:19 | a text without the character `c` contains no `cc` |
| JavaText.FirstDoubleAfter | src/main/java/org/opensmarthouse/binding/rainmachine/internal/discovery/RainMachineDiscoveryData.java:19 | the first `cc` in `f + cc + rest` is at the end of `f` when `c` does not occur in `f` |
| JavaText.Pieces | src/main/java/org/opensmarthouse/binding/rainmachine/internal/discovery/RainMachineDiscoveryData.java:19 | at least one piece; exactly one piece iff the delimiter does not occur |
| JavaText.DropTrailingEmpty | src/main/java/org/opensmarthouse/binding/rainmachine/internal/discovery/RainMachineDiscoveryData.java:19 | the result is a prefix of the pieces, does not end in an empty piece, and only empty pieces were dropped |
| JavaText.Split | src/main/java/org/opensmarthouse/binding/rainmachine/internal/discovery/RainMachineDiscoveryData.java:19 | `split` returns the text itself when the delimiter is absent, and otherwise the pieces without trailing empty ones |
| JavaText.TrimStart | src/main/java/org/opensmarthouse/binding/rainmachine/internal/discovery/RainMachineDiscoveryService.java:162 | the result is a suffix, starts with a non-blank character, and only characters up to U+0020 were removed |
| JavaText.TrimEnd | src/main/java/org/opensmarthouse/binding/rainmachine/internal/discovery/RainMachineDiscoveryService.java:162 | the result is a prefix, ends with a non-blank character, and only characters up to U+0020 were removed |
| JavaText.TrimEndIgnoresPadding | src/main/java/org/opensmarthouse/binding/rainmachine/internal/discovery/RainMachineDiscoveryService.java:162 | trailing trimmable padding does not change the end-trimmed text |
| JavaText.TrimStartOfPadded | src/main/java/org/opensmarthouse/binding/rainmachine/internal/discovery/RainMachineDiscoveryService.java:162 | start-trimming a padded text keeps the padding after a non-blank text and removes it after an all-blank one |
| JavaText.TrimIgnoresPadding | src/main/java/org/opensmarthouse/binding/rainmachine/internal/discovery/RainMachineDiscoveryService.java:162 | `trim()` of a text followed by trimmable padding equals `trim()` of the text |
| JavaText.Trim | src/main/java/org/opensmarthouse/binding/rainmachine/internal/discovery/RainMachineDiscoveryService.java:162 | never longer than the text; empty, or starting and ending with a character above U+0020; an all-blank text trims to empty; a text with no blank at either end is kept as it is |
| JavaText.ToLowerCase | src/main/java/org/opensmarthouse/binding/rainmachine/internal/discovery/RainMachineDiscoveryService.java:111 | same length, with each character lower-cased on its own |
| JavaText.DigitChar | src/main/java/org/opensmarthouse/binding/rainmachine/internal/discovery/RainMachineDiscoveryService.java:120 | a digit below ten is written as a decimal digit character |
| JavaText.NatToString | src/main/java/org/opensmarthouse/binding/rainmachine/internal/discovery/RainMachineDiscoveryService.java:120 | the decimal text of a number is non-empty and consists of digits |
| JavaText.ParseInt | src/main/java/org/opensmarthouse/binding/rainmachine/internal/discovery/RainMachineDiscoveryService.java:87 | a null or empty text fails; unsigned digits parse to their value when it fits in 32 bits and fail otherwise; a lone sign or a non-digit fails; `-` and `+` followed by digits give the negated and the plain value within the 32-bit range |
| JavaText.DigitsValueOfNatToString | src/main/java/org/opensmarthouse/binding/rainmachine/internal/discovery/RainMachineDiscoveryService.java:87 | the value of the digits written for `n` is `n` |
| JavaText.ParseIntOfNatToString | src/main/java/org/opensmarthouse/binding/rainmachine/internal/discovery/RainMachineDiscoveryService.java:87 | `parseInt` reads back what `toString` writes for every int-range natural |
| ApiClient.WithoutTrailingSlash | src/main/java/org/opensmarthouse/binding/rainmachine/internal/api/RainMachineCommunicator.java:83-87 | one trailing `/` is removed and nothing else; an address without one is unchanged |
| ApiClient.NormaliseAddress | src/main/java/org/opensmarthouse/binding/rainmachine/internal/api/RainMachineCommunicator.java:82-91 | without `//` the address only loses its trailing `/`; with one, the kept text runs from after the first `//` to the original length minus one |
| ApiClient.SlashesEndBeforeLastCharacter | src/main/java/org/opensmarthouse/binding/rainmachine/internal/api/RainMachineCommunicator.java:88-89 | the substring's indices are in range, so the constructor never throws there |
| ApiClient.NormaliseStripsSchemeAndSlash | src/main/java/org/opensmarthouse/binding/rainmachine/internal/api/RainMachineCommunicator.java:82-91 | `scheme//host/` normalises to `host` |
| ApiClient.NormaliseDropsLastCharacter | src/main/java/org/opensmarthouse/binding/rainmachine/internal/api/RainMachineCommunicator.java:82-91 | `scheme//host` without a trailing slash normalises to `host` minus its last character |
| ApiClient.NormaliseKeepsBareHost | src/main/java/org/opensmarthouse/binding/rainmachine/internal/api/RainMachineCommunicator.java:82-91 | an address without `/` is stored unchanged |
| ApiClient.CommandUrl | src/main/java/org/opensmarthouse/binding/rainmachine/internal/api/RainMachineCommunicator.java:191 | an `https://` URL with the stored address right after the scheme and the command at the very end |
| ApiClient.CommandUrlHasNoQuery | src/main/java/org/opensmarthouse/binding/rainmachine/internal/api/RainMachineCommunicator.java:191-194 | the requested URL carries no query string, so the token never reaches the controller |
| ApiClient.LoginRequest | src/main/java/org/opensmarthouse/binding/rainmachine/internal/api/RainMachineCommunicator.java:131-136 | a `text/html` POST to the login URL whose JSON body holds the password verbatim after `{"pwd": "` |
| ApiClient.LoginSpec | src/main/java/org/opensmarthouse/binding/rainmachine/internal/api/RainMachineCommunicator.java:121-162 | a held token succeeds without a POST; a POST is made iff there is no token and the password is non-empty; success iff a token is held or the POST got a 200 with a parsable body, whose token is then stored; on failure the token is unchanged |
| ApiClient.GetResult | src/main/java/org/opensmarthouse/binding/rainmachine/internal/api/RainMachineCommunicator.java:196-216 | the body only on status 200; another status is an error carrying it; a timeout, an execution failure and an interrupt are errors, and only an interrupt is reported as such |
| ApiClient.AuthenticatedResult | src/main/java/org/opensmarthouse/binding/rainmachine/internal/api/RainMachineCommunicator.java:168-187 | after a failed login the empty record, after a successful one the GET's result |
| ApiClient.AuthenticatedExchange | src/main/java/org/opensmarthouse/binding/rainmachine/internal/api/RainMachineCommunicator.java:168-187 | at most two requests; a success without a request is the empty record; a re-asserted interrupt implies the interrupted error |
| ApiClient.WithoutPasswordNothingIsSent | src/main/java/org/opensmarthouse/binding/rainmachine/internal/api/RainMachineCommunicator.java:126-128 | a session without token and password returns the empty record, sends nothing and keeps an empty token |
| ApiClient.HeldTokenSkipsLogin | src/main/java/org/opensmarthouse/binding/rainmachine/internal/api/RainMachineCommunicator.java:122-124 | a session holding a token sends exactly its one GET, keeps its token and returns the GET's result |
| ApiClient.CommandUrlsDiffer | src/main/java/org/opensmarthouse/binding/rainmachine/internal/api/RainMachineCommunicator.java:191 | distinct commands are requested at distinct URLs |
| ApiClient.ExchangeStaysOnCommand | src/main/java/org/opensmarthouse/binding/rainmachine/internal/api/RainMachineCommunicator.java:168-187 | a getter sends only the login POST and the GET of its own command |
| ApiClient.Communicator.constructor | src/main/java/org/opensmarthouse/binding/rainmachine/internal/api/RainMachineCommunicator.java:77-79 | the stored address is the normalised one; empty password and token; nothing sent |
| ApiClient.Communicator.WithPassword | src/main/java/org/opensmarthouse/binding/rainmachine/internal/api/RainMachineCommunicator.java:81-110 | the stored address is the normalised one and the password is empty whatever was passed |
| ApiClient.Communicator.CommandLogin | src/main/java/org/opensmarthouse/binding/rainmachine/internal/api/RainMachineCommunicator.java:121-162 | result, token and requests are those of `LoginSpec` |
| ApiClient.Communicator.SendGet | src/main/java/org/opensmarthouse/binding/rainmachine/internal/api/RainMachineCommunicator.java:189-217 | exactly one GET to the command URL with a 3-second timeout; the result is `GetResult` of its outcome; an interrupt is re-asserted |
| ApiClient.Communicator.GetVersions | src/main/java/org/opensmarthouse/binding/rainmachine/internal/api/RainMachineCommunicator.java:164-166 | one GET of `apiVer` without consulting the login gate |
| ApiClient.Communicator.AuthenticatedGet | src/main/java/org/opensmarthouse/binding/rainmachine/internal/api/RainMachineCommunicator.java:168-187 | result and new session state are those of `AuthenticatedExchange` |
| ApiClient.Communicator.GetZones | src/main/java/org/opensmarthouse/binding/rainmachine/internal/api/RainMachineCommunicator.java:168-173 | the `zone` exchange, with the empty zone list when login fails |
| ApiClient.Communicator.GetDeviceInfo | src/main/java/org/opensmarthouse/binding/rainmachine/internal/api/RainMachineCommunicator.java:175-180 | the `provision` exchange, with the empty record when login fails |
| ApiClient.Communicator.GetDiagnostics | src/main/java/org/opensmarthouse/binding/rainmachine/internal/api/RainMachineCommunicator.java:182-187 | the `diag` exchange, with the empty record when login fails |
| DiscoveryReply.Parse | src/main/java/org/opensmarthouse/binding/rainmachine/internal/discovery/RainMachineDiscoveryData.java:18-25 | a reply parses iff the split yields at least four pieces, which become id, mac, name and address; otherwise the out-of-bounds error with the piece count |
| DiscoveryReply.ValidIffFingerprintFirst | src/main/java/org/opensmarthouse/binding/rainmachine/internal/discovery/RainMachineDiscoveryData.java:27-29 | `isValid`: a reply that parses is valid iff its text starts with `SPRINKLER||` |
| DiscoveryReply.Join | src/main/java/org/opensmarthouse/binding/rainmachine/internal/discovery/RainMachineDiscoveryData.java:19 | the joined reply starts with its first field |
| DiscoveryReply.PiecesOfJoin | src/main/java/org/opensmarthouse/binding/rainmachine/internal/discovery/RainMachineDiscoveryData.java:19 | splitting joined `|`-free fields finds exactly those fields |
| DiscoveryReply.SplitOfJoin | src/main/java/org/opensmarthouse/binding/rainmachine/internal/discovery/RainMachineDiscoveryData.java:19 | `split` inverts joining when the last field is non-empty |
| DiscoveryReply.ParseOfJoin | src/main/java/org/opensmarthouse/binding/rainmachine/internal/discovery/RainMachineDiscoveryData.java:18-25 | parsing a well-formed reply returns its four fields |
| DiscoveryReply.ParseIgnoresExtraFields | src/main/java/org/opensmarthouse/binding/rainmachine/internal/discovery/RainMachineDiscoveryData.java:21-24 | fields after the fourth are ignored |
| DiscoveryReply.EmptyAddressIsMissing | src/main/java/org/opensmarthouse/binding/rainmachine/internal/discovery/RainMachineDiscoveryData.java:19-24 | an empty address field is dropped by the split, so the reply does not parse |
| DiscoveryReply.JoinFour | src/main/java/org/opensmarthouse/binding/rainmachine/internal/discovery/RainMachineDiscoveryData.java:19 | four fields join with the delimiter between each pair |
| DiscoveryReply.ExampleReply | src/main/java/org/opensmarthouse/binding/rainmachine/internal/discovery/RainMachineDiscoveryData.java:18-29 | a controller's reply parses into its fields and is valid |
| DiscoveryService.MessageIsTrimmedDatagram | src/main/java/org/opensmarthouse/binding/rainmachine/internal/discovery/RainMachineDiscoveryService.java:149-162 | the zeros filling the 15000-byte buffer are trimmed away: the message is the trimmed datagram |
| DiscoveryService.ReceiveBuffer | src/main/java/org/opensmarthouse/binding/rainmachine/internal/discovery/RainMachineDiscoveryService.java:149-153 | the buffer has 15000 bytes: the datagram (cut to that size) followed by zeros |
| DiscoveryService.Decode | src/main/java/org/opensmarthouse/binding/rainmachine/internal/discovery/RainMachineDiscoveryService.java:162 | one character per byte: ASCII bytes keep their character, others become U+FFFD |
| DiscoveryService.Message | src/main/java/org/opensmarthouse/binding/rainmachine/internal/discovery/RainMachineDiscoveryService.java:161-162 | the parsed text is at most 15000 characters and neither starts nor ends with a blank |
| DiscoveryService.ReadReply | src/main/java/org/opensmarthouse/binding/rainmachine/internal/discovery/RainMachineDiscoveryService.java:161-162 | a reply is read only from a text that contains the `||` delimiter |
| DiscoveryService.BlankDatagramIsMalformed | src/main/java/org/opensmarthouse/binding/rainmachine/internal/discovery/RainMachineDiscoveryService.java:161-162 | a datagram of blanks and zeros, an empty one included, throws the out-of-bounds error with one piece |
| DiscoveryService.PrependAll | src/main/java/org/opensmarthouse/binding/rainmachine/internal/discovery/RainMachineDiscoveryService.java:166 | an error passes through; otherwise the replies are put in front |
| DiscoveryService.Step | src/main/java/org/opensmarthouse/binding/rainmachine/internal/discovery/RainMachineDiscoveryService.java:161-167 | a reply that does not parse ends the loop with its error; an invalid one is skipped; a valid one is put in front of what the later datagrams collect |
| DiscoveryService.Collect | src/main/java/org/opensmarthouse/binding/rainmachine/internal/discovery/RainMachineDiscoveryService.java:132-173 | every collected reply is valid |
| DiscoveryService.ValidReplyKept | src/main/java/org/opensmarthouse/binding/rainmachine/internal/discovery/RainMachineDiscoveryService.java:161-167 | a valid reply is kept, ahead of everything the later datagrams collect |
| DiscoveryService.ValidReplies | src/main/java/org/opensmarthouse/binding/rainmachine/internal/discovery/RainMachineDiscoveryService.java:165-167 | the valid replies among the received datagrams, in arrival order: only valid ones, and every valid one |
| DiscoveryService.CollectKeepsValidReplies | src/main/java/org/opensmarthouse/binding/rainmachine/internal/discovery/RainMachineDiscoveryService.java:147-168 | when every datagram parses, the loop collects exactly the valid replies, in arrival order |
| DiscoveryService.Packets | src/main/java/org/opensmarthouse/binding/rainmachine/internal/discovery/RainMachineDiscoveryService.java:153 | one receive event per datagram, in order |
| DiscoveryService.CollectStopsAtFirstSilence | src/main/java/org/opensmarthouse/binding/rainmachine/internal/discovery/RainMachineDiscoveryService.java:156-158 | nothing after the first timeout or I/O error is looked at |
| DiscoveryService.ForeignReplySkipped | src/main/java/org/opensmarthouse/binding/rainmachine/internal/discovery/RainMachineDiscoveryService.java:165-167 | a parsable reply without the fingerprint is dropped without disturbing the others |
| DiscoveryService.MalformedReplyLosesEarlierOnes | src/main/java/org/opensmarthouse/binding/rainmachine/internal/discovery/RainMachineDiscoveryService.java:161-162 | a reply with fewer than four fields discards every reply collected before it |
| DiscoveryService.CollectReplies | src/main/java/org/opensmarthouse/binding/rainmachine/internal/discovery/RainMachineDiscoveryService.java:147-168 | the receive loop returns exactly `Collect` |
| DiscoveryService.PrependAllAssociates | src/main/java/org/opensmarthouse/binding/rainmachine/internal/discovery/RainMachineDiscoveryService.java:166 | adding replies one at a time is the same as adding them together |
| DiscoveryService.StripNonIdChars | src/main/java/org/opensmarthouse/binding/rainmachine/internal/discovery/RainMachineDiscoveryService.java:111 | no longer than its input, only id characters, keeps every id character, and the identity on id text |
| DiscoveryService.BridgeId | src/main/java/org/opensmarthouse/binding/rainmachine/internal/discovery/RainMachineDiscoveryService.java:110-111 | the bridge id holds only id characters and no upper-case letter |
| DiscoveryService.BridgeIdIdempotent | src/main/java/org/opensmarthouse/binding/rainmachine/internal/discovery/RainMachineDiscoveryService.java:111 | deriving an id from an id changes nothing |
| DiscoveryService.StripNonIdCharsAppend | src/main/java/org/opensmarthouse/binding/rainmachine/internal/discovery/RainMachineDiscoveryService.java:111 | stripping distributes over concatenation |
| DiscoveryService.SeparatorDropped | src/main/java/org/opensmarthouse/binding/rainmachine/internal/discovery/RainMachineDiscoveryService.java:111 | a MAC separator leaves no trace in the id |
| DiscoveryService.HardwareModel | src/main/java/org/opensmarthouse/binding/rainmachine/internal/discovery/RainMachineDiscoveryService.java:87-104 | 8 zones iff the code is 1 or 2, else 16; an empty model name iff the code is not 1, 2, 3 or 5 |
| DiscoveryService.Classify | src/main/java/org/opensmarthouse/binding/rainmachine/internal/discovery/RainMachineDiscoveryService.java:79-108 | a failed version request keeps the defaults; a reply aborts iff `hwVer` is not a number; the zone count is 8 or 16 |
| DiscoveryService.ZoneRecords | src/main/java/org/opensmarthouse/binding/rainmachine/internal/discovery/RainMachineDiscoveryService.java:118-125 | one entry per zone, the k-th for zone k |
| DiscoveryService.ReplyResults | src/main/java/org/opensmarthouse/binding/rainmachine/internal/discovery/RainMachineDiscoveryService.java:110-125 | the bridge entry first, then one entry per zone under that bridge, with uid one more than its zone number |
| DiscoveryService.ZoneRecord | src/main/java/org/opensmarthouse/binding/rainmachine/internal/discovery/RainMachineDiscoveryService.java:118-123 | a zone entry under the given bridge, with uid one more than the zone number |
| DiscoveryService.ZoneThingId | src/main/java/org/opensmarthouse/binding/rainmachine/internal/discovery/RainMachineDiscoveryService.java:119 | a zone's thing id is `zone` followed by digits that read back as the zone number |
| DiscoveryService.BridgeLabel | src/main/java/org/opensmarthouse/binding/rainmachine/internal/discovery/RainMachineDiscoveryService.java:113 | the label starts with `RainMachine ` and ends with the controller's name |
| DiscoveryService.VersionUrl | src/main/java/org/opensmarthouse/binding/rainmachine/internal/discovery/RainMachineDiscoveryService.java:83-85 | the version request is an `https://` URL ending in `apiVer` |
| DiscoveryService.PlainAddressQueriedAsIs | src/main/java/org/opensmarthouse/binding/rainmachine/internal/discovery/RainMachineDiscoveryService.java:83-85 | a reply's address without `/` is queried unchanged |
| DiscoveryService.Then | src/main/java/org/opensmarthouse/binding/rainmachine/internal/discovery/RainMachineDiscoveryService.java:77-129 | an abort ends the scan; otherwise the entries of both parts in order |
| DiscoveryService.ThenAssociates | src/main/java/org/opensmarthouse/binding/rainmachine/internal/discovery/RainMachineDiscoveryService.java:77-129 | sequencing scan parts is associative |
| DiscoveryService.Announcement | src/main/java/org/opensmarthouse/binding/rainmachine/internal/discovery/RainMachineDiscoveryService.java:78-128 | an invalid reply announces nothing; a valid one announces 9 or 17 entries unless it aborts, and then announces nothing |
| DiscoveryService.Scan | src/main/java/org/opensmarthouse/binding/rainmachine/internal/discovery/RainMachineDiscoveryService.java:74-130 | a malformed reply aborts the scan before any entry; otherwise the collected replies are announced in order |
| DiscoveryService.AnnounceEachBound | src/main/java/org/opensmarthouse/binding/rainmachine/internal/discovery/RainMachineDiscoveryService.java:77-129 | replies announced in turn add at most `n` entries each when no single announcement adds more |
| DiscoveryService.ScanRepliesBound | src/main/java/org/opensmarthouse/binding/rainmachine/internal/discovery/RainMachineDiscoveryService.java:77-129 | a scan announces at most 17 entries per reply: a bridge and at most sixteen zones |
| DiscoveryService.SilentRepliesAnnounceNothing | src/main/java/org/opensmarthouse/binding/rainmachine/internal/discovery/RainMachineDiscoveryService.java:77-129 | replies whose announcements are all empty leave the scan empty and not aborted |
| DiscoveryService.ForeignRepliesAnnounceNothing | src/main/java/org/opensmarthouse/binding/rainmachine/internal/discovery/RainMachineDiscoveryService.java:77-129 | replies none of which is a RainMachine's announce nothing and do not abort |
| DiscoveryService.AnnounceOne | src/main/java/org/opensmarthouse/binding/rainmachine/internal/discovery/RainMachineDiscoveryService.java:77-129 | announcing a one-reply list is announcing that reply |
| DiscoveryService.OneReplyScan | src/main/java/org/opensmarthouse/binding/rainmachine/internal/discovery/RainMachineDiscoveryService.java:77-129 | the scan of a single reply is that reply's announcement |
| DiscoveryService.BridgeBeforeZonesAppend | src/main/java/org/opensmarthouse/binding/rainmachine/internal/discovery/RainMachineDiscoveryService.java:116-124 | the bridge-before-zones order survives concatenation |
| DiscoveryService.AnnouncementBridgeFirst | src/main/java/org/opensmarthouse/binding/rainmachine/internal/discovery/RainMachineDiscoveryService.java:110-125 | one controller's zones are announced after its bridge |
| DiscoveryService.AnnounceEachBridgeFirst | src/main/java/org/opensmarthouse/binding/rainmachine/internal/discovery/RainMachineDiscoveryService.java:77-129 | if each reply's own entries put bridges before zones, so do all replies announced in turn |
| DiscoveryService.ScanAnnouncesBridgeFirst | src/main/java/org/opensmarthouse/binding/rainmachine/internal/discovery/RainMachineDiscoveryService.java:74-130 | no zone entry is ever announced before its bridge |
| DiscoveryService.UnreachableControllerAnnounced | src/main/java/org/opensmarthouse/binding/rainmachine/internal/discovery/RainMachineDiscoveryService.java:105-108 | a controller whose version request fails is announced as an unknown 16-zone model |
| DiscoveryService.MiniClassified | src/main/java/org/opensmarthouse/binding/rainmachine/internal/discovery/RainMachineDiscoveryService.java:87-95 | a valid reply whose version request answers `hwVer` "2" is announced as a Mini-8 bridge with eight zones, without aborting |
| DiscoveryService.MiniAnnouncedWithEightZones | src/main/java/org/opensmarthouse/binding/rainmachine/internal/discovery/RainMachineDiscoveryService.java:92-95 | hardware version 2 is announced as a Mini-8 with eight zones |
| DiscoveryService.NonNumericVersionAborts | src/main/java/org/opensmarthouse/binding/rainmachine/internal/discovery/RainMachineDiscoveryService.java:87 | a non-numeric `hwVer` aborts with nothing announced for that controller |
| DiscoveryService.AbortStopsAnnouncing | src/main/java/org/opensmarthouse/binding/rainmachine/internal/discovery/RainMachineDiscoveryService.java:77-129 | once one reply's announcement aborts, the replies after it change nothing and the result is aborted |
| DiscoveryService.AbortStopsScan | src/main/java/org/opensmarthouse/binding/rainmachine/internal/discovery/RainMachineDiscoveryService.java:77-87 | after an abort no later reply is announced |
| DiscoveryService.ReceivedReplyAnnounced | src/main/java/org/opensmarthouse/binding/rainmachine/internal/discovery/RainMachineDiscoveryService.java:74-167 | a datagram holding a valid reply is announced: the scan of it is that reply's announcement |
| DiscoveryService.Announce | src/main/java/org/opensmarthouse/binding/rainmachine/internal/discovery/RainMachineDiscoveryService.java:78-125 | the loop body announces exactly `Announcement` |
| DiscoveryService.AnnounceZones | src/main/java/org/opensmarthouse/binding/rainmachine/internal/discovery/RainMachineDiscoveryService.java:118-125 | the zone loop emits exactly the zone entries 1 to `zones`, in order |
| DiscoveryService.ScanStep | src/main/java/org/opensmarthouse/binding/rainmachine/internal/discovery/RainMachineDiscoveryService.java:77-129 | one turn of the reply loop: the reply at `i` is announced after everything before it |
| DiscoveryService.AnnounceReplies | src/main/java/org/opensmarthouse/binding/rainmachine/internal/discovery/RainMachineDiscoveryService.java:77-129 | the reply loop emits exactly the announcements of the replies in turn, up to and including the first abort |
| DiscoveryService.StartScan | src/main/java/org/opensmarthouse/binding/rainmachine/internal/discovery/RainMachineDiscoveryService.java:74-130 | the scan emits exactly `Scan`, bridges before their zones |
| MdnsDiscovery.PropertyString | src/main/java/org/opensmarthouse/binding/rainmachine/internal/discovery/RainMachineDiscoveryParticipant.java:90 | a value iff the TXT record has the key, and then that value |
| MdnsDiscovery.GetThingUid | src/main/java/org/opensmarthouse/binding/rainmachine/internal/discovery/RainMachineDiscoveryParticipant.java:107-127 | a uid iff the name mentions the product, a first address exists and the type is `_hap._tcp.local`; its id is the serial |
| MdnsDiscovery.ResultFor | src/main/java/org/opensmarthouse/binding/rainmachine/internal/discovery/RainMachineDiscoveryParticipant.java:69-105 | an entry iff the service is accepted, with the serial as uid and label and the host address under `id` |
| MdnsDiscovery.Remember | src/main/java/org/opensmarthouse/binding/rainmachine/internal/discovery/RainMachineDiscoveryParticipant.java:98 | an accepted service records its address under its serial; any other leaves the cache unchanged |
| MdnsDiscovery.LookUpAfterRemember | src/main/java/org/opensmarthouse/binding/rainmachine/internal/discovery/RainMachineDiscoveryParticipant.java:98-134 | the remembered serial resolves to its address and every other serial is unaffected |
| MdnsDiscovery.EntryHoldsOnlyTheAddress | src/main/java/org/opensmarthouse/binding/rainmachine/internal/discovery/RainMachineDiscoveryParticipant.java:50-51 | the entry's configuration has the single key `id`, holding the address |
| MdnsDiscovery.TrailingDotTypeRejected | src/main/java/org/opensmarthouse/binding/rainmachine/internal/discovery/RainMachineDiscoveryParticipant.java:62-67 | a service type written with the trailing root dot is not accepted |
| MdnsDiscovery.ForeignServiceIgnored | src/main/java/org/opensmarthouse/binding/rainmachine/internal/discovery/RainMachineDiscoveryParticipant.java:75-77 | a service whose name does not mention the product yields no entry and no uid |
| MdnsDiscovery.DiscoveryParticipant.constructor | src/main/java/org/opensmarthouse/binding/rainmachine/internal/discovery/RainMachineDiscoveryParticipant.java:55 | the address cache starts empty |
| MdnsDiscovery.DiscoveryParticipant.CreateResult | src/main/java/org/opensmarthouse/binding/rainmachine/internal/discovery/RainMachineDiscoveryParticipant.java:69-105 | returns `ResultFor` and updates the cache by `Remember` |
| MdnsDiscovery.DiscoveryParticipant.GetLastKnownHostAddress | src/main/java/org/opensmarthouse/binding/rainmachine/internal/discovery/RainMachineDiscoveryParticipant.java:129-134 | the cached address of a known serial, the empty string for an unknown one |
| Handlers.SetProperty | src/main/java/org/opensmarthouse/binding/rainmachine/internal/handler/RainMachineBridgeHandler.java:155 | the key shows the value, or is absent for a null value, and every other property is unchanged |
| Handlers.VersionProperties | src/main/java/org/opensmarthouse/binding/rainmachine/internal/handler/RainMachineBridgeHandler.java:96-98 | the three version properties show the reply's fields, and the other properties are unchanged |
| Handlers.LastRainOf | src/main/java/org/opensmarthouse/binding/rainmachine/internal/handler/RainMachineBridgeHandler.java:159-164 | UNDEF iff the rain start is null, otherwise its text |
| Handlers.NeedsZoneFetch | src/main/java/org/opensmarthouse/binding/rainmachine/internal/handler/RainMachineBridgeHandler.java:166 | a missing snapshot is always fetched; one at most 3000 ms old is reused; an older one is fetched |
| Handlers.ZoneStage | src/main/java/org/opensmarthouse/binding/rainmachine/internal/handler/RainMachineBridgeHandler.java:166-176 | the zone stage writes neither uptime nor last rain, sends at most two requests, and stops at any interrupt |
| Handlers.InfoStage | src/main/java/org/opensmarthouse/binding/rainmachine/internal/handler/RainMachineBridgeHandler.java:157-176 | the device-information stage never writes uptime, sends at most four requests, and stops at any interrupt |
| Handlers.Cycle | src/main/java/org/opensmarthouse/binding/rainmachine/internal/handler/RainMachineBridgeHandler.java:151-185 | a cycle sends at most six requests (three logins and three GETs), and a re-asserted interrupt means the cycle stopped at that interrupt |
| Handlers.CycleOrder | src/main/java/org/opensmarthouse/binding/rainmachine/internal/handler/RainMachineBridgeHandler.java:153-180 | an error keeps the snapshot and hands out nothing; without one, uptime and last rain are written and the snapshot's zones handed out; last rain only after uptime |
| Handlers.SnapshotAgeRule | src/main/java/org/opensmarthouse/binding/rainmachine/internal/handler/RainMachineBridgeHandler.java:166-169 | a fresh snapshot is kept with its timestamp and costs no zone request; a stale one fetched successfully is stamped with the second clock reading |
| Handlers.PasswordlessCycle | src/main/java/org/opensmarthouse/binding/rainmachine/internal/handler/RainMachineBridgeHandler.java:94 | a session built by the handler sends nothing and never fails: uptime removed, last rain UNDEF, a stale snapshot replaced by the empty list |
| Handlers.PasswordlessBridgeDeliversNothing | src/main/java/org/opensmarthouse/binding/rainmachine/internal/handler/RainMachineBridgeHandler.java:166-176 | such a bridge only ever holds the empty snapshot and hands no zone out |
| Handlers.FailedDiagnosticsWriteNothing | src/main/java/org/opensmarthouse/binding/rainmachine/internal/handler/RainMachineBridgeHandler.java:154-155 | a diagnostics timeout writes no property or channel, keeps the snapshot and sends only that GET |
| Handlers.LastDelivered | src/main/java/org/opensmarthouse/binding/rainmachine/internal/handler/RainMachineBridgeHandler.java:171-176 | None iff no zone is registered to the handler; otherwise the last zone in the list that is |
| Handlers.ZoneHandler.constructor | src/main/java/org/opensmarthouse/binding/rainmachine/internal/handler/RainMachineZoneHandler.java:54-56 | no configuration, status INITIALIZING, no zone state |
| Handlers.ZoneHandler.UpdateZoneInformation | src/main/java/org/opensmarthouse/binding/rainmachine/internal/handler/RainMachineZoneHandler.java:95-105 | a null zone sets OFFLINE and keeps the state; a zone sets ONLINE and its state |
| Handlers.ZoneHandler.BridgeStatusChanged | src/main/java/org/opensmarthouse/binding/rainmachine/internal/handler/RainMachineZoneHandler.java:72-81 | registers with the bridge's handler iff there is one: its registry gains this zone and its update job is restarted; the bridge handler's status, properties, channels, session, refresh period and zone snapshot stay as they were |
| Handlers.ZoneHandler.Initialize | src/main/java/org/opensmarthouse/binding/rainmachine/internal/handler/RainMachineZoneHandler.java:59-69 | reads the zone uid; without a bridge nothing else happens, otherwise registration as above, with the bridge handler's other state unchanged |
| Handlers.BridgeHandler.constructor | src/main/java/org/opensmarthouse/binding/rainmachine/internal/handler/RainMachineBridgeHandler.java:82-87 | OFFLINE, no session, no job, no zones |
| Handlers.BridgeHandler.AtMostOneLiveJob | src/main/java/org/opensmarthouse/binding/rainmachine/internal/handler/RainMachineBridgeHandler.java:133-149 | at most one update job is live |
| Handlers.BridgeHandler.StopUpdateJob | src/main/java/org/opensmarthouse/binding/rainmachine/internal/handler/RainMachineBridgeHandler.java:141-149 | the held job is cancelled if still live; no job is held or live afterwards |
| Handlers.BridgeHandler.StartUpdateJob | src/main/java/org/opensmarthouse/binding/rainmachine/internal/handler/RainMachineBridgeHandler.java:133-139 | stops the previous job, then schedules a new one iff the refresh period is configured and positive |
| Handlers.BridgeHandler.Initialize | src/main/java/org/opensmarthouse/binding/rainmachine/internal/handler/RainMachineBridgeHandler.java:90-106 | a new password-less session on the normalised host, one version GET, then ONLINE with the version properties or OFFLINE with the properties as they were; the job is restarted in every case |
| Handlers.BridgeHandler.Dispose | src/main/java/org/opensmarthouse/binding/rainmachine/internal/handler/RainMachineBridgeHandler.java:108-111 | the update job is stopped |
| Handlers.BridgeHandler.RegisterZoneStatusCallback | src/main/java/org/opensmarthouse/binding/rainmachine/internal/handler/RainMachineBridgeHandler.java:126-131 | the zone maps to the handler, other entries unchanged, and the job is restarted; nothing else about the bridge handler changes |
| Handlers.BridgeHandler.DispatchZones | src/main/java/org/opensmarthouse/binding/rainmachine/internal/handler/RainMachineBridgeHandler.java:171-176 | every registered zone handler shows the last zone delivered to it and is untouched if none was; no zone handler's configuration changes |
| Handlers.BridgeHandler.UpdateBridge | src/main/java/org/opensmarthouse/binding/rainmachine/internal/handler/RainMachineBridgeHandler.java:151-185 | without a session it throws before changing anything; otherwise it applies `Cycle` and ends ONLINE; zone handlers' configurations are untouched |
| Handlers.BridgeHandler.PollSession | src/main/java/org/opensmarthouse/binding/rainmachine/internal/handler/RainMachineBridgeHandler.java:153-184 | over a session, the handler's state afterwards is `Cycle` applied, and the status is ONLINE whether or not a step failed; zone handlers' configurations are untouched |
| Handlers.BridgeHandler.PollDeviceInfo | src/main/java/org/opensmarthouse/binding/rainmachine/internal/handler/RainMachineBridgeHandler.java:157-176 | the handler's state afterwards is `InfoStage` applied; zone handlers' configurations are untouched |
| Handlers.BridgeHandler.RefreshAndDispatch | src/main/java/org/opensmarthouse/binding/rainmachine/internal/handler/RainMachineBridgeHandler.java:166-176 | the handler's state afterwards is `ZoneStage` applied; zone handlers' configurations are untouched |
| Handlers.BridgeHandler.RunUpdateJob | src/main/java/org/opensmarthouse/binding/rainmachine/internal/handler/RainMachineBridgeHandler.java:136 | a scheduled run polls as `UpdateBridge`; a run that throws ends the job, so it is no longer live; zone handlers' configurations are untouched |

## Left out

- The HttpClient's start and its SSL set-up are left out. In `BridgeHandler.Initialize` a failed start is the `clientStarts` parameter. In discovery a failed start behaves like a failed version request, which the model covers.
- JSON decoding (Gson and Jackson) is not modelled. A GET's outcome is given already decoded, and the records are reduced to the fields the binding reads. Only `ApiVersion`, `DeviceInfo` and `Diagnostics` have optional fields, where None stands for a missing JSON field. `ZonesInfo.zones` and the zone's `uid` and `state` are always present in the model.
- A 200 body that does not decode is not modelled. Gson throws an unchecked exception on a malformed body and returns null on an empty one; a `zone` reply without `zones` fails the same way at the dispatch loop. None of these is caught by the binding's `RainMachineException` handlers. The model therefore does not capture three effects of such a body: it aborts the scan (`DiscoveryService.Classify`); it leaves `BridgeHandler.Initialize` without a status change and without starting the update job; and it ends the running update job (`BridgeHandler.RunUpdateJob` models ending the job only for a missing session).
- ApiClient.Communicator.SendGet: every URL is treated as well formed. Java's `httpClient.newRequest(url)` (RainMachineCommunicator.java:199) parses the URL with `java.net.URI`, and so does the login's `URI.create` (:131). A URL that `java.net.URI` rejects, such as one with an unclosed IPv6 bracket or a space in the host, throws an unchecked IllegalArgumentException before anything is sent. No handler of the binding catches it. An example is a reply address `https://[fe80::1]`, which `NormaliseAddress` cuts to `[fe80::1`. The model does not capture three effects of such a URL: it aborts the whole scan, where the model asks `server` and announces the controller (`DiscoveryService.Classify`); it leaves `BridgeHandler.Initialize` without a status change and without starting the update job; and it ends the running update job (`BridgeHandler.RunUpdateJob` models ending the job only for a missing session).
- A 200 login reply whose JSON has no `access_token` is left out. Java stores a null token, and the next GET would fail on that null. The model only distinguishes a parsable from an unparsable body.
- Byte decoding: `DiscoveryService.Decode` decodes each byte on its own. A non-ASCII byte becomes U+FFFD, so multi-byte UTF-8 sequences are not modelled.
- JavaText.ParseInt: accepts only the ASCII digits `0`–`9`. `Integer.parseInt` also accepts every other Unicode decimal digit (Arabic-Indic digits, for example); for such a `hwVer` the binding classifies the controller while the model aborts the scan.
- ApiClient.NormaliseAddress: counts positions in code points. Java's `substring` and `length` count UTF-16 units, so for an address holding a character outside the Basic Multilingual Plane, the model's result can differ from Java's; Java may even keep half of a surrogate pair.
- `JavaText.ToLowerCase` lower-cases ASCII only. Locale-specific case mapping is not modelled; the text it is applied to is already limited to `[A-Za-z0-9_-]`.
- The framework's ThingUID validation is not modelled. This includes the failure a null serial number causes in the mDNS participant.
- BridgeHandler.StartUpdateJob: `started == false` stands for an exception, not a normal return. Java fails on the null `config` at `config.refresh` when no configuration was read, and throws an IllegalArgumentException from `scheduleWithFixedDelay` when the period is not positive. The exception would propagate out of `BridgeHandler.Initialize`, `BridgeHandler.RegisterZoneStatusCallback`, `ZoneHandler.BridgeStatusChanged` and `ZoneHandler.Initialize`. The state left behind is the same; the exception the framework sees is not modelled.
- Scheduler timing, concurrency and `synchronized` are not modelled. The scheduler is reduced to job handles, and a run of the job is an explicit call (`BridgeHandler.RunUpdateJob`).
- `ZoneHandler.BridgeStatusChanged` ignores the bridge status argument, as the source does. The argument is not modelled; the `getBridge()` lookups are a `BridgeLink` parameter.
- `ZoneHandler.BridgeStatusChanged` requires that `initialize` has already read the configuration. The framework calls it only after `initialize`.
- Logging, the stack traces printed by the catch blocks, and the communicator's `finalize` are left out.
- `handleCommand` is a no-op in both handlers and is left out.
- The handler factory is left out. So are the address cache the bridge handler is given (it never reads it) and the thing-type constants.
- The clock is not modelled. `updateBridge` reads it twice; the two readings are the parameters `now` and `fetchedAt`.
- The discovery socket's set-up and the broadcast send are left out. The receive loop starts from the sequence of receive events.
- Discovery announcements and inbox entries are records. The framework's result builder is not modelled.

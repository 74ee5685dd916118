/**
 * A controller's reply to the UDP discovery broadcast:
 * `SPRINKLER||<mac>||<name>||<address>`, split on the two-character
 * delimiter `||` with Java's `String.split` semantics.
 */
module DiscoveryReply {
  import opened Common
  import opened JavaText

  /** The first field every RainMachine reply carries. */
  const Fingerprint := "SPRINKLER"
  const Delimiter := "||"

  datatype DiscoveryData = DiscoveryData(id: string, mac: string, name: string, address: string)
  {
    /** A reply counts only when its first field is the fingerprint. */
    predicate IsValid()
    {
      id == Fingerprint
    }
  }

  /**
   * The ArrayIndexOutOfBoundsException the reply constructor throws when
   * the split yields fewer than four pieces; `pieces` is how many it yielded.
   */
  datatype ParseError = MissingField(pieces: nat)

  /** The reply constructor: the first four pieces of the split, or the exception. */
  function Parse(message: string): (r: Result<DiscoveryData, ParseError>)
    ensures r.Ok? <==> |Split(message, Delimiter)| >= 4
    ensures r.Err? ==> r.error == MissingField(|Split(message, Delimiter)|)
    ensures r.Ok? ==> var ps := Split(message, Delimiter);
                      r.value == DiscoveryData(ps[0], ps[1], ps[2], ps[3])
  {
    var ps := Split(message, Delimiter);
    if |ps| < 4 then Err(MissingField(|ps|)) else Ok(DiscoveryData(ps[0], ps[1], ps[2], ps[3]))
  }

  /**
   * A reply that parses is valid exactly when its text starts with the
   * fingerprint followed by the delimiter.
   */
  lemma ValidIffFingerprintFirst(message: string)
    requires Parse(message).Ok?
    ensures Parse(message).value.IsValid() <==>
              |message| >= |Fingerprint| + 2 && message[..|Fingerprint| + 2] == Fingerprint + Delimiter
  {
    var ps := Split(message, Delimiter);
    assert Contains(message, Delimiter);
    var i := IndexOf(message, Delimiter).value;
    var pieces := Pieces(message, Delimiter);
    assert ps[0] == pieces[0] == message[..i];
    if |message| >= |Fingerprint| + 2 && message[..|Fingerprint| + 2] == Fingerprint + Delimiter {
      var rest := message[|Fingerprint| + 2..];
      assert message == Fingerprint + ['|', '|'] + rest;
      FirstDoubleAfter(Fingerprint, '|', rest);
    }
    if Parse(message).value.IsValid() {
      assert message[i..i + 2] == Delimiter;
      assert message[..|Fingerprint| + 2] == message[..i] + message[i..i + 2];
    }
  }

  /** The fields of a reply written out with the delimiter between them. */
  function Join(fields: seq<string>): (r: string)
    requires fields != []
    ensures |r| >= |fields[0]|
    ensures r[..|fields[0]|] == fields[0]
  {
    if |fields| == 1 then fields[0] else fields[0] + Delimiter + Join(fields[1..])
  }

  /** None of the fields holds a `|`. */
  predicate PlainFields(fields: seq<string>)
  {
    forall k :: 0 <= k < |fields| ==> '|' !in fields[k]
  }

  /** Splitting the joined fields finds exactly the delimiters that were put between them. */
  lemma {:induction false} PiecesOfJoin(fields: seq<string>)
    requires fields != [] && PlainFields(fields)
    ensures Pieces(Join(fields), Delimiter) == fields
    decreases |fields|
  {
    if |fields| == 1 {
      AbsentCharNotContained(fields[0], '|');
    } else {
      var rest := Join(fields[1..]);
      assert '|' !in fields[0];
      FirstDoubleAfter(fields[0], '|', rest);
      var s := fields[0] + Delimiter + rest;
      assert s[|fields[0]| + 2..] == rest;
      assert s[..|fields[0]|] == fields[0];
      PiecesOfJoin(fields[1..]);
      assert fields == [fields[0]] + fields[1..];
    }
  }

  /** A split of the joined fields returns them all, provided the last one is not empty. */
  lemma SplitOfJoin(fields: seq<string>)
    requires |fields| >= 2 && PlainFields(fields) && fields[|fields| - 1] != []
    ensures Split(Join(fields), Delimiter) == fields
  {
    PiecesOfJoin(fields);
  }

  /** Parsing reads back the four fields of a well-formed reply. */
  lemma ParseOfJoin(id: string, mac: string, name: string, address: string)
    requires PlainFields([id, mac, name, address]) && address != []
    ensures Parse(Join([id, mac, name, address])) == Ok(DiscoveryData(id, mac, name, address))
  {
    SplitOfJoin([id, mac, name, address]);
  }

  /** Fields after the fourth are ignored. */
  lemma ParseIgnoresExtraFields(fields: seq<string>)
    requires |fields| >= 4 && PlainFields(fields) && fields[|fields| - 1] != []
    ensures Parse(Join(fields)) == Ok(DiscoveryData(fields[0], fields[1], fields[2], fields[3]))
  {
    SplitOfJoin(fields);
  }

  /**
   * A reply whose address field is empty loses that field to the split
   * (trailing empty pieces are dropped), so parsing it fails.
   */
  lemma EmptyAddressIsMissing(id: string, mac: string, name: string)
    requires PlainFields([id, mac, name]) && name != []
    ensures Parse(Join([id, mac, name, ""])) == Err(MissingField(3))
  {
    var fields := [id, mac, name, ""];
    assert PlainFields(fields) by {
      assert forall k :: 0 <= k < 3 ==> fields[k] == [id, mac, name][k];
    }
    PiecesOfJoin(fields);
    assert DropTrailingEmpty(fields) == DropTrailingEmpty(fields[..3]);
    assert fields[..3] == [id, mac, name];
  }

  /** Four fields joined: the delimiter between each pair. */
  lemma JoinFour(id: string, mac: string, name: string, address: string)
    ensures Join([id, mac, name, address]) == id + Delimiter + mac + Delimiter + name + Delimiter + address
  {
    var fields := [id, mac, name, address];
    assert fields[1..] == [mac, name, address];
    assert [mac, name, address][1..] == [name, address];
    assert [name, address][1..] == [address];
    assert Join([name, address]) == name + Delimiter + address;
    assert Join([mac, name, address]) == mac + Delimiter + (name + Delimiter + address);
    assert Join(fields) == id + Delimiter + (mac + Delimiter + (name + Delimiter + address));
  }

  /** The reply a controller sends, as the protocol describes it. */
  lemma ExampleReply()
    ensures var message := "SPRINKLER" + "||" + "AA:BB:CC:DD:EE:FF" + "||" + "Yard Controller" + "||" + "192.168.1.50";
            Parse(message) == Ok(DiscoveryData("SPRINKLER", "AA:BB:CC:DD:EE:FF", "Yard Controller", "192.168.1.50")) &&
            Parse(message).value.IsValid()
  {
    var fields := ["SPRINKLER", "AA:BB:CC:DD:EE:FF", "Yard Controller", "192.168.1.50"];
    assert PlainFields(fields) by {
      assert '|' !in fields[0];
      assert '|' !in fields[1];
      assert '|' !in fields[2];
      assert '|' !in fields[3];
    }
    JoinFour(fields[0], fields[1], fields[2], fields[3]);
    ParseOfJoin(fields[0], fields[1], fields[2], fields[3]);
  }
}

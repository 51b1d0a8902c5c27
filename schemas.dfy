/**
  The marshmallow schema layer: the IPv4 and MAC validators, loading a JSON
  request body into the internal field names, and dumping a stored document
  back to the wire shape.
 */
module Schemas {
  import opened Wrappers
  import opened Text
  import opened Regex
  import opened ObjectIds
  import opened Store

  /** What a field validator does: return normally, or raise ValidationError(message). */
  datatype Verdict = Pass | Reject(message: string)

  const Ipv4FormatMessage := "Invalid IPv4 address format"
  const Ipv4RangeMessage := "IPv4 octets must be between 0 and 255"
  const MacFormatMessage := "Invalid MAC address format (expected XX:XX:XX:XX:XX:XX)"

  // ---------------------------------------------------------------- ip_address

  /** `ipv4_regex.match(s)` for `^(?:[0-9]{1,3}\.){3}[0-9]{1,3}$`. */
  predicate Ipv4Regex(s: string) {
    AnchoredMatch(s, 3, '.', 1, 3, Digits)
  }

  /**
    `int(p) > 255` for one piece of `value.split(".")`. A piece `int` cannot
    parse would raise ValueError, which the request handler also turns into a
    validation failure; Ipv4PiecesParse shows it cannot happen once the regex matched.
   */
  predicate OctetTooLarge(p: string) {
    match PyInt(p)
    case Some(v) => v > 255
    case None => true
  }

  /** `DeviceSchema.validate_ip`: the regex first, then every octet at most 255. */
  function ValidateIp(value: string): Verdict {
    if !Ipv4Regex(value) then Reject(Ipv4FormatMessage)
    else
      var parts := Split(value, '.');
      if exists i | 0 <= i < |parts| :: OctetTooLarge(parts[i]) then Reject(Ipv4RangeMessage)
      else Pass
  }

  /** One to three decimal digits whose value is at most 255; leading zeros allowed. */
  predicate DecimalOctet(g: string) {
    1 <= |g| <= 3 && AllDigits(g) && DecimalValue(g) <= 255
  }

  lemma AllInClassDigits(g: string)
    ensures AllInClass(g, Digits) <==> AllDigits(g)
  {
    if g != [] {
      AllInClassDigits(g[1..]);
      assert forall i | 1 <= i < |g| :: g[i] == g[1..][i - 1];
    }
  }

  /** `value.split(".")` on a regex match: the four groups, the last one carrying the newline if there is one. */
  lemma SplitOfAnchored(g: seq<string>, s: string, sep: char)
    requires |g| >= 1 && Split(Join(g, sep), sep) == g && sep != '\n'
    requires s == Join(g, sep) || s == Join(g, sep) + "\n"
    ensures Split(s, sep) == if s == Join(g, sep) then g else g[..|g| - 1] + [g[|g| - 1] + "\n"]
  {
    if s != Join(g, sep) {
      SplitSuffix(Join(g, sep), "\n", sep);
    }
  }

  /** The range test on the pieces is the range test on the groups' decimal values. */
  lemma RangeCheck(g: seq<string>, parts: seq<string>)
    requires |g| == 4 && forall i | 0 <= i < 4 :: 1 <= |g[i]| <= 3 && AllDigits(g[i])
    requires parts == g || parts == g[..3] + [g[3] + "\n"]
    ensures |parts| == 4
    ensures forall i | 0 <= i < 4 :: OctetTooLarge(parts[i]) <==> DecimalValue(g[i]) > 255
  {
    forall i | 0 <= i < 4 ensures OctetTooLarge(parts[i]) <==> DecimalValue(g[i]) > 255 {
      assert parts[i] == g[i] || parts[i] == g[i] + "\n";
      PieceRange(g[i], parts[i]);
    }
  }

  lemma PieceRange(d: string, p: string)
    requires 1 <= |d| <= 3 && AllDigits(d)
    requires p == d || p == d + "\n"
    ensures PyInt(p) == Some(DecimalValue(d) as int)
    ensures OctetTooLarge(p) <==> DecimalValue(d) > 255
  {
    PyIntOfDigits(d);
  }

  /** What the regex leaves to the range test: four short digit groups, and the pieces of the split. */
  lemma IpGroups(s: string) returns (g: seq<string>)
    requires Ipv4Regex(s)
    ensures |g| == 4 && forall i | 0 <= i < 4 :: 1 <= |g[i]| <= 3 && AllDigits(g[i])
    ensures s == Join(g, '.') || s == Join(g, '.') + "\n"
    ensures Split(s, '.') == g || Split(s, '.') == g[..3] + [g[3] + "\n"]
  {
    if MatchesGroups(s, 3, '.', 1, 3, Digits) {
      g := GroupsOfMatch(s, 3, '.', 1, 3, Digits);
    } else {
      g := GroupsOfMatch(s[..|s| - 1], 3, '.', 1, 3, Digits);
      assert s == Join(g, '.') + "\n";
    }
    AllGroupsEach(g, 1, 3, Digits);
    forall i | 0 <= i < 4 ensures 1 <= |g[i]| <= 3 && AllDigits(g[i]) {
      AllInClassDigits(g[i]);
    }
    MatchOfGroups(g, 3, '.', 1, 3, Digits);
    SplitOfAnchored(g, s, '.');
  }

  /** Four short digit groups joined by dots, with or without the newline, pass the regex. */
  lemma GroupsMatchIp(g: seq<string>, s: string)
    requires |g| == 4 && forall i | 0 <= i < 4 :: 1 <= |g[i]| <= 3 && AllDigits(g[i])
    requires s == Join(g, '.') || s == Join(g, '.') + "\n"
    ensures Ipv4Regex(s)
    ensures Split(s, '.') == g || Split(s, '.') == g[..3] + [g[3] + "\n"]
  {
    forall i | 0 <= i < 4 ensures Group(g[i], 1, 3, Digits) {
      AllInClassDigits(g[i]);
    }
    AllGroupsEach(g, 1, 3, Digits);
    MatchOfGroups(g, 3, '.', 1, 3, Digits);
    if s != Join(g, '.') {
      assert s[..|s| - 1] == Join(g, '.');
    }
    SplitOfAnchored(g, s, '.');
  }

  /**
    An ip_address passes exactly when it is four dot-separated groups of one to
    three digits, each worth at most 255, optionally followed by one newline
    (which Python's `$` lets through).
   */
  lemma ValidateIpAccepts(s: string)
    ensures ValidateIp(s) == Pass <==>
      exists g: seq<string> | |g| == 4 && (forall i | 0 <= i < 4 :: DecimalOctet(g[i])) ::
        s == Join(g, '.') || s == Join(g, '.') + "\n"
  {
    if ValidateIp(s) == Pass {
      var g := PassingIpOctets(s);
    }
    if exists g: seq<string> | |g| == 4 && (forall i | 0 <= i < 4 :: DecimalOctet(g[i])) ::
        s == Join(g, '.') || s == Join(g, '.') + "\n" {
      var g: seq<string> :| |g| == 4 && (forall i | 0 <= i < 4 :: DecimalOctet(g[i])) &&
        (s == Join(g, '.') || s == Join(g, '.') + "\n");
      OctetsPass(g, s);
    }
  }

  lemma PassingIpOctets(s: string) returns (g: seq<string>)
    requires ValidateIp(s) == Pass
    ensures |g| == 4 && forall i | 0 <= i < 4 :: DecimalOctet(g[i])
    ensures s == Join(g, '.') || s == Join(g, '.') + "\n"
  {
    g := IpGroups(s);
    RangeCheck(g, Split(s, '.'));
  }

  lemma OctetsPass(g: seq<string>, s: string)
    requires |g| == 4 && forall i | 0 <= i < 4 :: DecimalOctet(g[i])
    requires s == Join(g, '.') || s == Join(g, '.') + "\n"
    ensures ValidateIp(s) == Pass
  {
    GroupsMatchIp(g, s);
    RangeCheck(g, Split(s, '.'));
  }

  /** Once the regex has matched, every piece of the split parses as an int: the ValueError path is dead. */
  lemma Ipv4PiecesParse(s: string)
    requires Ipv4Regex(s)
    ensures forall i | 0 <= i < |Split(s, '.')| :: PyInt(Split(s, '.')[i]).Some?
  {
    var g := IpGroups(s);
    var parts := Split(s, '.');
    assert |parts| == 4;
    forall i | 0 <= i < 4 ensures PyInt(parts[i]).Some? {
      assert parts[i] == g[i] || parts[i] == g[i] + "\n";
      PieceRange(g[i], parts[i]);
    }
  }

  /** A well-shaped quad with some group above 255 fails with the range message, e.g. "999.1.1.1". */
  lemma OctetAbove255Rejected(g: seq<string>, k: nat)
    requires |g| == 4 && forall i | 0 <= i < 4 :: 1 <= |g[i]| <= 3 && AllDigits(g[i])
    requires k < 4 && DecimalValue(g[k]) > 255
    ensures ValidateIp(Join(g, '.')) == Reject(Ipv4RangeMessage)
    ensures ValidateIp(Join(g, '.') + "\n") == Reject(Ipv4RangeMessage)
  {
    GroupsMatchIp(g, Join(g, '.'));
    RangeCheck(g, Split(Join(g, '.'), '.'));
    GroupsMatchIp(g, Join(g, '.') + "\n");
    RangeCheck(g, Split(Join(g, '.') + "\n", '.'));
  }

  // ---------------------------------------------------------------- mac_address

  /** `mac_regex.match(s)` for `^([0-9A-Fa-f]{2}:){5}[0-9A-Fa-f]{2}$`. */
  predicate MacRegex(s: string) {
    AnchoredMatch(s, 5, ':', 2, 2, HexDigits)
  }

  /** `DeviceSchema.validate_mac`. */
  function ValidateMac(value: string): Verdict {
    if MacRegex(value) then Pass else Reject(MacFormatMessage)
  }

  predicate HexPair(g: string) {
    |g| == 2 && IsHexDigit(g[0]) && IsHexDigit(g[1])
  }

  lemma GroupHexPair(g: string)
    ensures Group(g, 2, 2, HexDigits) <==> HexPair(g)
  {
    if |g| == 2 {
      assert AllInClass(g, HexDigits) <==> InClass(HexDigits, g[0]) && AllInClass(g[1..], HexDigits);
      assert g[1..][0] == g[1] && g[1..][1..] == [];
      assert AllInClass(g[1..], HexDigits) <==> InClass(HexDigits, g[1]) && AllInClass(g[1..][1..], HexDigits);
    }
  }

  lemma AllGroupsHexPairs(parts: seq<string>)
    ensures AllGroups(parts, 2, 2, HexDigits) <==> forall i | 0 <= i < |parts| :: HexPair(parts[i])
  {
    AllGroupsEach(parts, 2, 2, HexDigits);
    forall i | 0 <= i < |parts| ensures Group(parts[i], 2, 2, HexDigits) <==> HexPair(parts[i]) {
      GroupHexPair(parts[i]);
    }
  }

  /**
    A mac_address passes exactly when it is six two-hex-digit pairs (either
    case) joined by colons, optionally followed by one newline.
   */
  lemma ValidateMacAccepts(s: string)
    ensures ValidateMac(s) == Pass <==>
      exists g: seq<string> | |g| == 6 && (forall i | 0 <= i < 6 :: HexPair(g[i])) ::
        s == Join(g, ':') || s == Join(g, ':') + "\n"
  {
    AnchoredMatchIff(s, 5, ':', 2, 2, HexDigits);
    forall g: seq<string> ensures AllGroups(g, 2, 2, HexDigits) <==> forall i | 0 <= i < |g| :: HexPair(g[i]) {
      AllGroupsHexPairs(g);
    }
  }

  /** A MAC match is 17 characters long, 18 with the newline; so "AA:BB:CC" is rejected. */
  lemma MacLength(s: string)
    requires ValidateMac(s) == Pass
    ensures |s| == 17 || (|s| == 18 && s[17] == '\n')
  {
    if MatchesGroups(s, 5, ':', 2, 2, HexDigits) {
      MatchesGroupsLength(s, 5, ':', 2, 2, HexDigits);
    } else {
      MatchesGroupsLength(s[..|s| - 1], 5, ':', 2, 2, HexDigits);
    }
  }

  /** An Ipv4 match is between 7 and 15 characters long, one more with the newline; so "1.2.3" is rejected. */
  lemma Ipv4Length(s: string)
    requires Ipv4Regex(s)
    ensures 7 <= |s| <= 16
  {
    if MatchesGroups(s, 3, '.', 1, 3, Digits) {
      MatchesGroupsLength(s, 3, '.', 1, 3, Digits);
    } else {
      MatchesGroupsLength(s[..|s| - 1], 3, '.', 1, 3, Digits);
    }
  }

  /** The check is on numeric value, not canonical form: leading zeros pass. */
  lemma LeadingZerosAccepted()
    ensures ValidateIp("010.000.001.255") == Pass
  {
    var g := ["010", "000", "001", "255"];
    assert Join(g, '.') == "010.000.001.255" by {
      assert g[1..] == ["000", "001", "255"];
      assert g[1..][1..] == ["001", "255"];
      assert g[1..][1..][1..] == ["255"];
    }
    LeadingZeroValues();
    OctetsPass(g, "010.000.001.255");
  }

  lemma LeadingZeroValues()
    ensures DecimalOctet("010") && DecimalOctet("000") && DecimalOctet("001") && DecimalOctet("255")
  {
    assert "010"[..2] == "01" && "01"[..1] == "0" && "0"[..0] == "";
    assert "000"[..2] == "00" && "00"[..1] == "0";
    assert "001"[..2] == "00";
    assert "255"[..2] == "25" && "25"[..1] == "2" && "2"[..0] == "";
  }

  lemma OutOfRangeRejected()
    ensures ValidateIp("999.1.1.1") == Reject(Ipv4RangeMessage)
  {
    var g := ["999", "1", "1", "1"];
    assert Join(g, '.') == "999.1.1.1" by {
      assert g[1..] == ["1", "1", "1"];
      assert g[1..][1..] == ["1", "1"];
      assert g[1..][1..][1..] == ["1"];
    }
    assert "999"[..2] == "99" && "99"[..1] == "9" && "9"[..0] == "";
    assert DecimalValue("999") == 999;
    OctetAbove255Rejected(g, 0);
  }

  lemma ThreeGroupsRejected()
    ensures ValidateIp("1.2.3") == Reject(Ipv4FormatMessage)
  {
    if Ipv4Regex("1.2.3") {
      Ipv4Length("1.2.3");
    }
  }

  lemma ThreePairMacRejected()
    ensures ValidateMac("AA:BB:CC") == Reject(MacFormatMessage)
  {
    if ValidateMac("AA:BB:CC") == Pass {
      MacLength("AA:BB:CC");
    }
  }

  // ---------------------------------------------------------------- load

  /** A JSON value as the schema sees it; `JOther` is a number, boolean, array or object, with its `str()` text. */
  datatype JsonValue = JString(text: string) | JNull | JOther(repr: string)

  /**
    What `request.get_json(silent=True)` produced: a JSON object, or anything
    else (including no or unparsable JSON) together with its Python truthiness.
   */
  datatype RequestBody = JsonObject(members: map<string, JsonValue>) | NotAnObject(truthy: bool)

  const MissingMessage := "Missing data for required field."
  const NullMessage := "Field may not be null."
  const NotStringMessage := "Not a valid string."
  const UnknownMessage := "Unknown field."
  const InvalidTypeMessage := "Invalid input type."

  /** The keys `load` accepts: the data keys of the five required String fields. */
  const WireNames: set<string> := {"name", "ip_address", "mac_address", "location", "type"}

  /** The keys of what `load` returns: the attribute names of the same fields. */
  const AttributeNames: set<string> := {"name", "ip_address", "mac_address", "location", "device_type"}

  /** The `data_key` to `attribute` renaming; only `type` differs. */
  function AttributeOf(w: string): (a: string)
    ensures w in WireNames ==> a in AttributeNames
  {
    if w == "type" then "device_type" else w
  }

  /** The `@validates` hook of a field, run once the field holds a string. */
  function FieldVerdict(w: string, v: string): Verdict {
    if w == "ip_address" then ValidateIp(v)
    else if w == "mac_address" then ValidateMac(v)
    else Pass
  }

  /** The error `load` records under key k, if any. */
  function FieldError(m: map<string, JsonValue>, k: string): Option<string> {
    if k !in WireNames then (if k in m then Some(UnknownMessage) else None)
    else if k !in m then Some(MissingMessage)
    else match m[k]
      case JNull => Some(NullMessage)
      case JOther(_) => Some(NotStringMessage)
      case JString(v) => (match FieldVerdict(k, v) case Pass => None case Reject(msg) => Some(msg))
  }

  /** Every error of one `load` call: unknown keys (the dump-only `id` among them), then the declared fields. */
  function LoadErrors(m: map<string, JsonValue>): (errs: map<string, string>)
    ensures forall k | k in errs :: k in m || k in WireNames
    ensures forall k | k in m.Keys + WireNames :: k in errs <==> FieldError(m, k).Some?
  {
    map k | k in m.Keys + WireNames && FieldError(m, k).Some? :: FieldError(m, k).value
  }

  /** The members `load` accepts: exactly the five keys, each a string its validator passes. */
  predicate Acceptable(m: map<string, JsonValue>) {
    m.Keys == WireNames && forall w | w in WireNames :: m[w].JString? && FieldVerdict(w, m[w].text) == Pass
  }

  lemma AcceptableIffNoErrors(m: map<string, JsonValue>)
    ensures Acceptable(m) <==> |LoadErrors(m)| == 0
  {
    var errs := LoadErrors(m);
    if |errs| == 0 {
      forall k | k in m ensures k in WireNames {
        assert k !in errs;
      }
      forall w | w in WireNames ensures w in m && m[w].JString? && FieldVerdict(w, m[w].text) == Pass {
        assert w !in errs;
      }
    } else {
      var k :| k in errs;
    }
  }

  /**
    `DeviceSchema().load(payload or {})`: a falsy body loads as the empty
    object; a truthy non-object is refused outright; an object loads into the
    attribute names, with `type` renamed to `device_type`.
   */
  function Load(body: RequestBody): (r: Result<map<string, string>, map<string, string>>)
    ensures r.Success? <==> body.JsonObject? && Acceptable(body.members)
    ensures r.Success? ==> r.value.Keys == AttributeNames
    ensures r.Success? ==> forall w | w in WireNames :: r.value[AttributeOf(w)] == body.members[w].text
    ensures r.Failure? ==> |r.error| > 0
  {
    match body
    case NotAnObject(true) => Failure(map["_schema" := InvalidTypeMessage])
    case NotAnObject(false) => LoadMembers(map[])
    case JsonObject(m) => LoadMembers(m)
  }

  function LoadMembers(m: map<string, JsonValue>): (r: Result<map<string, string>, map<string, string>>)
    ensures r.Success? <==> Acceptable(m)
    ensures r.Success? ==> r.value.Keys == AttributeNames
    ensures r.Success? ==> forall w | w in WireNames :: r.value[AttributeOf(w)] == m[w].text
    ensures r.Failure? ==> r.error == LoadErrors(m) && |r.error| > 0
  {
    AcceptableIffNoErrors(m);
    if !Acceptable(m) then Failure(LoadErrors(m))
    else Success(map[
      "name" := m["name"].text,
      "ip_address" := m["ip_address"].text,
      "mac_address" := m["mac_address"].text,
      "location" := m["location"].text,
      "device_type" := m["type"].text])
  }

  /** Every one of the five fields is required: leaving one out fails with the missing-data message for it. */
  lemma LoadRequiresEveryField(m: map<string, JsonValue>, w: string)
    requires w in WireNames && w !in m
    ensures Load(JsonObject(m)).Failure?
    ensures w in Load(JsonObject(m)).error && Load(JsonObject(m)).error[w] == MissingMessage
  {
    assert FieldError(m, w) == Some(MissingMessage);
  }

  /** `id` is dump-only: a body carrying it is refused as having an unknown field. */
  lemma LoadRejectsId(m: map<string, JsonValue>)
    requires "id" in m
    ensures Load(JsonObject(m)).Failure?
    ensures "id" in Load(JsonObject(m)).error && Load(JsonObject(m)).error["id"] == UnknownMessage
  {
    assert FieldError(m, "id") == Some(UnknownMessage);
  }

  /** An ip_address or mac_address its validator rejects fails the load with that validator's message. */
  lemma LoadReportsValidator(m: map<string, JsonValue>, w: string, msg: string)
    requires w in m && m[w].JString? && w in WireNames && FieldVerdict(w, m[w].text) == Reject(msg)
    ensures Load(JsonObject(m)).Failure?
    ensures w in Load(JsonObject(m)).error && Load(JsonObject(m)).error[w] == msg
  {
    assert FieldError(m, w) == Some(msg);
  }

  /** The body `or {}` turns a falsy body into the empty object, which misses all five fields. */
  lemma LoadFalsyBody()
    ensures Load(NotAnObject(false)) == Failure(map w | w in WireNames :: MissingMessage)
  {
    var errs := LoadErrors(map[]);
    forall k | k in errs ensures k in WireNames && errs[k] == MissingMessage {}
    forall w | w in WireNames ensures w in errs && errs[w] == MissingMessage {
      assert FieldError(map[], w) == Some(MissingMessage);
    }
    assert errs == map w | w in WireNames :: MissingMessage;
  }

  // ---------------------------------------------------------------- dump

  /** What the `_id` attribute of a document can hold when `ObjectIdField._serialize` sees it. */
  datatype IdValue = IdObject(oid: ObjectId) | IdText(text: string) | IdOther

  /** `ObjectIdField._serialize`: an ObjectId prints as its text, a string passes through, anything else is None. */
  function SerializeId(v: IdValue): (r: JsonValue)
    ensures r.JString? <==> !v.IdOther?
    ensures v.IdText? ==> r == JString(v.text)
  {
    match v
    case IdObject(oid) => JString(IdString(oid))
    case IdText(t) => JString(t)
    case IdOther => JNull
  }

  /** The id a client receives parses back to the stored ObjectId. */
  lemma SerializedIdParses(oid: ObjectId)
    requires WellFormed(oid)
    ensures ParseObjectId(SerializeId(IdObject(oid)).text) == Some(oid)
  {
    ParseIdString(oid);
  }

  /** Python's `str()` of a dumped value. */
  function PyStr(v: JsonValue): string {
    match v
    case JString(t) => t
    case JNull => "None"
    case JOther(repr) => repr
  }

  /** The `post_dump` hook `ensure_id_str`: a present, non-None id is replaced by its `str()`. */
  function EnsureIdStr(data: map<string, JsonValue>): map<string, JsonValue> {
    if "id" in data && data["id"] != JNull then data["id" := JString(PyStr(data["id"]))] else data
  }

  /** The hook changes nothing that `_serialize` can produce; in particular a None id stays None. */
  lemma EnsureIdStrKeepsSerializedId(data: map<string, JsonValue>, v: IdValue)
    requires "id" in data && data["id"] == SerializeId(v)
    ensures EnsureIdStr(data) == data
    ensures v.IdOther? ==> EnsureIdStr(data)["id"] == JNull
  {
  }

  /** The keys of a dumped device: the declared fields, with no timestamps. */
  const DumpKeys: set<string> := {"id", "name", "ip_address", "mac_address", "location", "type"}

  /** The five String fields of a stored document, dumped under their data keys. */
  function FieldsOf(doc: DeviceDoc): (m: map<string, JsonValue>)
    ensures m.Keys == WireNames
  {
    map["name" := JString(doc.name), "ip_address" := JString(doc.ipAddress),
        "mac_address" := JString(doc.macAddress), "location" := JString(doc.location),
        "type" := JString(doc.deviceType)]
  }

  /** `DeviceSchema().dump(doc)` of a stored document with id `id`. */
  function Dump(id: ObjectId, doc: DeviceDoc): (r: map<string, JsonValue>)
    ensures r.Keys == DumpKeys && "created_at" !in r && "updated_at" !in r
    ensures r["id"] == SerializeId(IdObject(id))
    ensures r - {"id"} == FieldsOf(doc)
  {
    var data := FieldsOf(doc)["id" := SerializeId(IdObject(id))];
    EnsureIdStrKeepsSerializedId(data, IdObject(id));
    assert data - {"id"} == FieldsOf(doc);
    EnsureIdStr(data)
  }

  /** The loadable attributes of a stored document, under their attribute names. */
  function Attributes(doc: DeviceDoc): (a: map<string, string>)
    ensures a.Keys == AttributeNames
  {
    map["name" := doc.name, "ip_address" := doc.ipAddress, "mac_address" := doc.macAddress,
        "location" := doc.location, "device_type" := doc.deviceType]
  }

  /** The dumped `type` key carries `device_type`, and every other field keeps its name. */
  lemma DumpRenamesType(id: ObjectId, doc: DeviceDoc)
    ensures forall w | w in WireNames :: Dump(id, doc)[w] == JString(Attributes(doc)[AttributeOf(w)])
  {
    assert Dump(id, doc) - {"id"} == FieldsOf(doc);
    forall w | w in WireNames ensures Dump(id, doc)[w] == FieldsOf(doc)[w] {
      assert w != "id";
      assert w in Dump(id, doc) - {"id"};
    }
  }

  /** The dumped fields are the document's attributes under their data keys. */
  lemma FieldsOfAttributes(doc: DeviceDoc)
    ensures forall w | w in WireNames :: FieldsOf(doc)[w] == JString(Attributes(doc)[AttributeOf(w)])
  {
  }

  lemma LoadFieldsOf(doc: DeviceDoc)
    requires ValidateIp(doc.ipAddress) == Pass && ValidateMac(doc.macAddress) == Pass
    ensures Load(JsonObject(FieldsOf(doc))) == Success(Attributes(doc))
  {
    var m := FieldsOf(doc);
    assert Acceptable(m);
    var r := Load(JsonObject(m)).value;
    assert r["device_type"] == doc.deviceType by { assert AttributeOf("type") == "device_type"; }
    assert r["name"] == doc.name by { assert AttributeOf("name") == "name"; }
    assert r["location"] == doc.location by { assert AttributeOf("location") == "location"; }
    assert r["ip_address"] == doc.ipAddress by { assert AttributeOf("ip_address") == "ip_address"; }
    assert r["mac_address"] == doc.macAddress by { assert AttributeOf("mac_address") == "mac_address"; }
    assert r == Attributes(doc);
  }

  /**
    Dump and load are inverse on the five fields, through the `type` /
    `device_type` renaming; the dumped map itself does not load back, since it
    carries the dump-only id.
   */
  lemma DumpLoadRoundTrip(id: ObjectId, doc: DeviceDoc)
    requires ValidateIp(doc.ipAddress) == Pass && ValidateMac(doc.macAddress) == Pass
    ensures Load(JsonObject(Dump(id, doc) - {"id"})) == Success(Attributes(doc))
    ensures Load(JsonObject(Dump(id, doc))).Failure?
  {
    LoadFieldsOf(doc);
    LoadRejectsId(Dump(id, doc));
  }
}

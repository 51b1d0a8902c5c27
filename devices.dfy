/**
  The `/devices` routes: list, create, read, update and delete over the
  devices collection. The collection is the `docs` field of a
  `DeviceService`; a failing database call is the `fault` argument, the new
  ObjectId and the clock readings are arguments too.
 */
module Devices {
  import opened Wrappers
  import opened ObjectIds
  import opened Store
  import opened Schemas
  import opened Responses
  import opened Auth
  import opened Config

  // ---------------------------------------------------------------- documents from loaded data

  /**
    The document `post` inserts, with devices.py:54 corrected to read the
    loaded `device_type` key (NewDeviceDocAsWritten is the line as written).
   */
  function NewDeviceDoc(data: map<string, string>, createdAt: Timestamp, updatedAt: Timestamp): (doc: DeviceDoc)
    requires AttributeNames <= data.Keys
    ensures forall a | a in AttributeNames :: Attributes(doc)[a] == data[a]
    ensures doc.createdAt == createdAt && doc.updatedAt == updatedAt
  {
    DeviceDoc(data["name"], data["ip_address"], data["mac_address"], data["location"], data["device_type"],
      createdAt, updatedAt)
  }

  /**
    The document after the `$set` of `put`, with devices.py:107 corrected to
    read `device_type`: the five fields and `updated_at`; `created_at` is kept.
   */
  function UpdatedDoc(doc: DeviceDoc, data: map<string, string>, updatedAt: Timestamp): (r: DeviceDoc)
    requires AttributeNames <= data.Keys
    ensures forall a | a in AttributeNames :: Attributes(r)[a] == data[a]
    ensures r.createdAt == doc.createdAt && r.updatedAt == updatedAt
  {
    doc.(name := data["name"], ipAddress := data["ip_address"], macAddress := data["mac_address"],
      location := data["location"], deviceType := data["device_type"], updatedAt := updatedAt)
  }

  /**
    With devices.py:54 corrected: loading a body and building its document
    gives back the loaded attributes; dumping gives back the body.
   */
  lemma CreatedDocRoundTrip(m: map<string, JsonValue>, id: ObjectId, createdAt: Timestamp, updatedAt: Timestamp)
    requires Load(JsonObject(m)).Success?
    ensures Attributes(NewDeviceDoc(Load(JsonObject(m)).value, createdAt, updatedAt)) == Load(JsonObject(m)).value
    ensures Dump(id, NewDeviceDoc(Load(JsonObject(m)).value, createdAt, updatedAt)) - {"id"} == m
  {
    var data := Load(JsonObject(m)).value;
    var doc := NewDeviceDoc(data, createdAt, updatedAt);
    assert Attributes(doc) == data;
    FieldsOfAttributes(doc);
    forall w | w in WireNames ensures FieldsOf(doc)[w] == m[w] {
      assert m[w] == JString(data[AttributeOf(w)]);
    }
  }

  // ---------------------------------------------------------------- the code as written

  /** The keys the handlers read from the loaded data as written: `type`, not `device_type`. */
  const ReadKeysAsWritten: set<string> := {"name", "ip_address", "mac_address", "location", "type"}

  /** `device_doc = {...}` as written in `post`; `None` is the KeyError a missing key raises. */
  function NewDeviceDocAsWritten(data: map<string, string>, createdAt: Timestamp, updatedAt: Timestamp): (r: Option<DeviceDoc>)
    ensures r.Some? <==> ReadKeysAsWritten <= data.Keys
  {
    if ReadKeysAsWritten <= data.Keys then
      Some(DeviceDoc(data["name"], data["ip_address"], data["mac_address"], data["location"], data["type"],
        createdAt, updatedAt))
    else None
  }

  /** The `$set` document of `put`: the five fields and `updated_at`. */
  datatype DeviceUpdate = DeviceUpdate(
    name: string, ipAddress: string, macAddress: string, location: string, deviceType: string, updatedAt: Timestamp)

  /**
    `update_doc = {...}` as written in `put`; it is built before the stored
    document is looked up. `None` is the KeyError.
   */
  function UpdatedDocAsWritten(data: map<string, string>, updatedAt: Timestamp): (r: Option<DeviceUpdate>)
    ensures r.Some? <==> ReadKeysAsWritten <= data.Keys
  {
    if ReadKeysAsWritten <= data.Keys then
      Some(DeviceUpdate(data["name"], data["ip_address"], data["mac_address"], data["location"], data["type"],
        updatedAt))
    else None
  }

  /**
    As written, every body that passes validation makes `post` and `put`
    raise KeyError on `data["type"]`: load returns the attribute key
    `device_type`. The exception escapes the handler's try blocks, so the
    request ends in the generic 500 response and nothing is written.
   */
  lemma AsWrittenRaisesOnValidBody(body: RequestBody, createdAt: Timestamp, updatedAt: Timestamp)
    requires Load(body).Success?
    ensures NewDeviceDocAsWritten(Load(body).value, createdAt, updatedAt) == None
    ensures UpdatedDocAsWritten(Load(body).value, updatedAt) == None
  {
    assert "type" in ReadKeysAsWritten && "type" !in AttributeNames;
  }

  // ---------------------------------------------------------------- listing

  /** The dumps of the documents with the given ids, in that order. */
  function DumpEach(c: Collection, ids: seq<ObjectId>): (r: seq<map<string, JsonValue>>)
    requires forall i | 0 <= i < |ids| :: ids[i] in c
    ensures |r| == |ids|
  {
    if ids == [] then [] else DumpEach(c, ids[..|ids| - 1]) + [Dump(ids[|ids| - 1], c[ids[|ids| - 1]])]
  }

  lemma {:induction false} DumpEachAt(c: Collection, ids: seq<ObjectId>, i: nat)
    requires forall j | 0 <= j < |ids| :: ids[j] in c
    requires i < |ids|
    ensures DumpEach(c, ids)[i] == Dump(ids[i], c[ids[i]])
  {
    if i < |ids| - 1 {
      DumpEachAt(c, ids[..|ids| - 1], i);
    }
  }

  /**
    A listing of distinct ids that covers the collection lists every document
    once: as many entries as documents, each one a document's dump.
   */
  lemma DumpEachListsAll(c: Collection, ids: seq<ObjectId>)
    requires forall i | 0 <= i < |ids| :: ids[i] in c
    requires forall id | id in c :: id in ids
    requires |ids| == |c|
    ensures forall id | id in c :: Dump(id, c[id]) in DumpEach(c, ids)
    ensures forall i | 0 <= i < |ids| :: exists id | id in c :: DumpEach(c, ids)[i] == Dump(id, c[id])
  {
    forall id | id in c ensures Dump(id, c[id]) in DumpEach(c, ids) {
      var i :| 0 <= i < |ids| && ids[i] == id;
      DumpEachAt(c, ids, i);
    }
    forall i | 0 <= i < |ids| ensures exists id | id in c :: DumpEach(c, ids)[i] == Dump(id, c[id]) {
      DumpEachAt(c, ids, i);
    }
  }

  // ---------------------------------------------------------------- the service

  const FetchFailedMessage := "Failed to fetch devices"
  const CreateFailedMessage := "Failed to create device"
  const UpdateFailedMessage := "Failed to update device"
  const DeleteFailedMessage := "Failed to delete device"

  class DeviceService {
    /** The devices collection: documents by `_id`. */
    var docs: Collection
    /** The settings read when the application module was imported. */
    const config: AppConfig

    /** The unique MAC index holds, and every id is a well-formed ObjectId. */
    ghost predicate Valid()
      reads this
    {
      UniqueMacs(docs) && forall id | id in docs :: WellFormed(id)
    }

    constructor(config: AppConfig)
      ensures Valid() && docs == map[] && this.config == config
    {
      docs := map[];
      this.config := config;
    }

    /** The decision of `require_api_key` for this request's header. */
    predicate Admitted(header: Option<string>) {
      Guard(config.apiKey, header).None?
    }

    /** GET /devices: every stored document, dumped, each exactly once (in no particular order). */
    method ListDevices(fault: bool) returns (r: Response)
      ensures fault ==> r == Error(DbError, FetchFailedMessage)
      ensures !fault ==> r.Ok? && r.status == 200 && r.body.DeviceList?
      ensures !fault ==> |r.body.items| == |docs|
      ensures !fault ==> forall id | id in docs :: Dump(id, docs[id]) in r.body.items
      ensures !fault ==> forall i | 0 <= i < |r.body.items| ::
        exists id | id in docs :: r.body.items[i] == Dump(id, docs[id])
    {
      if fault {
        return Error(DbError, FetchFailedMessage);
      }
      // list(devices_col.find({})): drain the cursor, one document at a time
      var found: seq<ObjectId> := [];
      var remaining := docs.Keys;
      while remaining != {}
        invariant remaining <= docs.Keys
        invariant forall i | 0 <= i < |found| :: found[i] in docs && found[i] !in remaining
        invariant forall id | id in docs && id !in remaining :: id in found
        invariant |found| + |remaining| == |docs.Keys|
        decreases |remaining|
      {
        var id :| id in remaining;
        found := found + [id];
        remaining := remaining - {id};
      }
      assert |docs.Keys| == |docs|;
      // [DeviceSchema().dump(d) for d in docs]
      var items := DumpEach(docs, found);
      DumpEachListsAll(docs, found);
      r := Ok(200, DeviceList(items));
    }

    /**
      POST /devices as written: `schema.load` returns the type under
      `device_type`, so `data["type"]` (devices.py:54) raises KeyError for
      every body that loads. That line is outside both `try` blocks, so
      Flask's 500 handler answers, and nothing after it runs. The method has
      no `modifies` clause: the collection is left as it was.
     */
    method CreateDeviceAsWritten(header: Option<string>, body: RequestBody, createdAt: Timestamp, updatedAt: Timestamp)
      returns (r: Response)
      ensures !Admitted(header) ==> r == UnauthorizedResponse
      ensures Admitted(header) && Load(body).Failure? ==> r == Error(ValidationError, InvalidInputMessage)
      ensures Admitted(header) && Load(body).Success? ==> r == InternalError
    {
      var denied := Guard(config.apiKey, header);
      if denied.Some? {
        return denied.value;
      }
      var loaded := Load(body);
      if loaded.Failure? {
        return Error(ValidationError, InvalidInputMessage);
      }
      AsWrittenRaisesOnValidBody(body, createdAt, updatedAt);
      match NewDeviceDocAsWritten(loaded.value, createdAt, updatedAt)
      case None =>
        // the KeyError reaches Flask's 500 handler
        return InternalError;
      case Some(_) =>
        assert false;
    }

    /**
      POST /devices, with devices.py:54 corrected to read `data["device_type"]`
      (NewDeviceDoc); CreateDeviceAsWritten is the code as written.
     */
    method CreateDevice(header: Option<string>, body: RequestBody, newId: ObjectId,
                        createdAt: Timestamp, updatedAt: Timestamp, fault: bool) returns (r: Response)
      requires Valid() && WellFormed(newId)
      modifies this
      ensures Valid()
      ensures !Admitted(header) ==> r == UnauthorizedResponse && docs == old(docs)
      ensures Admitted(header) && Load(body).Failure? ==>
        r == Error(ValidationError, InvalidInputMessage) && docs == old(docs)
      ensures Admitted(header) && Load(body).Success? && fault ==>
        r == Error(DbError, CreateFailedMessage) && docs == old(docs)
      ensures Admitted(header) && Load(body).Success? && !fault ==>
        var doc := NewDeviceDoc(Load(body).value, createdAt, updatedAt);
        if newId in old(docs) || MacTaken(old(docs), doc.macAddress, None) then
          r == Error(Duplicate, DuplicateMessage) && docs == old(docs)
        else
          r == Ok(201, Device(Dump(newId, doc))) && docs == old(docs)[newId := doc]
    {
      var denied := Guard(config.apiKey, header);
      if denied.Some? {
        return denied.value;
      }
      var loaded := Load(body);
      if loaded.Failure? {
        return Error(ValidationError, InvalidInputMessage);
      }
      var doc := NewDeviceDoc(loaded.value, createdAt, updatedAt);
      if fault {
        return Error(DbError, CreateFailedMessage);
      }
      if newId in docs || MacTaken(docs, doc.macAddress, None) {
        return Error(Duplicate, DuplicateMessage);
      }
      InsertKeepsMacsUnique(docs, newId, doc);
      docs := docs[newId := doc];
      r := Ok(201, Device(Dump(newId, doc)));
    }

    /** GET /devices/<device_id>; the lookup is outside any try, so a database failure is a 500. */
    method GetDevice(deviceId: string, fault: bool) returns (r: Response)
      ensures ParseObjectId(deviceId).None? ==> r == Error(InvalidId, InvalidIdMessage)
      ensures ParseObjectId(deviceId).Some? && fault ==> r == InternalError
      ensures ParseObjectId(deviceId).Some? && !fault ==>
        var oid := ParseObjectId(deviceId).value;
        if oid in docs then r == Ok(200, Device(Dump(oid, docs[oid])))
        else r == Error(NotFound, NotFoundMessage)
    {
      var parsed := ParseObjectId(deviceId);
      if parsed.None? {
        return Error(InvalidId, InvalidIdMessage);
      }
      if fault {
        return InternalError;
      }
      var oid := parsed.value;
      if oid !in docs {
        return Error(NotFound, NotFoundMessage);
      }
      r := Ok(200, Device(Dump(oid, docs[oid])));
    }

    /**
      PUT /devices/<device_id> as written: once the id parses and the body
      loads, `data["type"]` (devices.py:107) raises KeyError outside the
      `try`, so Flask's 500 handler answers before the store is touched. The
      method has no `modifies` clause: the collection is left as it was.
     */
    method UpdateDeviceAsWritten(header: Option<string>, deviceId: string, body: RequestBody, updatedAt: Timestamp)
      returns (r: Response)
      ensures !Admitted(header) ==> r == UnauthorizedResponse
      ensures Admitted(header) && ParseObjectId(deviceId).None? ==> r == Error(InvalidId, InvalidIdMessage)
      ensures Admitted(header) && ParseObjectId(deviceId).Some? && Load(body).Failure? ==>
        r == Error(ValidationError, InvalidInputMessage)
      ensures Admitted(header) && ParseObjectId(deviceId).Some? && Load(body).Success? ==> r == InternalError
    {
      var denied := Guard(config.apiKey, header);
      if denied.Some? {
        return denied.value;
      }
      var parsed := ParseObjectId(deviceId);
      if parsed.None? {
        return Error(InvalidId, InvalidIdMessage);
      }
      var loaded := Load(body);
      if loaded.Failure? {
        return Error(ValidationError, InvalidInputMessage);
      }
      AsWrittenRaisesOnValidBody(body, updatedAt, updatedAt);
      match UpdatedDocAsWritten(loaded.value, updatedAt)
      case None =>
        // the KeyError reaches Flask's 500 handler
        return InternalError;
      case Some(_) =>
        assert false;
    }

    /**
      PUT /devices/<device_id>, with devices.py:107 corrected to read
      `data["device_type"]` (UpdatedDoc); UpdateDeviceAsWritten is the code as written.
     */
    method UpdateDevice(header: Option<string>, deviceId: string, body: RequestBody,
                        updatedAt: Timestamp, fault: bool) returns (r: Response)
      requires Valid()
      modifies this
      ensures Valid()
      ensures !Admitted(header) ==> r == UnauthorizedResponse && docs == old(docs)
      ensures Admitted(header) && ParseObjectId(deviceId).None? ==>
        r == Error(InvalidId, InvalidIdMessage) && docs == old(docs)
      ensures Admitted(header) && ParseObjectId(deviceId).Some? && Load(body).Failure? ==>
        r == Error(ValidationError, InvalidInputMessage) && docs == old(docs)
      ensures Admitted(header) && ParseObjectId(deviceId).Some? && Load(body).Success? && fault ==>
        r == Error(DbError, UpdateFailedMessage) && docs == old(docs)
      ensures Admitted(header) && ParseObjectId(deviceId).Some? && Load(body).Success? && !fault ==>
        var oid := ParseObjectId(deviceId).value;
        var data := Load(body).value;
        if oid !in old(docs) then
          r == Error(NotFound, NotFoundMessage) && docs == old(docs)
        else if MacTaken(old(docs), data["mac_address"], Some(oid)) then
          r == Error(Duplicate, DuplicateMessage) && docs == old(docs)
        else
          var doc := UpdatedDoc(old(docs)[oid], data, updatedAt);
          r == Ok(200, Device(Dump(oid, doc))) && docs == old(docs)[oid := doc]
    {
      var denied := Guard(config.apiKey, header);
      if denied.Some? {
        return denied.value;
      }
      var parsed := ParseObjectId(deviceId);
      if parsed.None? {
        return Error(InvalidId, InvalidIdMessage);
      }
      var oid := parsed.value;
      var loaded := Load(body);
      if loaded.Failure? {
        return Error(ValidationError, InvalidInputMessage);
      }
      var data := loaded.value;
      if fault {
        return Error(DbError, UpdateFailedMessage);
      }
      if oid !in docs {
        return Error(NotFound, NotFoundMessage);
      }
      if MacTaken(docs, data["mac_address"], Some(oid)) {
        return Error(Duplicate, DuplicateMessage);
      }
      var doc := UpdatedDoc(docs[oid], data, updatedAt);
      ReplaceKeepsMacsUnique(docs, oid, doc);
      docs := docs[oid := doc];
      r := Ok(200, Device(Dump(oid, doc)));
    }

    /** DELETE /devices/<device_id>. */
    method DeleteDevice(header: Option<string>, deviceId: string, fault: bool) returns (r: Response)
      requires Valid()
      modifies this
      ensures Valid()
      ensures !Admitted(header) ==> r == UnauthorizedResponse && docs == old(docs)
      ensures Admitted(header) && ParseObjectId(deviceId).None? ==>
        r == Error(InvalidId, InvalidIdMessage) && docs == old(docs)
      ensures Admitted(header) && ParseObjectId(deviceId).Some? && fault ==>
        r == Error(DbError, DeleteFailedMessage) && docs == old(docs)
      ensures Admitted(header) && ParseObjectId(deviceId).Some? && !fault ==>
        var oid := ParseObjectId(deviceId).value;
        if oid in old(docs) then r == Ok(204, NoContent) && docs == old(docs) - {oid}
        else r == Error(NotFound, NotFoundMessage) && docs == old(docs)
    {
      var denied := Guard(config.apiKey, header);
      if denied.Some? {
        return denied.value;
      }
      var parsed := ParseObjectId(deviceId);
      if parsed.None? {
        return Error(InvalidId, InvalidIdMessage);
      }
      if fault {
        return Error(DbError, DeleteFailedMessage);
      }
      var oid := parsed.value;
      if oid !in docs {
        return Error(NotFound, NotFoundMessage);
      }
      docs := docs - {oid};
      r := Ok(204, NoContent);
    }
  }

  /**
    With devices.py:54 corrected (CreateDevice; as written every such create
    answers 500, see CreateDeviceAsWritten):
    creating a device answers 201 and echoes the stored record; a second
    create with the same MAC under another id is refused as a duplicate; a read returns what
    the create returned.
   */
  method CreateScenario(config: AppConfig, header: Option<string>, body: map<string, JsonValue>,
                        id: ObjectId, otherId: ObjectId, createdAt: Timestamp, updatedAt: Timestamp)
    returns (created: Response, again: Response, read: Response)
    requires Guard(config.apiKey, header).None?
    requires Load(JsonObject(body)).Success?
    requires WellFormed(id) && WellFormed(otherId) && otherId != id
    ensures created.Ok? && created.status == 201 && created.body.Device?
    ensures "id" in created.body.fields && created.body.fields["id"] == JString(IdString(id))
    ensures created.body.fields - {"id"} == body
    ensures again == Error(Duplicate, DuplicateMessage)
    ensures read == Ok(200, created.body)
  {
    var service := new DeviceService(config);
    assert service.Admitted(header);
    ParseIdString(id);
    var doc := NewDeviceDoc(Load(JsonObject(body)).value, createdAt, updatedAt);
    CreatedDocRoundTrip(body, id, createdAt, updatedAt);

    created := service.CreateDevice(header, JsonObject(body), id, createdAt, updatedAt, false);
    assert created == Ok(201, Device(Dump(id, doc))) && service.docs == map[id := doc];

    assert MacTaken(service.docs, doc.macAddress, None) by {
      assert service.docs[id].macAddress == doc.macAddress;
    }
    again := service.CreateDevice(header, JsonObject(body), otherId, createdAt, updatedAt, false);
    read := service.GetDevice(IdString(id), false);
  }

  /**
    After a successful delete (204), both a read and a delete of the same id
    answer 404. The document is set up by the corrected create (CreateDevice).
   */
  method DeleteScenario(config: AppConfig, header: Option<string>, body: map<string, JsonValue>,
                        id: ObjectId, createdAt: Timestamp, updatedAt: Timestamp)
    returns (deleted: Response, readAfter: Response, deletedAfter: Response)
    requires Guard(config.apiKey, header).None?
    requires Load(JsonObject(body)).Success?
    requires WellFormed(id)
    ensures deleted == Ok(204, NoContent)
    ensures readAfter == Error(NotFound, NotFoundMessage)
    ensures deletedAfter == Error(NotFound, NotFoundMessage)
  {
    var service := new DeviceService(config);
    assert service.Admitted(header);
    ParseIdString(id);
    var created := service.CreateDevice(header, JsonObject(body), id, createdAt, updatedAt, false);
    assert id in service.docs;
    deleted := service.DeleteDevice(header, IdString(id), false);
    assert service.docs == map[];
    readAfter := service.GetDevice(IdString(id), false);
    deletedAfter := service.DeleteDevice(header, IdString(id), false);
  }
}

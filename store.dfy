/**
  The devices collection, abstracted to a map from id to document, and the
  unique index on `mac_address` that the database layer creates at start-up.
 */
module Store {
  import opened Wrappers
  import opened ObjectIds

  /** An opaque reading of the clock (`datetime.utcnow()`). */
  datatype Timestamp = Timestamp(reading: int)

  /** A document of the devices collection, as the create and update handlers write it. */
  datatype DeviceDoc = DeviceDoc(
    name: string,
    ipAddress: string,
    macAddress: string,
    location: string,
    deviceType: string,
    createdAt: Timestamp,
    updatedAt: Timestamp)

  type Collection = map<ObjectId, DeviceDoc>

  /** The `uniq_mac` index: no two documents share a MAC address. */
  ghost predicate UniqueMacs(c: Collection) {
    forall i, j | i in c && j in c && c[i].macAddress == c[j].macAddress :: i == j
  }

  /** A document other than `self` already holds `mac`; writing it would raise DuplicateKeyError. */
  predicate MacTaken(c: Collection, mac: string, self: Option<ObjectId>) {
    exists k | k in c :: c[k].macAddress == mac && Some(k) != self
  }

  /** Inserting under a new id with a MAC nobody holds keeps the index satisfied. */
  lemma InsertKeepsMacsUnique(c: Collection, id: ObjectId, doc: DeviceDoc)
    requires UniqueMacs(c) && id !in c && !MacTaken(c, doc.macAddress, None)
    ensures UniqueMacs(c[id := doc])
  {
  }

  /** Overwriting a document with a MAC no other document holds keeps the index satisfied. */
  lemma ReplaceKeepsMacsUnique(c: Collection, id: ObjectId, doc: DeviceDoc)
    requires UniqueMacs(c) && id in c && !MacTaken(c, doc.macAddress, Some(id))
    ensures UniqueMacs(c[id := doc])
  {
  }
}

# Network device inventory: a Dafny model of the Flask back end

This project models the REST back end of a network device inventory. The
back end keeps routers, switches, servers and similar devices in a MongoDB
collection. Each device has a name, an IPv4 address, a MAC address that must
be unique, a location and a type. The model covers:

- the `/devices` routes: list, create, read, update and delete (`Devices`);
- the `/devices/<id>/status` route, which pings the stored address (`Status`);
- the marshmallow schema (`Schemas`): the IPv4 and MAC validators, loading
  a request body and dumping a stored document;
- the `X-API-KEY` guard on the write routes (`Auth`);
- the settings read from the environment, including the ping flag and the
  CORS origin list (`Config`).

Supporting modules:

- `Text`: Python string semantics as the code relies on them: `split`,
  `join`, `strip`, ASCII `lower` and `int()`.
- `Regex`: a matcher for anchored patterns of the form
  `^(?:G{lo,hi}S){n}G{lo,hi}$`. It includes Python's rule that `$` also
  matches just before one final newline.
- `ObjectIds`: ObjectId text, meaning 24 hex digits in either case, printed
  in lower case.
- `Store`: the collection, as a map from id to document, and its unique
  `mac_address` index.
- `Responses`: the error payloads, with their codes and HTTP statuses.

The `/devices` handlers are methods of the class `Devices.DeviceService`,
whose field `docs` is the collection. The status route is the function
`Status.DeviceStatusGet`, which takes the collection as an argument. The database, the clock and the new ObjectId come
in as parameters:

- a failing database call is a `fault: bool` argument;
- a clock reading is a `Timestamp` argument;
- the new ObjectId is an argument.

A failure inside the handler's `try` gives `DB_ERROR`/500. A failure in a
lookup outside any `try` (the item GET and the status route) reaches Flask's
500 handler, which gives `SERVER_ERROR`/500. Inserting an existing id or a
MAC another document holds raises `DuplicateKeyError`, which gives
`DUPLICATE`/400. The class invariant `Valid` says that the MAC index holds
and every id is well formed. Every state-changing handler preserves it.

The create and update handlers have two versions:

- `CreateDevice` and `UpdateDevice` model the code with
  devices.py:54 and :107 corrected, so they read `data["device_type"]`.
- `CreateDeviceAsWritten` and `UpdateDeviceAsWritten` model the code as
  written: `data["type"]` raises KeyError for every body that loads, and
  Flask's 500 handler answers with the collection untouched.

See "## Findings".

Python's `$` lets one trailing newline through. So `"10.0.0.1\n"` passes the
IPv4 check: `int("1\n")` is 1. `"AA:BB:CC:DD:EE:FF\n"` passes the MAC check
too. The model keeps this behaviour and states it in `ValidateIpAccepts` and
`ValidateMacAccepts`.

## Model

| member | source | states |
|---|---|---|
| Regex.AnchoredMatchIff | FlaskBackendAPI/app/schemas.py:10-11 | the backtracking regex match holds iff the text is n+1 groups from the class joined by the separator, optionally followed by one newline |
| Regex.MatchesGroupsIffSplit | FlaskBackendAPI/app/schemas.py:10-11 | a full match of the groups-and-separators pattern is the same as splitting on the separator into n+1 well-formed groups |
| Regex.GroupsOfMatch | FlaskBackendAPI/app/schemas.py:10-11 | a matched text yields its groups: the split has n+1 groups, each of the right length and class, and they join back to the text |
| Regex.MatchOfGroups | FlaskBackendAPI/app/schemas.py:10-11 | joining n+1 well-formed groups gives a matching text that splits back into the same groups |
| Regex.MatchesGroupsLength | FlaskBackendAPI/app/schemas.py:10-11 | a matched text is between n(lo+1)+lo and n(hi+1)+hi characters long |
| Text.StripIdempotent | FlaskBackendAPI/app/config.py:34-38 | `strip()` applied twice equals `strip()` applied once |
| Text.LStripRemovesSpace | FlaskBackendAPI/app/config.py:34-38 | every character `lstrip()` removes from the front is whitespace |
| Text.RStripRemovesSpace | FlaskBackendAPI/app/config.py:34-38 | every character `rstrip()` removes from the end is whitespace |
| Text.JoinOfSplit | FlaskBackendAPI/app/config.py:38 | joining the pieces of `split(sep)` with `sep` gives back the text |
| Text.SplitOfJoin | FlaskBackendAPI/app/config.py:38 | splitting a join of separator-free pieces gives back the pieces |
| Text.PyIntOfDigits | FlaskBackendAPI/app/schemas.py:49 | `int()` of a digit string, with or without one trailing newline, is its decimal value |
| ObjectIds.ParseObjectId | FlaskBackendAPI/app/routes/devices.py:75-78 | a parsed id is well formed: 24 lower-case hex digits (assuming bson's rule for `ObjectId(text)`, which is outside this model, is 24 hex digits of either case) |
| ObjectIds.ParseIdString | FlaskBackendAPI/app/schemas.py:17-19 | the text `str(oid)` gives parses back to the same ObjectId |
| ObjectIds.IdStringOfParse | FlaskBackendAPI/app/routes/status.py:49 | parsing only normalises case: the id prints as the lower-cased request text, and that text parses to the same id |
| Store.InsertKeepsMacsUnique | FlaskBackendAPI/app/db.py:23 | inserting under a fresh id with a MAC no document holds keeps MACs unique |
| Store.ReplaceKeepsMacsUnique | FlaskBackendAPI/app/db.py:23 | overwriting a document with a MAC no other document holds keeps MACs unique |
| Schemas.ValidateIpAccepts | FlaskBackendAPI/app/schemas.py:42-50 | `validate_ip` passes iff the value is four groups of 1-3 digits, each at most 255 (leading zeros allowed), joined by dots, optionally followed by one newline |
| Schemas.Ipv4PiecesParse | FlaskBackendAPI/app/schemas.py:48-49 | once the regex matched, every piece of the split parses as an int, so `int()` cannot raise |
| Schemas.OctetAbove255Rejected | FlaskBackendAPI/app/schemas.py:48-50 | a well-shaped address with a group above 255 fails with "IPv4 octets must be between 0 and 255" |
| Schemas.Ipv4Length | FlaskBackendAPI/app/schemas.py:10 | an address the regex accepts has 7 to 16 characters |
| Schemas.LeadingZerosAccepted | FlaskBackendAPI/app/schemas.py:42-50 | "010.000.001.255" passes: the range check is on value, not canonical form |
| Schemas.OutOfRangeRejected | FlaskBackendAPI/app/schemas.py:48-50 | "999.1.1.1" fails with the range message |
| Schemas.ThreeGroupsRejected | FlaskBackendAPI/app/schemas.py:44-45 | "1.2.3" fails with the format message |
| Schemas.ValidateMacAccepts | FlaskBackendAPI/app/schemas.py:52-55 | `validate_mac` passes iff the value is six pairs of hex digits (either case) joined by colons, optionally followed by one newline |
| Schemas.MacLength | FlaskBackendAPI/app/schemas.py:11 | an accepted MAC is 17 characters, or 18 ending in a newline |
| Schemas.ThreePairMacRejected | FlaskBackendAPI/app/schemas.py:54-55 | "AA:BB:CC" fails with the MAC format message |
| Schemas.AttributeOf | FlaskBackendAPI/app/schemas.py:39 | each of the five data keys maps to one of the five attribute names |
| Schemas.LoadErrors | FlaskBackendAPI/app/schemas.py:34-40 | the error map has an entry exactly for each key that is unknown, missing, null, not a string or rejected by its validator |
| Schemas.AcceptableIffNoErrors | FlaskBackendAPI/app/schemas.py:34-40 | a body is accepted iff `load` records no error |
| Schemas.Load | FlaskBackendAPI/app/schemas.py:34-40 | `load` succeeds iff the body is an object with exactly the five string fields and both validators pass; the result has the five attribute keys, with `type` renamed to `device_type`; a failure carries at least one error |
| Schemas.LoadMembers | FlaskBackendAPI/app/schemas.py:34-40 | the same, for an object body, with the error map being exactly the recorded errors |
| Schemas.LoadRequiresEveryField | FlaskBackendAPI/app/schemas.py:35-39 | leaving out any one of the five fields fails with "Missing data for required field." under that key |
| Schemas.LoadRejectsId | FlaskBackendAPI/app/schemas.py:34 | a body carrying the dump-only `id` fails with "Unknown field." under `id` |
| Schemas.LoadReportsValidator | FlaskBackendAPI/app/schemas.py:42-55 | an address its validator rejects fails the load with that validator's message under its key |
| Schemas.LoadFalsyBody | FlaskBackendAPI/app/routes/devices.py:42 | a falsy body becomes `{}`, which fails with the missing-data message for exactly the five fields |
| Schemas.SerializeId | FlaskBackendAPI/app/schemas.py:17-22 | `_serialize` gives a string exactly for an ObjectId or a string, and passes strings through |
| Schemas.SerializedIdParses | FlaskBackendAPI/app/schemas.py:17-19 | the id a client receives parses back to the stored ObjectId |
| Schemas.EnsureIdStrKeepsSerializedId | FlaskBackendAPI/app/schemas.py:57-62 | `ensure_id_str` leaves every value `_serialize` can produce unchanged, and a None id stays None |
| Schemas.Dump | FlaskBackendAPI/app/schemas.py:31-40 | a dumped device has exactly the keys id, name, ip_address, mac_address, location and type, and no timestamps; its id is the serialised ObjectId and the rest are the document's fields |
| Schemas.DumpRenamesType | FlaskBackendAPI/app/schemas.py:39-40 | each dumped field carries the attribute of the same field; `type` carries `device_type` |
| Schemas.LoadFieldsOf | FlaskBackendAPI/app/schemas.py:31-55 | loading the dumped fields of a document with valid addresses gives back its attributes |
| Schemas.DumpLoadRoundTrip | FlaskBackendAPI/app/schemas.py:31-62 | dump without `id` followed by load gives back the document's attributes, while the full dump is refused because of `id` |
| Responses.ErrorStatus | FlaskBackendAPI/app/routes/devices.py:36-139 | statuses are 401, 400, 404 or 500; 500 exactly for DB_ERROR and SERVER_ERROR, 404 exactly for NOT_FOUND |
| Responses.CodeNamesDistinct | FlaskBackendAPI/app/routes/devices.py:36-139 | no two error codes share a wire name |
| Auth.Guard | FlaskBackendAPI/app/auth.py:7-23 | a refusal is always the UNAUTHORIZED payload with status 401 |
| Auth.GuardAdmitsIff | FlaskBackendAPI/app/auth.py:7-23 | the wrapped view runs iff no key is configured or the header equals the key |
| Auth.DevModeAdmitsAll | FlaskBackendAPI/app/auth.py:11-14 | with API_KEY unset or empty every request runs |
| Auth.MissingKeyRefused | FlaskBackendAPI/app/auth.py:16-22 | with a key configured, a missing or empty header is refused |
| Auth.WrongKeyRefused | FlaskBackendAPI/app/auth.py:17-22 | with a key configured, any other header value is refused |
| Config.Getenv | FlaskBackendAPI/app/config.py:16-27 | `os.getenv` returns the variable if it is set and the default otherwise |
| Config.GetenvOpt | FlaskBackendAPI/app/config.py:20-21 | `os.getenv` without a default is None exactly when the variable is unset |
| Config.PingFlagIff | FlaskBackendAPI/app/config.py:30 | the ping flag is on exactly for "1", and for "true" or "yes" in any mix of cases |
| Config.PingFlagDefaultOff | FlaskBackendAPI/app/config.py:30 | the default "false" leaves pinging off |
| Config.Kept | FlaskBackendAPI/app/config.py:38 | one comma piece contributes its stripped text if that is non-empty, and nothing otherwise |
| Config.CorsOrigins | FlaskBackendAPI/app/config.py:34-38 | a value that strips to "*" gives ["*"]; any other value gives the non-empty stripped comma pieces |
| Config.CorsOriginsAreClean | FlaskBackendAPI/app/config.py:34-38 | every origin in the list is non-empty and has no surrounding whitespace |
| Config.CleanOriginsAppend | FlaskBackendAPI/app/config.py:38 | the cleaning keeps the order of the pieces |
| Config.CleanOriginsMembership | FlaskBackendAPI/app/config.py:38 | an origin is listed iff it is a non-empty stripped piece |
| Config.CorsRoundTrip | FlaskBackendAPI/app/config.py:34-38 | a list of clean, comma-free origins written comma-separated reads back as the same list |
| Config.LoadConfig | FlaskBackendAPI/app/config.py:11-38 | the settings load iff `int()`, as `Text.PyInt` models it (optional sign, ASCII digits, surrounding whitespace), accepts FLASK_RUN_PORT (default "3001"), otherwise ValueError on that text; the port is the parsed value, the API key is API_KEY as `os.getenv` returns it (None when unset), and the ping flag and origin list follow their variables |
| Config.DefaultConfig | FlaskBackendAPI/app/config.py:16-38 | with nothing set: port 3001, host 0.0.0.0, no key, no rate limit, the local MongoDB URI, database device_inventory, collections devices and logs, pinging off, origins ["*"] |
| Config.CorsDefaultWildcard | FlaskBackendAPI/app/config.py:34-36 | an unset CORS variable allows every origin |
| Devices.NewDeviceDoc | FlaskBackendAPI/app/routes/devices.py:49-57 | with devices.py:54 corrected to read `device_type`: the inserted document holds exactly the loaded attributes and both clock readings |
| Devices.UpdatedDoc | FlaskBackendAPI/app/routes/devices.py:102-109 | with devices.py:107 corrected to read `device_type`: the `$set` replaces the five attributes and `updated_at`, and keeps `created_at` |
| Devices.CreatedDocRoundTrip | FlaskBackendAPI/app/routes/devices.py:45-63 | with devices.py:54 corrected to read `device_type`: the created document carries the loaded attributes, and its dump without id is the request body |
| Devices.NewDeviceDocAsWritten | FlaskBackendAPI/app/routes/devices.py:49-57 | building the document as written succeeds iff the loaded data has the key `type` along with the other four |
| Devices.UpdatedDocAsWritten | FlaskBackendAPI/app/routes/devices.py:102-109 | building the `$set` document as written succeeds iff the loaded data has the key `type` along with the other four |
| Devices.AsWrittenRaisesOnValidBody | FlaskBackendAPI/app/routes/devices.py:54 | for every body that loads, the as-written create and update raise KeyError |
| Devices.DumpEach | FlaskBackendAPI/app/routes/devices.py:34 | the comprehension has one entry per document |
| Devices.DumpEachListsAll | FlaskBackendAPI/app/routes/devices.py:33-34 | a listing over distinct ids covering the collection contains every document's dump, and nothing else |
| Devices.DeviceService.constructor | FlaskBackendAPI/app/routes/devices.py:31 | a fresh service has an empty collection that satisfies the invariant |
| Devices.DeviceService.ListDevices | FlaskBackendAPI/app/routes/devices.py:29-36 | on a fault: DB_ERROR; otherwise 200 with as many entries as documents, each document's dump listed and every entry the dump of some document |
| Devices.DeviceService.CreateDeviceAsWritten | FlaskBackendAPI/app/routes/devices.py:38-57 | as written: 401 for a refused key, VALIDATION_ERROR for a body that does not load, and SERVER_ERROR/500 (the KeyError on `data["type"]`) for every body that loads; the collection is never changed |
| Devices.DeviceService.CreateDevice | FlaskBackendAPI/app/routes/devices.py:38-67 | with line 54 corrected to read `device_type`: checks run in order (key, then load, then database): 401, 400 VALIDATION_ERROR, 500 DB_ERROR, 400 DUPLICATE for a taken id or MAC, otherwise 201 with the dump and the collection gains exactly the new document; MACs stay unique |
| Devices.DeviceService.GetDevice | FlaskBackendAPI/app/routes/devices.py:72-84 | a malformed id gives INVALID_ID; a lookup failure gives SERVER_ERROR; an absent id gives NOT_FOUND; otherwise 200 with the stored document's dump |
| Devices.DeviceService.UpdateDeviceAsWritten | FlaskBackendAPI/app/routes/devices.py:86-109 | as written: 401, INVALID_ID, VALIDATION_ERROR as before, and SERVER_ERROR/500 (the KeyError on `data["type"]`) for every valid id and loadable body; the collection is never changed |
| Devices.DeviceService.UpdateDevice | FlaskBackendAPI/app/routes/devices.py:86-121 | with line 107 corrected to read `device_type`: checks run in order (key, id, load, database, match, MAC): 401, INVALID_ID, VALIDATION_ERROR, DB_ERROR, NOT_FOUND, DUPLICATE when another document holds the MAC; otherwise 200 with the updated dump and only that document changed; MACs stay unique |
| Devices.DeviceService.DeleteDevice | FlaskBackendAPI/app/routes/devices.py:123-139 | 401, INVALID_ID, DB_ERROR, NOT_FOUND for an absent id; otherwise 204 and exactly that document removed |
| Devices.CreateScenario | FlaskBackendAPI/app/routes/devices.py:38-84 | with devices.py:54 corrected to read `device_type` (as written every such create gives SERVER_ERROR/500): create gives 201 with the id's text and the request body back; repeating it with the same MAC under another id gives DUPLICATE; a read returns what the create returned |
| Devices.DeleteScenario | FlaskBackendAPI/app/routes/devices.py:123-139 | after a 204 delete of a device set up by the corrected create (devices.py:54 reading `device_type`), both a read and a second delete of the id give NOT_FOUND |
| Status.Ping | FlaskBackendAPI/app/routes/status.py:19-28 | online iff pinging is enabled and the probe replied with success; an exception counts as offline |
| Status.StatusText | FlaskBackendAPI/app/routes/status.py:50 | the status is "online" or "offline", "online" exactly when the ping succeeded |
| Status.DeviceStatusGet | FlaskBackendAPI/app/routes/status.py:34-53 | INVALID_ID for a malformed id, SERVER_ERROR on a lookup failure, NOT_FOUND for an absent id; a 200 report is stamped with the handler's clock reading |
| Status.StatusOfStoredDevice | FlaskBackendAPI/app/routes/status.py:46-53 | for a stored device the report carries the lower-cased request id and is "online" iff pinging is on and the ping of the stored address succeeded |
| Status.DisabledMeansOffline | FlaskBackendAPI/app/routes/status.py:21-22 | with pinging disabled every stored device is offline |

## Left out

- Connecting to MongoDB and creating indexes (`db.py`) are left out. The collection is a map, and only the unique MAC index (db.py:23) is modelled, as `Store.UniqueMacs`. The other indexes only speed up lookups.
- Fault injection: a database failure is one `fault` flag per request. Its moment is fixed: before a write, or at the lookup. A failure after a write has taken effect is not modelled.
- The `details` text of error responses (`str(e)`) is left out. It is text from the driver or marshmallow and is not part of any contract.
- The clock: `datetime.utcnow()` readings are `Timestamp` arguments. The ISO formatting of `last_checked` (`isoformat_last_checked`) and DateTime dumping are left out.
- The ping itself (`pythonping`) is a network call. Its outcome per address is the `probe` argument.
- The environment: the model assumes it does not change after start-up. It is a map argument to `Config.LoadConfig`. In the source the class-level settings (config.py:16-30) are fixed when the module is imported. CORS_ALLOWED_ORIGINS is read again by `__post_init__` (config.py:33-38) on every `get_config()` call, and auth.py:11 and status.py:20 make that call on each request. A change to that variable while the server runs is not modelled. `load_dotenv` is left out.
- The process-wide handlers stay out: application wiring in `__init__.py`, CORS registration, OpenAPI metadata, the 400/404 handlers of Flask itself, the health and docs routes, and `generate_openapi.py` and `run.py`. The 500 handler is modelled as `Responses.InternalError`.
- Concurrency is left out: every request runs to completion alone.
- The order in which `find({})` returns documents is left out. `Devices.DeviceService.ListDevices` picks them in an unspecified order, and its contract states membership and count, not order.
- The request body is modelled as already-decoded JSON. Numbers, booleans, arrays and nested objects are `JOther`, kept only as their text.
- Config.LoadConfig: a FLASK_RUN_PORT that Python's `int()` accepts only through underscores between digits (such as "3_001") or non-ASCII decimal digits is modelled as a ValueError, whereas Python starts on that port.
- Text.PyInt: underscores between digits and non-ASCII decimal digits are not accepted, though Python's `int()` accepts them. The validator only reaches `int()` with ASCII digits, so this changes no IPv4 verdict.
- Text.Lower: only ASCII letters are lowered. No non-ASCII character lowers into the letters of "1", "true" or "yes", or into a hex digit, so neither the ping flag nor ObjectId parsing changes.
- ObjectIds.ParseObjectId: the bson library is not part of this model. The rule that `ObjectId(text)` accepts exactly 24 hex digits of either case, and that `str()` prints them in lower case, is an assumption about bson, not something the repository's code states. The 12-byte form of `ObjectId(bytes)` cannot come from a URL.
- Schemas.Load: the schema behaviour modelled is that of marshmallow 3, which no file of the repository pins. This covers three things: a dump-only `id` refused on load as "Unknown field.", the exact error messages, and `@validates` hooks called with the value alone. Under marshmallow 4 the hooks also receive `data_key=`, which `validate_ip(self, value)` does not accept.
- Schemas.Load: when several fields are wrong, the error map's entries are those marshmallow records. Its rendering by `str(e)` into `details` is not modelled.

## Findings

| source | as written | input that shows it | evidently intended | confidence | as-written member | corrected member |
|---|---|---|---|---|---|---|
| FlaskBackendAPI/app/routes/devices.py:54 and :107 | `post` and `put` read `data["type"]`, but `DeviceSchema.load` returns the field under its attribute name `device_type`. The KeyError is raised outside the `try` blocks, so every valid create or update ends in 500 SERVER_ERROR and nothing is written | POST /devices with `{"name": "r1", "ip_address": "10.0.0.1", "mac_address": "AA:BB:CC:DD:EE:FF", "location": "lab", "type": "router"}` | read `data["device_type"]`, store it as `device_type`, and answer 201 (or 200 for an update) | not executed | Devices.DeviceService.CreateDeviceAsWritten | Devices.NewDeviceDoc |

# Device identity gateway and bulk synchronisation engine, in Dafny

A verified model of the core of a FastAPI gateway in front of an Azure IoT Hub
device registry:

- **Normalisation** (`Normalize`, `Text`). CSV header cleaning strips the header, then deletes U+FEFF. Device status folding maps any input to `"enabled"` or `"disabled"`.
- **CSV post-processing** (`CsvParser`). A header row and data rows become device records `(id, status)`. The modelled behaviour is the row dictionary `csv.DictReader` builds, including duplicate headers and short rows.
- **Batch engine** (`DeviceQueue`). `enqueue_devices` queues one creation per distinct id. `fetch_devices_info` and `delete_devices_bulk` walk a list of ids and record each per-id failure instead of stopping. These are modelled as methods with loops, proved against specification functions. The `found` and `errors` dicts they return are modelled with their key order, which Python keeps as the order of first insertion and the JSON reply shows.
- **Registry client** (`RegistryHttp`). The pure part of the HTTP client: URLs, headers, the create payload, and how each reply becomes a return value or an exception.
- **SAS tokens** (`SasToken`, `AppSas`). The token generator, and the process-wide token cache as a class whose fields are the module's two globals. The older copy in `app/iothub_sas.py` has globals of its own, so it gets its own class.
- **Telemetry consumer** (`EventHubConsumer`). The lifecycle of `EventHubConsumerService`: the `_started` guard, the stop flag, and the client. It is a class whose `Start` runs the actions that happen while `receive()` blocks, in the order they happen.
- **The older device service** (`Devices`). Its own copies of the header normaliser, the CSV row loop and the enqueue loop, each written out again. The normaliser is proved equal to the `app/utils` one, and each loop is proved against the same specification functions as the `app/utils` loop.

Each loop method is specified by a function of its inputs (`Parsed`, `Created`, `FetchAll`, `CacheStep`, `StartStep`, …). The lemmas state what the source promises about those functions.

The clock, the registry's replies, the cryptographic and encoding primitives and the Event Hub SDK are parameters:

- **Clock.** The cache's reading is `now`; the generator's own reading is `genNow`.
- **Registry replies.** `replyTo(i)` is the reply to the `i`-th request of a batch.
- **Primitives.** The `Primitives` datatype holds UTF-8, `quote_plus`, base64 and HMAC-SHA256.
- **Event Hub SDK.** It becomes a log of the calls made on it.

Two behaviours of the code are easy to miss, and the model keeps both as written:

- **Failed client creation.** A failure to create the Event Hub client happens outside the `try`/`finally` of `start()`. It leaves `_started` set, and every later `start()` is refused (`CreateFailureBlocksRestart`).
- **`null` device document.** `get_identity_device` also returns `None` for a 2xx reply whose body is JSON `null`, not only for a 404 (`GetIdentityOutcome`).

## Model

| member | source | states |
|---|---|---|
| Text.Strip | app/utils/normalize.py:4 | Python's `str.strip()`. The result has no white space at either end, and a string already without white space at its ends is unchanged. |
| Text.StripIsSlice | app/utils/normalize.py:4 | `strip()` returns a contiguous slice of its input, and everything cut off is white space. |
| Text.StripIdempotent | app/utils/normalize.py:4 | Stripping twice is stripping once. |
| Text.StripRemovesPadding | app/utils/normalize.py:11 | White space of any length around a word with non-space ends is removed exactly. |
| Text.RemoveAll | app/utils/normalize.py:4 | `replace(c, "")`: the result contains no `c` and keeps every other character with its multiplicity. |
| Text.RemoveAllKeepsOrder | app/utils/normalize.py:4 | `replace(c, "")` works piece by piece: on a concatenation it is the concatenation of the results, a lone `c` is deleted and any other lone character kept, so the kept characters stay in order. |
| Text.StripEmptyIffAllSpace | app/utils/csv_parser.py:17-20 | `strip()` gives `""` exactly when the string is all white space. |
| Text.Lower | app/utils/normalize.py:11 | `lower()`: same length, with each character folded. |
| Text.DecimalRoundTrip | app/services/iothub/iothub_sas.py:40 | The decimal rendering of the expiry (`f"{expiry}"`) reads back as the same integer. |
| Normalize.CleanHeader | app/utils/normalize.py:4 | One cleaned header contains no U+FEFF and is no longer than the original. |
| Normalize.NormalizeHeaders | app/utils/normalize.py:1-4 | `None` or `[]` gives `[]`. Otherwise the length is preserved, each element is the cleaned header at the same position, and no element contains U+FEFF. |
| Normalize.FalsyHeadersGiveEmpty | app/utils/normalize.py:2-3 | Both `None` and the empty list normalise to `[]`. |
| Normalize.CleanHeaderKeepsCleanName | app/utils/normalize.py:4 | A header without surrounding white space or BOM is unchanged. |
| Normalize.BomPrefixedHeaderMatches | app/utils/normalize.py:4 | A BOM directly before a clean header name is removed, so the name matches. |
| Normalize.StripHappensBeforeBomRemoval | app/utils/normalize.py:4 | Strip runs before BOM deletion, so `"\ufeff DeviceId"` becomes `" DeviceId"`, which is not trimmed. |
| Normalize.NormalizeDeviceStatus | app/utils/normalize.py:7-20 | The result is always "enabled" or "disabled". It is "disabled" exactly when the status is present and its trimmed, lower-cased form is one of disable/disabled/false/0. |
| Normalize.BlankIsEnabled | app/utils/normalize.py:8-20 | An empty or white-space-only status gives "enabled". |
| Normalize.UnrecognisedIsEnabled | app/utils/normalize.py:19-20 | Any value whose canonical form is not a disable word falls back to "enabled". |
| Normalize.NormalizeDeviceStatusIdempotent | app/utils/normalize.py:7-20 | Normalising an already normalised status changes nothing. |
| Normalize.CaseAndPaddingIgnored | app/utils/normalize.py:11 | Two statuses with the same trimmed, lower-cased form normalise alike. |
| Normalize.DisableWordsDisable | app/utils/normalize.py:16-17 | Each disable word maps to "disabled". |
| Normalize.EnableWordsEnable | app/utils/normalize.py:13-14 | Each enable word maps to "enabled". |
| Normalize.PaddedUpperCaseDisables | app/utils/normalize.py:11-17 | `" DISABLED\t"` maps to "disabled". |
| CsvParser.RowDict | app/utils/csv_parser.py:16 | The row dictionary `csv.DictReader` builds. Its keys are exactly the headers. Every header at a position past the end of a short row maps to `None`. A header whose last occurrence lies within the row maps to the cell at that position. |
| CsvParser.Cell | app/utils/csv_parser.py:17-18 | `row.get(key) or ""`: the text is `""` exactly when the column is missing, its cell is `None` or the cell is empty; any other text is the cell itself. |
| CsvParser.ParseRow | app/utils/csv_parser.py:17-23 | A row gives no record exactly when its `DeviceId` column is missing, its cell is `None`, or the cell is all white space. A kept id is non-empty with no white space at either end. The status is `None` exactly when its column is missing, `None` or all white space; otherwise it is non-empty with no white space at either end. |
| CsvParser.ParseRowCutsOnlySpace | app/utils/csv_parser.py:17-18 | A kept id is a slice of its cell with only white space cut from either end, and so is a kept status. |
| CsvParser.Parsed | app/utils/csv_parser.py:14-25 | The output is no longer than the row list. |
| CsvParser.ParseCsvDevices | app/utils/csv_parser.py:7-25 | The loop returns `Parsed` of the normalised headers. Every returned id is non-empty and already stripped. |
| CsvParser.ParsedKeepsExactlyNonBlankRows | app/utils/csv_parser.py:16-23 | Records come from strictly increasing row positions, each carrying that row's record. Every other row has a blank stripped id, so rows are kept in order and only blank ids are dropped. |
| CsvParser.ParsedIdsAreClean | app/utils/csv_parser.py:17-21 | Every returned id is non-empty and equals its own strip. |
| CsvParser.SingleRow | app/utils/csv_parser.py:16-23 | A single data row yields its record, or nothing. |
| CsvParser.BomHeaderRowNormalises | app/utils/csv_parser.py:12 | The header row `["\ufeffDeviceId", "Status"]` normalises to `["DeviceId", "Status"]`. |
| CsvParser.ExampleRowRecord | app/utils/csv_parser.py:17-18 | The row `pod-1,enabled` under those headers gives `("pod-1", "enabled")`. |
| CsvParser.BomHeaderExample | app/utils/csv_parser.py:12-25 | A BOM-prefixed id header still matches, so the file yields the record. |
| CsvParser.MissingStatusColumnExample | app/utils/csv_parser.py:18 | Without a Status column the status is `None`. |
| CsvParser.RepeatedIdsKept | app/utils/csv_parser.py:16-23 | Two equal rows give two equal records, so duplicates are not removed here. |
| CsvParser.EmptyIdRowDropped | app/utils/csv_parser.py:20-21 | A row whose id cell is empty is dropped. |
| RegistryHttp.HeaderValue | app/services/iothub/iothub_http.py:30-33 | Header lookup finds a value exactly when a header of that name is present. |
| RegistryHttp.C2dUrl | app/services/iothub/iothub_http.py:21-25 | The cloud-to-device URL is the device URL with `/messages/deviceBound` inserted after the id. |
| RegistryHttp.DeviceIdOf | app/services/iothub/iothub_http.py:46-50 | Any URL it accepts is the device URL of the id it returns. |
| RegistryHttp.DeviceUrl | app/services/iothub/iothub_http.py:46-50 | The URL is `https://{host}/devices/`, then the id unescaped, then `?api-version=2021-04-12`; each piece sits at its own position, so `DeviceUrlRoundTrip` reads the id back. |
| RegistryHttp.DeviceUrlRoundTrip | app/services/iothub/iothub_http.py:46-50 | `https://{host}/devices/{id}?api-version=2021-04-12` reads back as `id`. |
| RegistryHttp.DeviceUrlInjective | app/services/iothub/iothub_http.py:78-82 | Distinct ids get distinct URLs on the same hub. |
| RegistryHttp.CreatePayload | app/services/iothub/iothub_http.py:52-62 | `deviceId` is the pod id. The status is the normalised status ("disabled" exactly for the disable words). Authentication has type "sas" and empty primary and secondary keys. |
| RegistryHttp.RequestsTargetTheirDevice | app/services/iothub/iothub_http.py:21-105 | Create (PUT), get (GET) and delete (DELETE) address the device's own URL, and the message send (POST) addresses its `deviceBound` path. |
| RegistryHttp.EveryRequestAuthorized | app/services/iothub/iothub_http.py:28-113 | Every request carries the SAS token as `Authorization` and declares JSON content. |
| RegistryHttp.OnlyDeleteSendsIfMatch | app/services/iothub/iothub_http.py:109-113 | Only the delete sends `If-Match: *`. |
| RegistryHttp.CreateRequest | app/services/iothub/iothub_http.py:40-71 | The PUT body is a device document naming the pod id, with status "disabled" exactly when a status is given and its canonical form is a disable word. |
| RegistryHttp.GetRequest | app/services/iothub/iothub_http.py:75-90 | The lookup has no body, and uses the same URL and the same headers as the create for that id. |
| RegistryHttp.DeleteRequest | app/services/iothub/iothub_http.py:98-114 | The delete has no body and targets the same URL as the lookup. Its headers are covered by `EveryRequestAuthorized` and `OnlyDeleteSendsIfMatch`. |
| RegistryHttp.SendRequest | app/services/iothub/iothub_http.py:17-35 | The POST body is the serialised payload unchanged, the URL is the device URL of `id + "/messages/deviceBound"`, and the headers are those of the lookup. |
| RegistryHttp.RaiseForStatus | app/services/iothub/iothub_http.py:37 | Nothing escapes exactly for a 2xx reply. A transport failure or a non-2xx status escapes as itself. |
| RegistryHttp.GetIdentityOutcome | app/services/iothub/iothub_http.py:92-96 | A 404 is `None`. Any other non-2xx status or transport failure raises. A 2xx returns the document, `None` for a JSON `null` body, and raises for a body that does not decode. |
| RegistryHttp.DeleteOutcome | app/services/iothub/iothub_http.py:116-117 | It succeeds exactly on a 2xx reply, and an escaping error is the one `raise_for_status` raised. |
| RegistryHttp.DeleteNeverReturnsFalse | app/services/iothub/iothub_http.py:116-117 | The delete returns `True` or raises. It never returns `False`. |
| RegistryHttp.CreateOutcome | app/services/iothub/iothub_http.py:73 | `create_device` succeeds exactly on a 2xx reply. |
| RegistryHttp.SendOutcome | app/services/iothub/iothub_http.py:37 | `send_c2d_message` succeeds exactly on a 2xx reply. |
| RegistryHttp.MissingDeviceOutcomes | app/services/iothub/iothub_http.py:92-116 | A 404 is "not found" to the lookup but an error to the delete. |
| DeviceQueue.Ids | app/utils/device_queue.py:16 | The ids of the records, position by position. |
| DeviceQueue.EnqueueDevices | app/utils/device_queue.py:8-25 | `created` is `Created(ids)` and `duplicated` is `Duplicated(ids)`. Exactly `Queued(devices)` is appended to the background tasks. |
| DeviceQueue.FirstIndex | app/utils/device_queue.py:17 | Returns the position of an id's first occurrence: that position holds the id and no earlier one does. |
| DeviceQueue.FirstIndexUnique | app/utils/device_queue.py:17 | A position holding an id with no earlier occurrence is that id's first index. |
| DeviceQueue.CreatedPlusDuplicatedIsAll | app/utils/device_queue.py:16-23 | `len(created) + len(duplicated) == len(devices)`. |
| DeviceQueue.Created | app/utils/device_queue.py:12-23 | `created` is no longer than the input. `CreatedIsDistinctIds` and `CreatedInFirstOccurrenceOrder` give its contents and order. |
| DeviceQueue.Duplicated | app/utils/device_queue.py:16-19 | `duplicated` is no longer than the input. `DuplicatedAreLaterOccurrences` and `CreatedPlusDuplicatedIsAll` give its contents. |
| DeviceQueue.Queued | app/utils/device_queue.py:21-22 | At most one task per record. `QueuedFollowsCreated` and `QueuedCarriesFirstStatus` give the tasks. |
| DeviceQueue.CreatedIsDistinctIds | app/utils/device_queue.py:12-23 | `created` has no repeated id, and contains exactly the input ids. |
| DeviceQueue.CreatedInFirstOccurrenceOrder | app/utils/device_queue.py:16-23 | `created` is ordered by each id's first occurrence. |
| DeviceQueue.DuplicatedAreLaterOccurrences | app/utils/device_queue.py:17-19 | `duplicated` is read off at increasing positions, each a repeat, and every repeat position appears: all later occurrences, in input order. |
| DeviceQueue.DuplicatedWereCreated | app/utils/device_queue.py:17-23 | Every duplicated id is also in `created`. |
| DeviceQueue.QueuedFollowsCreated | app/utils/device_queue.py:21-23 | One task per created id, in the same order. |
| DeviceQueue.QueuedCarriesFirstStatus | app/utils/device_queue.py:21-22 | Each task carries the status of its id's first record, so later statuses are discarded. |
| DeviceQueue.FetchAll | app/utils/device_queue.py:28-49 | After `n` lookups, `not_found` holds at most `n` ids. `FetchNotFoundInOrder`, `FoundKeysInFirstOrder`, `LookupErrorKeysInFirstOrder` and `FetchClassifiesEachId` give the three parts. |
| DeviceQueue.FetchDevicesInfo | app/utils/device_queue.py:28-49 | The loop returns `FetchAll` of all ids, and no per-id exception escapes. |
| DeviceQueue.Put | app/utils/device_queue.py:41-43 | `d[k] = v` sets the entry, keeps every earlier key in its place, and adds at most one key at the end. |
| DeviceQueue.PutFollowsFirstInsertion | app/utils/device_queue.py:41-43 | A loop step that sets `d[x]` when it marks `x` keeps the dict holding exactly the marked ids, each listed once, in the order of its first insertion. |
| DeviceQueue.CreatedOfDistinct | app/utils/device_queue.py:41-43 | With no id repeated, the first occurrences are all the ids in order, so insertion order is input order. |
| DeviceQueue.FoundMarks | app/utils/device_queue.py:40-41 | Marks exactly the lookups that returned a document. |
| DeviceQueue.LookupErrorMarks | app/utils/device_queue.py:42-43 | Marks exactly the lookups that raised. |
| DeviceQueue.FoundKeysInFirstOrder | app/utils/device_queue.py:31-43 | `found` holds exactly the ids whose lookup returned a document, its keys listed in the order of each id's first such lookup. |
| DeviceQueue.LookupErrorKeysInFirstOrder | app/utils/device_queue.py:33-43 | `errors` holds exactly the ids whose lookup raised, its keys listed in the order of each id's first failure. |
| DeviceQueue.FetchKeysInInputOrder | app/utils/device_queue.py:31-48 | For distinct ids, the keys of `found` and `errors` are in input order. |
| DeviceQueue.FetchReportsOnlyInputIds | app/utils/device_queue.py:35-43 | Every key of `found` and `errors`, and every entry of `not_found`, is an input id. |
| DeviceQueue.FetchClassifiesEachId | app/utils/device_queue.py:35-43 | For distinct ids, each id is in `found` (with its document), in `not_found`, or in `errors` (with its exception), exactly as its own lookup decided. The loop goes on after errors. |
| DeviceQueue.NotFoundMarks | app/utils/device_queue.py:38-39 | Marks exactly the lookups that returned `None`. |
| DeviceQueue.FetchNotFoundInOrder | app/utils/device_queue.py:35-39 | `not_found` lists the ids whose lookup returned `None`, in input order. |
| DeviceQueue.DeleteAll | app/utils/device_queue.py:51-72 | `not_found` of a bulk delete is always empty, because a deletion returns `True` or raises (lines 60-64 never take the `else`). `DeletedInOrder` and `DeleteErrorKeysInFirstOrder` give `deleted` and `errors`. |
| DeviceQueue.DeleteDevicesBulk | app/utils/device_queue.py:51-72 | The loop returns `DeleteAll` of all ids, and no per-id exception escapes. |
| DeviceQueue.DeletedMarks | app/utils/device_queue.py:60-62 | Marks exactly the deletions that succeeded. |
| DeviceQueue.DeletedInOrder | app/utils/device_queue.py:58-62 | `deleted` lists, in input order, the ids whose deletion got a 2xx reply. |
| DeviceQueue.DeleteErrorsOnlyInputIds | app/utils/device_queue.py:65-66 | Every error key is an input id. |
| DeviceQueue.DeleteErrorMarks | app/utils/device_queue.py:65-66 | Marks exactly the deletions that raised. |
| DeviceQueue.DeleteErrorKeysInFirstOrder | app/utils/device_queue.py:56-66 | `errors` holds exactly the ids whose deletion raised, its keys listed in the order of each id's first failure. |
| DeviceQueue.DeleteErrorKeysInInputOrder | app/utils/device_queue.py:56-71 | For distinct ids, the keys of `errors` are in input order. |
| DeviceQueue.DeleteErrorsPerId | app/utils/device_queue.py:58-66 | For distinct ids, an id is in `errors`, with its exception, exactly when its own deletion raised, whatever happened to the other ids. |
| DeviceQueue.EnqueueExample | app/utils/device_queue.py:16-23 | `[A, A(disabled), B(bogus)]` creates `[A, B]` and duplicates `[A]`. A is queued with no status and B with "bogus", which the registry payload turns into "enabled". |
| Devices.NormalizeHeaders | app/services/devices.py:8-11 | This copy gives `[]` when falsy, preserves the length, and no element contains U+FEFF. |
| Devices.NormalizeHeadersCopiesAgree | app/services/devices.py:8-11 | It agrees with the `app/utils` copy on every input. |
| Devices.ParseCsvDevices | app/services/devices.py:14-32 | This copy of the row loop, written out again, returns `Parsed` of its own normalised headers, which is what the `app/utils` parser returns; every id is non-empty and stripped. |
| Devices.EnqueueDevices | app/services/devices.py:35-52 | This copy of the enqueue loop, written out again, returns `Created` and `Duplicated` of the ids and queues `Queued`, exactly as the `app/utils` copy does. |
| SasToken.GenerateSasToken | app/services/iothub/iothub_sas.py:22-60 | It succeeds exactly when the key decodes as base64, and a token starts with `SharedAccessSignature `. |
| SasToken.Render | app/services/iothub/iothub_sas.py:54-60 | A rendered token starts with `SharedAccessSignature `. `RenderRoundTrip` reads its four fields back. |
| SasToken.RenderRoundTrip | app/services/iothub/iothub_sas.py:54-60 | `sr=…&sig=…&se=…&skn=…` reads back as its four fields when none contains `&`. |
| SasToken.GeneratedTokenFields | app/services/iothub/iothub_sas.py:33-60 | For a key that decodes and a policy name without `&`, a generated token reads back with `sr` = `quote_plus(uri)`, `se` = the decimal text of generator clock + `expiry_seconds` (which reads back as that number), and `skn` = the policy name. `sig` is the quoted base64 HMAC of `sr + "\n" + se` under the decoded key. |
| SasToken.CacheStep | app/services/iothub/iothub_sas.py:63-88 | A reusable cache is returned unchanged. Otherwise the cached expiry becomes `now + 3600` and the call returns a freshly generated token (or the generator's exception); a generated token replaces the cached one, and a failed generation keeps the old one. |
| SasToken.SasCache.GetCachedSasToken | app/services/iothub/iothub_sas.py:63-88 | The returned token and the new globals are `CacheStep` of the old globals. |
| SasToken.FirstCallGenerates | app/services/iothub/iothub_sas.py:74-88 | From the initial globals the first call generates a token and sets the expiry to `now + 3600`. |
| SasToken.ReturnedTokenIsCached | app/services/iothub/iothub_sas.py:74-88 | A returned token is the cached token afterwards. |
| SasToken.Reusable | app/services/iothub/iothub_sas.py:74 | A cached token is reused only when it is present and non-empty (an empty string is falsy). Such a token is reused whenever now is strictly before expiry − 60, and never from expiry − 60 on. |
| SasToken.ServedTokenHasMargin | app/services/iothub/iothub_sas.py:74 | A token handed out has more than 60 s left on the cached expiry. |
| SasToken.GeneratedTokenIsTruthy | app/services/iothub/iothub_sas.py:54-60 | A generated token is never empty, so the truthiness test sees it. |
| SasToken.SameNowSameToken | app/services/iothub/iothub_sas.py:74-78 | Two calls at the same `now` return the same token, and the second leaves the cache alone. |
| SasToken.FailedRefreshKeepsOldToken | app/services/iothub/iothub_sas.py:77-86 | If the generator raises, the new expiry is already recorded beside the old token. |
| SasToken.TokenExpiryFollowsGeneratorClock | app/services/iothub/iothub_sas.py:33-78 | The token's `se` is the generator's clock + 3600, while the cached expiry is the cache's clock + 3600. |
| AppSas.GenerateSasToken | app/iothub_sas.py:17-44 | This copy succeeds exactly when the key decodes. |
| AppSas.GeneratorCopiesAgree | app/iothub_sas.py:17-44 | It produces the same token as the services copy on every input. |
| AppSas.AppSasCache.GetCachedSasToken | app/iothub_sas.py:47-65 | This copy's globals follow the same `CacheStep`. |
| AppSas.CachesAreIndependent | app/iothub_sas.py:13-14 | A call on this module's cache leaves the services module's cache unchanged. |
| EventHubConsumer.StopStep | app/services/iothub/iothub_consumer.py:110-127 | After `stop()` the flag is set, and started and the client are untouched. |
| EventHubConsumer.EventStep | app/services/iothub/iothub_consumer.py:23-46 | `on_event` changes nothing, or adds exactly one checkpoint of that event. |
| EventHubConsumer.RunActions | app/services/iothub/iothub_consumer.py:89-97 | While receiving, started and the client do not change, and a set stop flag stays set. |
| EventHubConsumer.ConsumerService.Stop | app/services/iothub/iothub_consumer.py:110-127 | The fields after `stop()` are `StopStep` of the fields before. |
| EventHubConsumer.ConsumerService.OnEvent | app/services/iothub/iothub_consumer.py:23-46 | The outcome and the fields are `EventStep`. |
| EventHubConsumer.ConsumerService.WhileReceiving | app/services/iothub/iothub_consumer.py:91-97 | The actions during `receive()` are applied in order (`RunActions`). |
| EventHubConsumer.StartStep | app/services/iothub/iothub_consumer.py:65-108 | When not started and the client is created, exactly one new client exists afterwards and stays as `_client`. The calls made are the old calls, then `receive` on that client, and last its `close`. A refused start or a failed creation creates no client and makes no call. A re-raised error is the one `receive()` raised. |
| EventHubConsumer.ConsumerService.Start | app/services/iothub/iothub_consumer.py:65-108 | The outcome and the fields are `StartStep`. |
| EventHubConsumer.StartWhileStartedIsNoOp | app/services/iothub/iothub_consumer.py:73-75 | While started, `start()` returns at once and changes nothing. |
| EventHubConsumer.StopBeforeStartIsForgotten | app/services/iothub/iothub_consumer.py:77-78 | A `stop()` before `start()` is cleared, so a receive error still escapes. |
| EventHubConsumer.StartEndsNotStarted | app/services/iothub/iothub_consumer.py:105-107 | Once the client exists, `start()` ends with `_started` cleared, however `receive()` ends. |
| EventHubConsumer.CreateFailureBlocksRestart | app/services/iothub/iothub_consumer.py:77-85 | A failed client creation leaves `_started` set, and every later `start()` is refused. |
| EventHubConsumer.ReceiveErrorEscapesIffNotStopped | app/services/iothub/iothub_consumer.py:99-103 | A receive exception is re-raised exactly when no stop was requested, and is otherwise suppressed. |
| EventHubConsumer.ReturnedReceiveStops | app/services/iothub/iothub_consumer.py:89-108 | A receive that returns never makes `start()` raise. |
| EventHubConsumer.StopIdempotent | app/services/iothub/iothub_consumer.py:117-118 | `stop()` twice is `stop()` once. |
| EventHubConsumer.StopClosesOnlyExistingClient | app/services/iothub/iothub_consumer.py:121-127 | `close` is called exactly when the flag was clear and a client exists. |
| EventHubConsumer.EventCheckpointedOnce | app/services/iothub/iothub_consumer.py:30-46 | Once stopped, `on_event` is ignored. Otherwise a decodable event is checkpointed exactly once. |
| EventHubConsumer.StoppedServiceIsInert | app/services/iothub/iothub_consumer.py:30-31 | Once stop is requested, nothing that happens while receiving changes the service. |
| EventHubConsumer.NoCheckpointAfterStop | app/services/iothub/iothub_consumer.py:30-46 | Actions after the first stop change nothing, so no checkpoint follows a stop. |
| EventHubConsumer.RunActionsAppend | app/services/iothub/iothub_consumer.py:91-97 | Running two action lists in turn is running their concatenation. |
| EventHubConsumer.InitialIsIdle | app/services/iothub/iothub_consumer.py:9-17 | The service starts not started, not stopping, with no client. A quiet start receives on client 0 and closes it. |

## Left out

- **Tokenising CSV text.** Quoting, dialects and line endings belong to Python's `csv` module, so the model starts from the header row and the data rows. `io.StringIO` is not modelled either.
- **Cells beyond the last header.** `csv.DictReader` stores them under its `restkey` (`None`). No string lookup can reach that key, so they are dropped.
- **Unicode case folding.** `lower()` is modelled on ASCII letters only. Two non-ASCII characters lower to strings with ASCII in them:
  - U+0130 lowers to `i` followed by a combining dot, which is still not ASCII;
  - U+212A lowers to `k`, which no status word contains.

  So membership in the two status word sets is the same under either folding.
- **Library primitives.** HMAC-SHA256, base64, `quote_plus` and UTF-8 encoding are the given functions of `Primitives`. The lemmas that read a generated token back (`GeneratedTokenFields`, `TokenExpiryFollowsGeneratorClock`) assume three things: `quote_plus` output contains no `&`, the policy name contains no `&`, and the key decodes as base64. `generate_sas_token` does not check the policy name, and with a policy name that contains `&` the token no longer reads back as its four fields.
- **Clock.** `time.time()` is a parameter, read as `now` by the cache and as `genNow` by the generator. `int()` truncation of the float reading is folded into those integers.
- **Transport.** The httpx client, its 5 s timeout and connection pooling are abstract `Reply` values. So is JSON encoding of the payloads, including `json.dumps` of the message payload, which is a given string. Configuration loading (`app/config.py`, `app/core/config.py`) is not part of this model: hub name, key and policy name are fields of `Config`.
- **Exception text.** `str(e)` in the error dicts is not modelled; the dicts hold the exception value (`RemoteError`).
- **Registry replies per request.** A batch sees the registry through `replyTo(i)`, the reply to its `i`-th request. The token each batch request carries is not modelled in the batch; `EveryRequestAuthorized` and the cache cover it.
- **Concurrency.** The asyncio scheduling of the batch, FastAPI's execution of queued background tasks, and threads in the consumer are not modelled. Concurrent calls are modelled as a sequence of whole calls in the order they happen. `threading.Event` is a boolean.
- **Event Hub SDK.** `from_connection_string`, `receive`, `close`, `update_checkpoint` and the partition callbacks are modelled as entries of the call log, or as a creation error. Not modelled: what the SDK does with an exception raised inside `on_event`, an exception from `close` on leaving the `with` block, the starting position `@latest`, and `on_partition_initialize`/`on_partition_close`, which only print.
- **Output.** Logging and `print` are not modelled.
- **`create_device`'s import in `app/services/devices.py`.** The module imports `create_device` from `app/iothub_http.py`, which defines only `send_c2d_message`, so importing it fails. The model gives its loops the same meaning as the `app/utils` copies. `send_c2d_message` of `app/iothub_http.py` is the same request as `RegistryHttp.SendRequest`.
- **`app/services/pods/pods_service.py` and the routers.** They are request glue (file reading, Google Sheet fetch, HTTP error mapping) and are not part of this model. The batch lemmas about classification assume distinct ids, as that service passes them.
- DeviceQueue.FetchClassifiesEachId: states nothing about per-id placement when ids repeat, because a later lookup of the same id overwrites the earlier dict entry. `FetchNotFoundInOrder` holds for every input.
- DeviceQueue.DeleteErrorsPerId: states nothing about per-id placement when ids repeat, for the same reason. `DeletedInOrder` and the contract of `DeleteAll` hold for every input.

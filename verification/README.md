# CRM client records service — a Dafny model

The service is a small HTTP server (`crm-backend/index.js`). It keeps a list of client records:
id, name, surname, patronymic (`lastName`), a list of contacts (`type`, `value`) and two
timestamps. It serves them under `/api/clients`:

- `GET /api/clients[?search=...]` lists the records. A search term keeps the records where
  any of the name fields or contact values contains the term, ignoring case.
- `POST /api/clients` validates a new record, stores it and answers 201 with a `Location` header.
- `GET /api/clients/{id}` returns one record.
- `PATCH /api/clients/{id}` merges a partial record into the stored one and re-validates it.
- `DELETE /api/clients/{id}` removes one record.
- OPTIONS is the CORS preflight and gets an empty 200.
- Errors are a JSON body with a status code: 404 `Client Not Found` or `Not Found`, 422 with the
  list of failed field checks, 500 `Server Error`.

The model has six modules:

- `Wrappers`: `Option` and `Result`.
- `JsValue`: the JavaScript built-ins the core relies on.
  - `Raw` is a parsed JSON value, plus `Missing` for `undefined`.
  - Truthiness, `String(v)`, `trim`, `toLowerCase`, `includes`, `split` and the matching join.
- `ApiErrors`: `ApiError` (status code and data) and `Unexpected`, which stands for any other
  thrown error.
- `Validator`: `makeClientFromData` and `asString`.
- `Repository`: the five repository functions.
  - Each is a pure function from the old record list to a `Step` (result and new list).
  - Class `ClientStore` holds the list and updates it in place. Each of its methods is proved
    equal to the matching function.
- `Router`: the `createServer` callback.
  - `RouteRequest` selects the route.
  - `ParseQuery` is the query-string loop, proved equal to `QueryParams`.
  - `Serve` is the whole request as a function.
  - `Handle` is the callback run on a `ClientStore`, proved equal to `Serve`.

The database file is read on every call and written after every change, so the model holds it
as one sequence of records (`ClientStore.clients`). The clock readings (`Date.now()` for the
id, `toISOString()` for the timestamps) and `decodeURIComponent` are parameters.

The documentation comment of `drainJson` (`crm-backend/index.js:26`) announces an `ApiError`
for a request body that is not valid JSON: an error the handler's `catch` would take and answer
with that error's own status code. The code does not deliver such an error, and the model
follows the code. `JSON.parse` runs inside the request stream's
`end` listener (`crm-backend/index.js:35-37`). That is outside the promise executor and outside
the `try`, so nothing catches the exception. Node ends the process on an uncaught exception, so
the whole server stops: this request gets no reply and no later request is served.
`Router.Reply.Crash` models this outcome. The body is read before any record is created or
patched, so the database file is left as it was. A body that parses to `null` behaves
differently in the two places:

- on POST it makes `data.name` throw a `TypeError`, which gives 500;
- on PATCH it is spread as an empty object, so it acts as an empty patch that only refreshes
  `updatedAt`.

## Model

| member | source | states |
|---|---|---|
| JsValue.Truthy | crm-backend/index.js:51 | the `v &&` test of `asString`: `undefined`, `null`, `false`, `0` and `''` are falsy, every other value (arrays and objects included) is truthy |
| JsValue.ToJsString | crm-backend/index.js:51 | `String(v)` for a parsed JSON value: `undefined`, `null`, `true`/`false`, the decimal form of an integer, a string itself, an array's elements joined by `,` with `null` and `undefined` as empty, and `[object Object]` for an object |
| JsValue.Trim | crm-backend/index.js:51 | `String.prototype.trim`: the result has no leading or trailing whitespace (the ECMAScript WhiteSpace and LineTerminator set), and the input is that result with only whitespace removed on each side |
| JsValue.TrimStart | crm-backend/index.js:51 | the removed prefix is all whitespace and the result starts with a non-whitespace character or is empty |
| JsValue.TrimEnd | crm-backend/index.js:51 | the removed suffix is all whitespace and the result ends with a non-whitespace character or is empty |
| JsValue.TrimOfTrimmed | crm-backend/index.js:51 | trimming a string that is already trimmed changes nothing |
| JsValue.LowerChar | crm-backend/index.js:85 | `toLowerCase` of one character: A-Z, U+00C0-U+00DE except U+00D7, and U+0410-U+042F move up by 32, U+0400-U+040F move up by 80 (to U+0450-U+045F); every other character is kept |
| JsValue.Lower | crm-backend/index.js:85 | `toLowerCase` of a string, character by character |
| JsValue.LowerIdempotent | crm-backend/index.js:85 | lower-casing a lower-cased string changes nothing |
| JsValue.LowerTrim | crm-backend/index.js:85 | `search.trim().toLowerCase()` equals lower-casing first and trimming after |
| JsValue.LowerTrimStart | crm-backend/index.js:85 | lower-casing commutes with removing leading whitespace |
| JsValue.LowerTrimEnd | crm-backend/index.js:85 | lower-casing commutes with removing trailing whitespace |
| JsValue.LowerCharWhitespace | crm-backend/index.js:85 | lower-casing a character neither creates nor removes whitespace |
| JsValue.Includes | crm-backend/index.js:92 | `hay.includes(needle)`: the needle is a prefix of hay or of one of its suffixes |
| JsValue.IncludedOccurs | crm-backend/index.js:92 | when `hay.includes(needle)` holds, needle occurs in hay at the returned index |
| JsValue.OccurrenceIncluded | crm-backend/index.js:92 | an occurrence of needle at any index of hay makes `hay.includes(needle)` hold |
| JsValue.IncludesIffOccurs | crm-backend/index.js:92 | `hay.includes(needle)` holds exactly when needle occurs at some position of hay |
| JsValue.IncludesEmpty | crm-backend/index.js:92 | every string includes the empty string |
| JsValue.Join | crm-backend/index.js:51 | `parts.join(sep)`, as `String(array)` uses it with `,`: the empty string for no parts, the one part alone, otherwise the first part, the separator and the join of the rest |
| JsValue.Split | crm-backend/index.js:185-191 | `split(sep)` gives at least one piece, no piece contains the separator, and joining the pieces with it gives back the input |
| JsValue.SplitJoin | crm-backend/index.js:185-191 | splitting the join of separator-free pieces gives back exactly those pieces |
| JsValue.SplitWithoutSeparator | crm-backend/index.js:185-191 | a string without the separator splits into itself alone |
| Validator.AsString | crm-backend/index.js:50-52 | `asString` returns a trimmed string; a falsy value gives `''`; a truthy one gives `String(v)` with its surrounding whitespace removed |
| Validator.AsStringText | crm-backend/index.js:50-52 | on a string, `asString` is `trim`, and a trimmed string comes back unchanged |
| Validator.NormalizeContact | crm-backend/index.js:59-62 | one contact: reading `type` of `null` or `undefined` throws (a `TypeError`, so 500); otherwise `{ type, value }` through `asString` |
| Validator.NormalizeContactList | crm-backend/index.js:59-62 | the contact list fails (a `TypeError`, so 500) exactly when some entry is `null` or `undefined`; otherwise entry i becomes the normalised contact i, and the length is kept |
| Validator.SingleContactList | crm-backend/index.js:59-62 | mapping a one-entry array whose entry is not `null` or `undefined` gives that entry normalised, alone |
| Validator.NormalizeContacts | crm-backend/index.js:59-62 | `contacts` that is not an array becomes `[]`; an array is normalised entry by entry |
| Validator.Normalize | crm-backend/index.js:55-63 | building the client object fails exactly when `data` is `null`/`undefined` or a contact entry is; every field it builds is trimmed |
| Validator.NormalizedFields | crm-backend/index.js:55-63 | a successfully built client object has name, surname and lastName equal to `asString` of the submitted fields of the same names, and contacts equal to the normalised submitted `contacts` |
| Validator.ValidationErrors | crm-backend/index.js:66-69 | the name, surname and contacts errors each appear exactly when their check fails, in that order and only once, and the list is empty exactly when the draft is valid |
| Validator.MakeClientFromData | crm-backend/index.js:47-75 | success exactly when the normalised draft is valid, returning that draft; an invalid draft throws `ApiError(422, { errors })` with the non-empty error list; a `TypeError` during normalisation passes through |
| Validator.NonArrayContactsAreEmpty | crm-backend/index.js:59-62 | a non-array `contacts` never triggers the contacts error |
| Validator.EmptyNameIsReported | crm-backend/index.js:66 | `{ name: '', surname: 'B' }` is refused with 422 and exactly the name error |
| Validator.IncompleteContactIsReportedOnce | crm-backend/index.js:68-69 | a contact with an empty value is refused with 422 and exactly one contacts error |
| Repository.SubsequenceOfItself | crm-backend/index.js:95 | the unfiltered list is a subsequence of itself |
| Repository.RemoveAtIsSubsequence | crm-backend/index.js:151 | removing one element leaves a subsequence |
| Repository.FindIndex | crm-backend/index.js:134 | `findIndex` returns -1 exactly when no record has the id, else the first index whose record has it |
| Repository.GetClient | crm-backend/index.js:118-122 | fails with 404 `Client Not Found` exactly when no record has the id, else returns the first record with it |
| Repository.Matches | crm-backend/index.js:86-92 | the `some(...)` test: the term is included in the lower-cased name, surname or lastName, or in the lower-cased value of some contact |
| Repository.SearchTerm | crm-backend/index.js:85 | `params.search.trim().toLowerCase()` |
| Repository.Filter | crm-backend/index.js:86-93 | `clients.filter(...)` with the search test, keeping the order of the records |
| Repository.FilterSelects | crm-backend/index.js:86-93 | the filtered list is a subsequence of the records, and a record is in it exactly when one of its strings includes the term |
| Repository.FilterCounts | crm-backend/index.js:86-93 | the filter keeps every copy of a matching record and no copy of any other record |
| Repository.FilterEmptyTerm | crm-backend/index.js:86-93 | filtering with the empty term keeps every record |
| Repository.GetClientList | crm-backend/index.js:82-96 | without a truthy `search` all records are returned; otherwise a subsequence holding exactly the records matching the trimmed, lower-cased term, each as many times as in the collection (all of them for an all-whitespace term) |
| Repository.SearchIgnoresCase | crm-backend/index.js:85 | two search strings with the same lower-case form select the same records |
| Repository.NewClient | crm-backend/index.js:105-107 | the validated fields stamped with the id and with `createdAt` and `updatedAt` both set to the same timestamp |
| Repository.Create | crm-backend/index.js:104-110 | succeeds exactly when the data validates; on success the list grows by the new record at the end with the given id, both timestamps equal to `now` and the validated fields, and is otherwise unchanged; on failure the list is unchanged and the error is the validator's |
| Repository.CreateStoresSubmittedFields | crm-backend/index.js:55-63 | the record a successful create stores has name, surname and lastName equal to `asString` of the submitted fields, and the normalised submitted contacts |
| Repository.StoredFields | crm-backend/index.js:136 | a stored record as the object `...clients[itemIndex]` spreads: its seven fields, with the contacts as objects |
| Repository.PatchFields | crm-backend/index.js:136 | the own fields `...data` spreads: an object's fields, none for `null` or a number |
| Repository.Merge | crm-backend/index.js:136 | `{ ...clients[itemIndex], ...data }` |
| Repository.MergeOverrides | crm-backend/index.js:136 | in the merge a key of the patch takes the patch's value; any other key keeps the stored value |
| Repository.ApplyPatch | crm-backend/index.js:136-137 | fails exactly when `makeClientFromData` of the merge fails, and then with its error (422 or a `TypeError`); on success the record takes the validated fields of the merge, keeps its id and `createdAt`, gets `updatedAt = now` and is well formed |
| Repository.Update | crm-backend/index.js:132-140 | an unknown id gives 404 and no change; for a known id the result is the patch of the first record with it; on failure nothing changes; on success only the record at the found index is replaced, by the patched record |
| Repository.UpdateAt | crm-backend/index.js:132-139 | when the merge validates, `updateClient` answers the record with the validated fields and `updatedAt = now`, and that record replaces the one at the found index |
| Repository.PatchOutcome | crm-backend/index.js:132-140 | on a known id: a patch whose contacts cannot be read fails with a `TypeError` (500); a merge that normalises but is invalid fails with 422 and that merge's validation errors; both leave the records unchanged; a valid merge replaces only that record |
| Repository.MergedDraft | crm-backend/index.js:136 | validating `{ ...stored, ...data }` takes each of name, surname and lastName from the patch when present (through `asString`) and from the stored record otherwise, and likewise the contacts |
| Repository.PatchMerges | crm-backend/index.js:136-137 | a successful patch sets each field from the patch when present and keeps the stored one otherwise, keeps id and `createdAt`, and sets `updatedAt` |
| Repository.ContactsRoundTrip | crm-backend/index.js:136 | stored, normalised contacts pass through the re-validation unchanged |
| Repository.EmptyPatchTouchesOnlyUpdatedAt | crm-backend/index.js:136-137 | an empty patch (or `null`) changes nothing but `updatedAt` |
| Repository.RenamedDraft | crm-backend/index.js:136 | `{ name: s }` merged into a well-formed record validates to that record's fields with the name replaced by `s` trimmed |
| Repository.RenameTouchesOnlyName | crm-backend/index.js:136-137 | a patch of a non-blank `name` only changes the name (trimmed) and `updatedAt` |
| Repository.RenameUpdatesOneRecord | crm-backend/index.js:132-140 | renaming one record through `updateClient` leaves every other record as it was |
| Repository.Delete | crm-backend/index.js:147-154 | fails with 404 and no change exactly when the id is absent; otherwise the new list is the old one with the element at the first matching index spliced out |
| Repository.DeleteRemovesOne | crm-backend/index.js:147-154 | a delete of a present id succeeds, shortens the list by one, keeps the order of the remaining records, and takes exactly the first record with the id out of the multiset |
| Repository.FindIndexAppend | crm-backend/index.js:108 | appending a record does not move an id that was already present, and finds the new record otherwise |
| Repository.GetAfterCreate | crm-backend/index.js:104-122 | after a create with a fresh id, `getClient` of that id returns the created record |
| Repository.DeleteRemovesId | crm-backend/index.js:147-154 | with unique ids, no record left after a delete has the deleted id |
| Repository.DeleteThenGetFails | crm-backend/index.js:118-154 | with unique ids, after a delete both `getClient` and a second delete of that id fail with 404 |
| Repository.CreateKeepsWellFormed | crm-backend/index.js:104-110 | creating keeps every stored record validated and normalised |
| Repository.UpdateKeepsWellFormed | crm-backend/index.js:132-140 | updating keeps every stored record validated and normalised |
| Repository.DeleteKeepsWellFormed | crm-backend/index.js:147-154 | deleting keeps every stored record validated and normalised |
| Repository.ClientStore.CreateClient | crm-backend/index.js:104-110 | appending to the stored list gives the result and list of `Create`, and keeps the records well formed |
| Repository.ClientStore.UpdateClient | crm-backend/index.js:132-140 | the in-place `Object.assign` and `updatedAt` write give the result and list of `Update`, and keep the records well formed |
| Repository.ClientStore.DeleteClient | crm-backend/index.js:147-154 | the in-place `splice` gives the result and list of `Delete`, and keeps the records well formed |
| Router.RouteRequest | crm-backend/index.js:171-185 | OPTIONS is routed first whatever the url; any other method gets the not-found route exactly when the url lacks the `/api/clients` prefix; the query never contains `?` |
| Router.ItemUrlRoundTrip | crm-backend/index.js:185-212 | `/api/clients/{id}[?query]` routes to the item `id` with that query |
| Router.CollectionUrlRoutes | crm-backend/index.js:185-199 | `/api/clients` and `/api/clients/`, with or without a query, route to the collection |
| Router.KeyOf | crm-backend/index.js:191 | the key of a query piece: the text before its first `=`, or the whole piece without one |
| Router.ValueOf | crm-backend/index.js:191-192 | the value of a query piece: the text between its first and second `=` (anything after a second `=` is dropped), decoded when it is non-empty, else `''` |
| Router.Collect | crm-backend/index.js:190-193 | the dictionary after storing the pieces in order, a later piece overwriting an earlier one with the same key |
| Router.QueryParams | crm-backend/index.js:189-194 | no parameters for an absent or empty query, otherwise the `&`-separated pieces collected |
| Router.CollectKeys | crm-backend/index.js:189-194 | the parsed query holds exactly the keys of its `&`-separated pieces |
| Router.CollectLastWins | crm-backend/index.js:189-194 | a repeated key takes the value of its last piece |
| Router.PieceKeyValue | crm-backend/index.js:191-192 | a piece without `=` gives its own key with `''`; `key=value` gives `key`, with `''` for an empty value and the decoded value otherwise |
| Router.ParseQuery | crm-backend/index.js:185-194 | the loop over the pieces builds exactly `QueryParams` of the query, and no parameters for an absent or empty query |
| Router.Serve | crm-backend/index.js:160-231 | the whole handler as a function of the request and the record list: preflight, the prefix check, the route table of the collection and item urls, `null` for an unhandled method, and the error responses |
| Router.ErrorResponse | crm-backend/index.js:220-230 | an `ApiError` is answered with its own status code and data; anything else with 500 `Server Error` |
| Router.ServeCollection | crm-backend/index.js:199-208 | on `/api/clients` only a POST with a JSON body can change the records, and it changes them exactly as `createClient` does |
| Router.ServeItem | crm-backend/index.js:209-216 | on `/api/clients/{id}` only a PATCH with a JSON body or a DELETE can change the records, exactly as `updateClient` or `deleteClient` does |
| Router.OptionsAnsweredFirst | crm-backend/index.js:171-175 | OPTIONS gets an empty 200 and changes nothing |
| Router.OutsidePrefixIsNotFound | crm-backend/index.js:178-182 | a url outside the prefix gets 404 `Not Found` and changes nothing |
| Router.OnlyWritesChangeStore | crm-backend/index.js:196-219 | GET and methods the server does not handle leave the records unchanged |
| Router.StatusCodes | crm-backend/index.js:160-231 | every answer has status 200, 201, 404, 422 or 500; the only other outcome is the crash of the server process, which happens only for a POST or PATCH whose body is not JSON and leaves the database file as it was |
| Router.ServeKeepsWellFormed | crm-backend/index.js:160-231 | every request keeps the stored records validated and normalised |
| Router.PostValidData | crm-backend/index.js:202-207 | a POST of valid data to `/api/clients` answers 201 with the created record and `Location: /api/clients/{id}`, and stores it |
| Router.GetItemUrl | crm-backend/index.js:209-213 | a GET of `/api/clients/{id}` answers 200 with the record `getClient` finds, or the response for its 404 |
| Router.CreatedClientCanBeFetched | crm-backend/index.js:202-213 | a successful POST answers 201 with `Location: /api/clients/{id}`, and a GET of that location returns the created record |
| Router.Handle | crm-backend/index.js:160-231 | the handler run on the live store gives exactly the reply and new record list of `Serve`, and keeps the records well formed |

## Left out

- File storage: `readFileSync` / `writeFileSync` of the database file, the initial creation of
  an empty file, and JSON (de)serialisation of the records. The file is the sequence
  `ClientStore.clients`, read whole and replaced whole on each operation.
- The `|| '[]'` fallback after `readFileSync` (`crm-backend/index.js:83`) is never taken, since the
  Buffer it tests is always truthy; an empty or malformed database file is not modelled.
- `drainJson`'s stream plumbing: the request body enters as its parsed value, or `None` when it
  is not JSON.
- What happens after the crash that `Router.Reply.Crash` stands for (the server process has
  ended; restarting it is outside the service) is not modelled.
- `decodeURIComponent` is a parameter and always returns a string. A malformed escape
  (`?search=%E0`) makes it throw outside the `try`; the handler's promise is rejected, nothing
  handles the rejection, and Node ends the process as it does for the body. That crash is not
  modelled.
- The clock is a parameter: the id (`Date.now().toString()`) and the timestamp
  (`new Date().toISOString()`). Id collisions between two requests in the same millisecond are
  possible in the service, so the lemmas that need unique ids take them as a hypothesis.
- Concurrency: overlapping requests interleaving their reads and writes of the file (lost
  updates) are not modelled; each request runs alone.
- Response headers (Content-Type, CORS, `Access-Control-Expose-Headers`), the `listening`
  message, `console.error` and the server start-up are left out. The `Location` header is kept.
- Numbers in request bodies are integers. Fractions, and the exponent form `String()` uses
  from 1e21, are not modelled.
- JsValue.ToJsString: an integer above 2^53 in a request body is rounded by `JSON.parse` to the
  nearest double in the service, so `String()` of it can differ from the digits sent; the model
  keeps the exact integer.
- JsValue.ToJsString: an object with an own `toString` key (`{ "name": { "toString": 1 } }`),
  alone or inside an array, makes `String()` throw a `TypeError` in the service, since neither
  `toString` nor `valueOf` then yields a primitive, and the request is answered with 500. The
  model gives `[object Object]` for every object, so such a request validates or fails with 422
  instead.
- JsValue.LowerChar: `toLowerCase` is modelled for A-Z, the Latin-1 capitals U+00C0-U+00DE and
  the Cyrillic capitals U+0400-U+042F only; capitals elsewhere, such as U+0462 or U+0490, are
  kept as they are. Other characters are left unchanged, and strings are sequences of code points, not
  UTF-16 code units.
- Object keys spread from a string or array body (`{ ...'ab' }`) and `__proto__` keys are not
  modelled. The validator reads only `name`, `surname`, `lastName` and `contacts`.
- Extra fields of a stored record (beyond the seven the service writes) are not modelled.
- The front-end files of the repository are not part of this model.

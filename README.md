# Kabushare core, modelled in Dafny

Kabushare is a temporary file-sharing web app. A visitor picks files on the
home page and uploads them. Each stored file gets a random access id and a
record that expires 48 hours after the upload. The success page shows one
share link per access id. A scheduled job, guarded by a bearer secret, sweeps
the expired records and deletes their blobs.

This project models that expiration lifecycle and the validation that guards
it. There is one Dafny module per source file:

| module | file | what it holds |
|---|---|---|
| `Wrappers` | — | `Option` and `Result` |
| `Utils` | `utils.dfy` | size and type checks, the filename sanitiser, the 48-hour expiry, `isExpired`, the "time remaining" label |
| `FileModel` | `file_model.dfy` | the File record, the collection as a map keyed by access id, `create` with its required-field and unique-index checks |
| `Backend` | `backend.dfy` | the external services as one value: the database's file store, the live blob URLs, the File collection |
| `UploadRoute` | `upload_route.dfy` | the batch upload handler: a spec function over the batch and the handler's loop proved equal to it |
| `CleanupRoute` | `cleanup_route.dfy` | the bearer gate and the expiration sweep: a spec function and the handler's loop proved equal to it |
| `Home` | `home_page.dfy` | the home page's state as a class: add, remove, clear, and the upload handler that hands the ids to the success page |
| `Success` | `success_page.dfy` | parsing the `ids` query value, the share URL, and the join/parse round trip |

The route handlers are stateless functions over external services. So the
services are a `Backend` value that each handler takes and returns. Whatever
the outside world decides is passed in as a parameter: the clock (`now`, in
milliseconds), the ids the generators draw (`Draw`), and which foreign calls
throw (`Fault`, `Faults`, `UploadOutcome`). The upload loop (`HandlePost`),
the sweep loop (`SweepFound`, called by `HandleCleanup`) and the page's
`HandleUpload` are methods with loop invariants. Each is proved against a
function, and the lemmas state the source's promises about that function.

## Model

| member | source | states |
|---|---|---|
| Utils.ValidateFileSize | src/lib/utils.ts:7-10 | a size passes iff 0 < size <= maxSizeMB * 1048576; with a limit of 0 or less nothing passes |
| Utils.DefaultSizeLimit | src/lib/utils.ts:7-10 | with the default limit a size passes iff 0 < size <= 104857600; 104857600 passes, 104857601 and 0 do not |
| Utils.ValidateFileType | src/lib/utils.ts:12-22 | a MIME type passes iff it equals none of the block list's entries |
| Utils.FileTypeBlockList | src/lib/utils.ts:12-22 | the type check fails exactly for the four listed MIME strings; "" and every other string pass |
| Utils.Keep | src/lib/utils.ts:27-29 | a global removal of a character class leaves none of those characters |
| Utils.KeepCounts | src/lib/utils.ts:27-29 | every character outside the removed class keeps its number of occurrences |
| Utils.RemoveDotDotCounts | src/lib/utils.ts:28 | the `..` removal takes away dots only: every other character keeps its number of occurrences |
| Utils.TrimCounts | src/lib/utils.ts:30 | trimming either end takes away whitespace only: every other character keeps its number of occurrences |
| Utils.SanitizeFilename | src/lib/utils.ts:24-31 | the sanitised name is a subsequence of the input, no longer than it, has no whitespace at either end, and contains no `/`, `\` or `< > : " \| ? *`|
| Utils.SanitizeKeepsOrdinary | src/lib/utils.ts:24-31 | every character that is no separator, none of `< > : " \| ? *`, not a dot and not whitespace survives sanitising as often as it occurs in the input |
| Utils.SanitizeKeepsCleanName | src/lib/utils.ts:24-31 | a name with no separator, no unsafe character, no `..` and no whitespace at either end comes back unchanged |
| Utils.RemoveDotDotLeavesNoDotDot | src/lib/utils.ts:28 | after the `..` removal pass no `..` remains |
| Utils.SanitizeCanLeaveDotDot | src/lib/utils.ts:27-29 | ".<." sanitises to "..": the final output can contain `..` |
| Utils.SanitizeNotIdempotent | src/lib/utils.ts:24-31 | sanitising ".<." twice differs from sanitising it once |
| Utils.CalculateExpirationDate | src/lib/utils.ts:43-46 | the expiry lies exactly 172800000 ms after the moment it is computed, and is not yet expired then |
| Utils.IsExpired | src/lib/utils.ts:68-70 | an expired timestamp is always labelled "Expired" by the time-remaining label |
| Utils.ExpiryLifetime | src/lib/utils.ts:43-46 | the expiry is now + 172800000 ms; with `isExpired` it is expired at t iff t > created + 172800000 |
| Utils.NatToString | src/lib/utils.ts:62 | a template literal's rendering of a whole number: at least one decimal digit, no leading zero |
| Utils.NatToStringRoundTrip | src/lib/utils.ts:62-65 | reading the rendered digits back gives the number |
| Utils.FormatTimeRemaining | src/lib/utils.ts:48-66 | the label is "Expired" iff expiresAt - now <= 0 |
| Utils.FormatDaysHours | src/lib/utils.ts:56-62 | with more than 24 whole hours left the label is "{d}d {h}h", d >= 1, h in [0,23], and 24d + h is the number of whole hours left |
| Utils.FormatHoursMinutes | src/lib/utils.ts:56-65 | with at most 24 whole hours left the label is "{h}h {m}m", m in [0,59], h hours and m minutes being the whole hours and minutes left |
| Utils.FormatExactlyOneDay | src/lib/utils.ts:59-65 | exactly 24 hours left prints "24h 0m" (the day branch needs strictly more) |
| FileModel.Create | src/lib/models/File.ts:14-54 | insert succeeds iff the required strings are non-empty and the access id is not taken; a validation error iff a required string is empty; the record copies the document, `createdAt` defaults to now; the collection gains exactly that entry and stays valid |
| FileModel.AccessIdUnique | src/lib/models/File.ts:36-41 | a second insert under an access id already created fails |
| UploadRoute.Check | src/app/api/upload/route.ts:29-52 | the checks run size, then type, then sanitised name; each message is returned iff the earlier checks pass and this one fails; accept iff all pass, carrying the sanitised name |
| UploadRoute.ProcessFile | src/app/api/upload/route.ts:28-82 | a rejected file gives an entry with its original name and changes nothing; for a well-formed access id (`IsAccessId`), an accepted file succeeds iff no fault, a non-empty type and a free access id, and on success writes bytes under "<accessId>_<name>" and one record; a throw leaves at most the saved bytes |
| UploadRoute.Post | src/app/api/upload/route.ts:14-98 | 400 iff the form holds no file, and then nothing changes; a 201 carries one entry per file, in input order, each as `EntryFor` gives it |
| UploadRoute.HandlePost | src/app/api/upload/route.ts:14-98 | the handler's loop, with its early `continue`s and its return at the first exception, yields exactly the response and backend of `Post` |
| UploadRoute.CompletedResults | src/app/api/upload/route.ts:26-82 | without an exception there is one entry per file, in input order, each as `EntryFor` gives it |
| UploadRoute.CompletedWrites | src/app/api/upload/route.ts:54-74 | without an exception, records are added under exactly the accepted files' ids, bytes under exactly their file store ids, old records are kept and blob URLs are untouched |
| UploadRoute.AcceptedFileStored | src/app/api/upload/route.ts:54-74 | each accepted file has its record (sanitised name, size, type, file store id set, no blob URL, expiry now + 48h) and its bytes under "<accessId>_<name>" |
| UploadRoute.AllRejected | src/app/api/upload/route.ts:84-90 | a batch where every file fails a check answers 201 with one error entry per file and writes nothing |
| UploadRoute.NoFilesProvided | src/app/api/upload/route.ts:19-24 | an empty form answers 400 and changes nothing |
| UploadRoute.NoRollback | src/app/api/upload/route.ts:91-97 | whatever the outcome, earlier records keep their values, the file store only gains ids, and the collection stays valid |
| UploadRoute.ThrowKeepsEarlierWrites | src/app/api/upload/route.ts:61-97 | an exception on file k answers 500 and keeps the records of exactly the files accepted before k, and every byte saved before it |
| UploadRoute.EmptyTypeThrows | src/app/api/upload/route.ts:61-74 | an accepted file with an empty type throws at the insert, after its bytes were saved |
| UploadRoute.OrdinaryNameAccepted | src/app/api/upload/route.ts:45-52 | a file of valid size and type whose name holds one character no sanitising pass removes is accepted under its sanitised name, never rejected as "Invalid filename" |
| UploadRoute.TakenAccessIdThrows | src/app/api/upload/route.ts:67-74 | for a well-formed id, no fault and a non-empty type, the file throws iff its access id is taken |
| CleanupRoute.AuthorizedAsWritten | src/app/api/cron/cleanup/route.ts:10-13 | with a secret set, the gate admits exactly the header "Bearer " + secret; with it unset, exactly the header "Bearer undefined" |
| CleanupRoute.UnsetSecretRunsSweep | src/app/api/cron/cleanup/route.ts:10-13 | with the secret unset and the header "Bearer undefined", the gate as written runs the sweep while the corrected gate answers 401 and changes nothing |
| CleanupRoute.AuthorizedIntended | src/app/api/cron/cleanup/route.ts:10-13 | the corrected gate is closed without a secret and, when a secret is set, admits exactly the written gate's header |
| CleanupRoute.ExpiredIds | src/app/api/cron/cleanup/route.ts:18-19 | the found records are records of the collection |
| CleanupRoute.ExpiredMeansIsExpired | src/app/api/cron/cleanup/route.ts:18-19 | the query's strict `expiresAt < now` selects exactly the records `isExpired` calls expired at the same instant |
| CleanupRoute.SweptAfterWindow | src/app/api/cron/cleanup/route.ts:18-19 | a record with the 48-hour expiry is found iff now is past created + 172800000 |
| CleanupRoute.CleanUpRecord | src/app/api/cron/cleanup/route.ts:30-40 | one record: the blob is deleted only when the URL is set, the record only when nothing threw before; the deleted count goes up by one iff both deletions succeed, otherwise the error count does |
| CleanupRoute.VisitRecord | src/app/api/cron/cleanup/route.ts:29-41 | handling one more found record keeps the counts and the backend equal to the sweep's outcome over the records handled so far |
| CleanupRoute.SweepFound | src/app/api/cron/cleanup/route.ts:23-41 | the loop over the found records, in any order, ends with the total, the counts and the backend the sweep prescribes for all of them |
| CleanupRoute.HandleCleanup | src/app/api/cron/cleanup/route.ts:9-54 | the handler, with either gate, yields exactly the response and backend of `Cleanup` |
| CleanupRoute.Cleanup | src/app/api/cron/cleanup/route.ts:9-54 | 401 iff the gate refuses the header; a completed sweep reports `total` = the number of found records and `deleted + errors == total`; a 401 or 500 changes nothing |
| CleanupRoute.SweepEffect | src/app/api/cron/cleanup/route.ts:29-41 | the file store is never touched; records expiring at or after now are kept unchanged; a record goes iff it is expired and both deletions succeed; a 401 or 500 changes nothing |
| CleanupRoute.WrongTokenTouchesNothing | src/app/api/cron/cleanup/route.ts:10-13 | a header other than "Bearer " + secret answers 401 and changes nothing |
| CleanupRoute.FailedBlobDeleteKeepsRecord | src/app/api/cron/cleanup/route.ts:30-40 | when the blob deletion throws, the record stays and the error count is at least one |
| CleanupRoute.SweepKeepsStoreValid | src/app/api/cron/cleanup/route.ts:29-41 | the sweep keeps the collection's unique-access-id invariant |
| CleanupRoute.SweepIdempotent | src/app/api/cron/cleanup/route.ts:19-41 | if every deletion succeeds, a second sweep at the same instant reports 0 found, 0 deleted and changes no record |
| Home.Appended | src/app/page.tsx:26-31 | a null list leaves the files unchanged; otherwise the old files come first, then the new ones, in order |
| Home.RemovedAt | src/app/page.tsx:44-46 | removing at an index in range drops exactly that element and keeps the rest in order; an index out of range changes nothing |
| Home.Join | src/app/page.tsx:85-88 | joining n >= 1 comma-free ids gives a string with exactly n - 1 commas |
| Home.FirstFailure | src/app/page.tsx:62-93 | the index of the first upload that throws: every earlier one succeeded |
| Home.HomePage.constructor | src/app/page.tsx:8-12 | the page starts with no files, not uploading, progress 0, no error |
| Home.HomePage.AddFiles | src/app/page.tsx:26-31 | the file list becomes `Appended(files, newFiles)`; the error is cleared unless the list was null |
| Home.HomePage.RemoveFile | src/app/page.tsx:44-46 | the file list becomes `RemovedAt(files, index)` |
| Home.HomePage.ClearAll | src/app/page.tsx:153 | the file list becomes empty |
| Home.HomePage.HandleUpload | src/app/page.tsx:48-98 | an empty list only sets "Please select at least one file"; otherwise `uploading` ends false and either all uploads succeed, progress is 100 and the router goes to "/success?ids=" + the ids joined in upload order, or the first failure's message is shown with progress 0 |
| Success.Split | src/app/success/page.tsx:9 | split on "," gives one more piece than the string has commas, and no piece contains "," |
| Success.NonEmpty | src/app/success/page.tsx:9 | the filter keeps only non-empty pieces, all drawn from the input, no more of them; a single piece is kept iff it is non-empty |
| Success.NonEmptyAppend | src/app/success/page.tsx:9 | the filter distributes over concatenation, so with the one-piece case it keeps each non-empty piece in order and drops each empty one |
| Success.ParseIds | src/app/success/page.tsx:8-9 | no parsed id is empty or contains "," |
| Success.JoinSplit | src/app/success/page.tsx:9 | joining the split pieces with "," gives back the string: splitting loses nothing and keeps order |
| Success.SplitJoin | src/app/success/page.tsx:9 | splitting the comma-join of comma-free strings gives them back |
| Success.ParseJoinRoundTrip | src/app/success/page.tsx:8-9 | parsing the comma-join of non-empty, comma-free ids returns the same list |
| Success.ParseDropsEmptyPieces | src/app/success/page.tsx:9 | "a,,b," parses to ["a", "b"] |
| Success.HandOff | src/app/page.tsx:85-90 | the ids the home page joins into the success path are exactly the ids the success page shows, in upload order |
| Success.ShareUrl | src/app/success/page.tsx:13-16 | the share URL is origin, then "/file/", then the id; "" when there is no window |
| Success.SuccessContent | src/app/success/page.tsx:28-40 | "No files found" iff no id parses; otherwise one link per parsed id, in order, each its share URL |
| Success.MissingIdsShowNothing | src/app/success/page.tsx:8-40 | a missing `ids` parameter, or one made only of commas, shows "No files found" |

## Left out

- Concurrent requests: each handler runs atomically on one `Backend` value, so requests that interleave at their `await`s are not modelled.
- The `console.log` and `console.error` logging of the handlers and the page: output only.
- `src/lib/storage.ts` (the file store's stream plumbing and connection setup) is not part of this model: the file store is the `gridFs` map of `Backend`, and saving is one map update.
- The access-id generators (`nanoid(16)` on the server, `Math.random().toString(36)` on the client) are not modelled: their outputs come in as parameters, described only by `IsAccessId` and `IsClientId`.
- Wall-clock reads become one `now` per request; the handlers read the clock more than once, and the model takes those reads as equal.
- `formatFileSize`: floating-point logarithms and rounding.
- The upload progress percentage: floating-point arithmetic; the model keeps only its reset to 0 on failure and 100 on success.
- The blob service's `upload` and `del`, and the database's `create`, `find` and `deleteOne`, are abstract map and set operations; which of them throws is an input.
- The client's direct-to-blob upload targets a token handler that the upload route does not implement; `HandleUpload` takes each upload's outcome as an input.
- React rendering, drag events, the clipboard, the "copied" toggle and its `setTimeout`: user-interface state.
- The static pages, the layout, `robots.ts`, the download and file-info handlers: outside the lifecycle modelled here.
- The `updatedAt` field that schema timestamps add, and the `_id` key: the collection is keyed by access id, which the unique index makes equivalent.
- A form that fails to parse (a throw from `formData()`) is not modelled; it answers 500 like any other exception.
- The order in which the sweep visits the found records: the handler iterates the found set in an arbitrary order, and the result does not depend on it.
- A batch that writes two files under the same file store id is possible in the model; `UploadRoute.AcceptedFileStored` assumes distinct ids, as the file store generates fresh ones.
- `FileModel.Create` treats an empty string in a required String field as missing, as the document store's `required` validator does; this is an assumption about that library, whose code is not part of this model.
- Numbers are unbounded integers: JavaScript's rendering of numbers of 1e21 and above, and dates outside the `Date` range, are not modelled.

## Findings

| source | as written | input that shows it | evidently intended | confidence | as-written member | corrected member |
|---|---|---|---|---|---|---|
| src/app/api/cron/cleanup/route.ts:11 | the expected header is the template literal `Bearer ${CRON_SECRET}`, which renders an unset secret as the text "undefined" | CRON_SECRET unset and the header `Authorization: Bearer undefined` | with no secret configured, the sweep refuses every request | high, not executed | CleanupRoute.UnsetSecretRunsSweep | CleanupRoute.AuthorizedIntended |

`CleanupRoute.Cleanup` and `CleanupRoute.HandleCleanup` take the gate as a parameter: `WrittenGate` is the check as written, `IntendedGate` the corrected one. The sweep's properties hold under either gate once it admits the request.

# Museum media sync, room and media creation, and the request gate

A Dafny model of the server-side core of a small "memory museum" web
application. Rooms have a name, a URL slug and an optional cover image. Media
rows (an image or a video) belong to a room and are keyed by url. Media files
are kept on disk under `public/memories/<room-slug>/<file>`.

The model covers five pieces:

- **`POST /api/admin/sync-media`** (module `SyncRoute`). It walks the
  folders of `public/memories`. For each folder named after a room's slug, it
  queues every visible file with a known image or video extension whose url
  the room does not record yet. Each folder's queue goes to one batch insert
  that skips duplicates. The route returns `added`, `skipped` and a log.
- **`scripts/sync-media.ts`** (module `SyncScript`). It runs the same walk,
  but records each file with its own upsert keyed by url. It counts each
  file as added or as skipped and catches per-file errors.
- **`POST /api/rooms/create`** (module `RoomsCreate`) and its `generateSlug`
  (module `Slug`): a name check, then a slug, then a uniqueness check, then
  the insert.
- **`POST /api/media/create`** (module `MediaCreate`): two guards on the
  request fields, then the insert.
- **The middleware** (module `Middleware`): redirect to `/` unless the
  request carries the auth cookie, on the three protected path prefixes.

The database is the class `Store.Database`. It holds two maps: rooms by slug
and media by url. Its methods are the Prisma calls the handlers make, each
specified by a function on values. There are `UpsertByUrl` for one upsert and
`InsertMany` for `createMany` with `skipDuplicates`. The directory tree is a
value (`Files.MediaRoot`). It is `None` when the root directory is missing;
otherwise it lists each name with its own listing when the name is a
directory. Each imperative handler, `SyncRoute.Post` and `SyncScript.SyncMedia`, is a
method with loops over that listing. Its `ensures` ties the final store and
response to a left-fold function (`SyncRoute.Sync`, `SyncScript.SyncMediaRun`),
and the lemmas state what those functions do.

The functions on values that carry the model, with the lines each one models:

- `SyncRoute.Sync`: the whole route, app/api/admin/sync-media/route.ts:7-103.
- `SyncRoute.SyncFolders` and `SyncRoute.SyncFolder`: the folder loop and one of its iterations, app/api/admin/sync-media/route.ts:22-95 and 23-94.
- `SyncRoute.ScanFiles`, `SyncRoute.ScanFile`, `SyncRoute.ScanKind` and `SyncRoute.ScanItem`: the file loop and one of its iterations, app/api/admin/sync-media/route.ts:52-77, 53-76 and 64-76.
- `SyncRoute.InsertQueue`: the batch step of one folder, app/api/admin/sync-media/route.ts:79-93.
- `SyncScript.SyncMediaRun`: the whole script, scripts/sync-media.ts:7-77.
- `SyncScript.ScriptFolders`, `SyncScript.UpsertFiles`, `SyncScript.UpsertFile`, `SyncScript.UpsertKind` and `SyncScript.UpsertItem`: the script's two loops and one upsert, scripts/sync-media.ts:19-75, 37-73 and 49-72.
- `Files.KindOf`: the hidden-name test and the two extension lists, app/api/admin/sync-media/route.ts:53-62 and scripts/sync-media.ts:38-47.
- `Slug.Collapse` and `Slug.SkipRun`: `replace(/[^a-z0-9]+/g, '-')`, app/api/rooms/create/route.ts:7; `Slug.StripEdgeDashes`: `replace(/^-|-$/g, '')`, line 8.
- `Middleware.IsAuthenticated`: the cookie test, middleware.ts:5-6; `Middleware.MatcherSelects`: `config.matcher`, middleware.ts:21-23.

Batch inserts and upserts can fail. The model takes that as a parameter,
`failing`: for the route, the set of folder names whose batch insert throws;
for the script, the set of urls whose upsert throws.

`Seqs` holds a few generic facts about sequence concatenation and set union
that the proofs use.

`SyncAgreement` relates the two sync variants. When nothing fails, they leave
the same store and report the same `added`.

Two behaviours of the code that are easy to miss:

- A url that another room already records is queued by the route, silently
  dropped by the batch insert, and counted neither as added nor as skipped.
  So `SyncRoute.SyncCounts` states only `added + skipped <= candidates`.
- `generateSlug` may return the empty slug. A room with that slug is accepted,
  as `RoomsCreate.EmptySlugAccepted` shows.

## Model

| member | source | states |
|---|---|---|
| Text.Lower | app/api/admin/sync-media/route.ts:55 | `toLowerCase` on ASCII: same length; each character is its own lower-case form |
| Text.StartsWith | middleware.ts:9-12 | true exactly when the prefix fits and the text begins with it |
| Store.UrlsWithPrefix | app/api/admin/sync-media/route.ts:39-47 | the set of urls the `findMany` returns: exactly the recorded urls of that room that start with the prefix |
| Store.UpsertByUrl | scripts/sync-media.ts:52-60 | the upsert creates a row exactly when the url is absent, with the item's room and type; an existing row stays as it was; the table grows by one only on creation |
| Store.InsertMany | app/api/admin/sync-media/route.ts:81-85 | the count `createMany` reports is the number of rows it added and at most the number of items |
| Store.InsertManyKeeps | app/api/admin/sync-media/route.ts:81-84 | a batch insert with `skipDuplicates` never removes or changes an existing row |
| Store.InsertManyKeys | app/api/admin/sync-media/route.ts:81-84 | after the batch, the urls are the old ones plus the items' urls |
| Store.InsertManyNewRows | app/api/admin/sync-media/route.ts:81-84 | every new row is the record of some item of the batch |
| Store.InsertManyAllPresent | app/api/admin/sync-media/route.ts:81-84 | a batch whose urls are all present adds nothing and reports 0 |
| Store.InsertManyAppendTable | app/api/admin/sync-media/route.ts:81-84 | the table after one batch of `a + b` is the table after `a` and then `b` |
| Store.InsertManyAppend | app/api/admin/sync-media/route.ts:81-85 | two batches in a row act as one batch of both, and their counts add up |
| Store.Unrecorded | app/api/admin/sync-media/route.ts:64-76 | the items whose url is not yet known, in order; never more than the input |
| Store.UnrecordedMembers | app/api/admin/sync-media/route.ts:64-76 | an item is kept exactly when it is in the input and its url is not known |
| Store.UnrecordedAllKnown | app/api/admin/sync-media/route.ts:66-76 | when every url is known, nothing is queued |
| Store.UnrecordedAppend | app/api/admin/sync-media/route.ts:52-77 | filtering a concatenation is concatenating the filtered parts, so a folder's queue is built file by file |
| Store.InsertManySkipsKnown | app/api/admin/sync-media/route.ts:64-84 | dropping items with already recorded urls before the batch leaves the same final table |
| Store.Database.FindRoomBySlug | app/api/admin/sync-media/route.ts:27-29 | `findUnique` by slug finds a room exactly when the slug is recorded, and returns that room |
| Store.Database.FindMediaUrls | app/api/admin/sync-media/route.ts:39-47 | returns the room's urls under the prefix, changing nothing |
| Store.Database.CreateRoom | app/api/rooms/create/route.ts:37-43 | inserts the room exactly when its slug and its id are unused; otherwise nothing changes |
| Store.Database.CreateMedia | app/api/media/create/route.ts:23-29 | inserts the row exactly when its url is new and its room exists; otherwise nothing changes |
| Store.Database.CreateMany | app/api/admin/sync-media/route.ts:81-84 | the new table and the count are those of `InsertMany` on the old table |
| Store.Database.Upsert | scripts/sync-media.ts:52-60 | the new table and the created flag are those of `UpsertByUrl` on the old table |
| Files.MediaUrl | app/api/admin/sync-media/route.ts:64 | the url is `/memories/<dir>/` followed by the file name |
| Files.MediaUrlInjective | app/api/admin/sync-media/route.ts:64 | different file names of one folder give different urls |
| Files.LastDot | app/api/admin/sync-media/route.ts:55 | the index of the last `.`, or none when the name has no `.` |
| Files.Extname | app/api/admin/sync-media/route.ts:55 | `path.extname`: the suffix from the last `.`; empty exactly when there is no `.` |
| Files.ExtnameOf | app/api/admin/sync-media/route.ts:55 | the extension of `stem.ext` is `.ext` whatever dots `stem` holds |
| Files.KindOfExtension | app/api/admin/sync-media/route.ts:53-62 | a visible `stem.ext` is a video, an image or an unknown type according to the lower-cased `.ext` alone |
| Files.KindOfNoExtension | app/api/admin/sync-media/route.ts:55-62 | a visible name without `.` is an unknown file type |
| Files.IncludesIsIn | app/api/admin/sync-media/route.ts:57-59 | `includes` holds exactly when the extension is an element of the list |
| Files.Classify | app/api/admin/sync-media/route.ts:53-62 | the hidden check and the two `includes` tests give the file's kind `KindOf` |
| Files.FileItems | scripts/sync-media.ts:37-58 | a file gives at most one item, for the folder's room |
| Files.MediaItems | app/api/admin/sync-media/route.ts:52-77 | a folder's items are at most its files and all carry the room's id |
| Files.MediaItemsUnder | app/api/admin/sync-media/route.ts:64-71 | every item of a folder carries the room's id and a url under `/memories/<dir>/` |
| Files.MatchedOnly | app/api/admin/sync-media/route.ts:22-34 | exactly the entries that are directories named after a room, with the same candidates as all entries |
| Slug.SkipRun | app/api/rooms/create/route.ts:7 | dropping a leading run leaves a string that is empty or starts with `[a-z0-9]` |
| Slug.CollapseShape | app/api/rooms/create/route.ts:7 | after replacing each run outside `[a-z0-9]` with `-`: only `[a-z0-9-]`, never `--` |
| Slug.GenerateSlug | app/api/rooms/create/route.ts:4-9 | a slug holds only `[a-z0-9-]`, never `--`, and no `-` at either end |
| Slug.RemoveDashesCollapse | app/api/rooms/create/route.ts:7 | the collapse only trades non-alphanumerics for dashes |
| Slug.SlugKeepsAlnums | app/api/rooms/create/route.ts:4-9 | taking the dashes out of the slug gives exactly the `[a-z0-9]` characters of the lower-cased name, in order |
| Slug.SlugIdempotent | app/api/rooms/create/route.ts:4-9 | the slug of a slug is itself |
| Slug.SlugOfWords | app/api/rooms/create/route.ts:4-9 | a name that lower-cases to alphanumeric words separated by spaces gets those words joined by `-` |
| Slug.SeedSlugs | prisma/seed.ts:9-25 | each seeded slug is `generateSlug` of the seeded name |
| Slug.EmptySlug | app/api/rooms/create/route.ts:4-9 | every name whose lower-cased form has no `[a-z0-9]` character has the empty slug |
| Middleware.NotPrefixAt | middleware.ts:9-12 | a path that differs from a prefix at some index within both does not start with it |
| Middleware.IsProtectedRoute | middleware.ts:9-12 | true exactly when the path starts with one of `/hallway`, `/room`, `/admin` |
| Middleware.Decide | middleware.ts:4-19 | redirect exactly when the path is protected and the cookie is not `authenticated`; the redirect goes to `/` |
| Middleware.MatchedPathsAreProtected | middleware.ts:21-23 | every path the matcher selects is protected |
| Middleware.RoomsPathIsProtected | middleware.ts:11 | `/rooms…` is protected, because it starts with `/room` |
| Middleware.AuthenticatedPasses | middleware.ts:5-6 | with the cookie, every path passes |
| Middleware.UnprotectedPaths | middleware.ts:8-18 | `/` and every `/api/…` path pass, with or without the cookie |
| Middleware.UnauthenticatedRedirected | middleware.ts:14-16 | without the cookie, or with another value, a protected path is redirected to `/` |
| MediaCreate.ParseType | app/api/media/create/route.ts:16-21 | only `image` and `video` are accepted, and each is read back as itself |
| MediaCreate.ParseTypeName | app/api/media/create/route.ts:16-21 | every media type's name is accepted as that type |
| MediaCreate.Validate | app/api/media/create/route.ts:9-21 | missing fields exactly when a field is absent or empty; invalid type exactly when all are present and the type is neither `image` nor `video`; otherwise the request's fields |
| MediaCreate.MissingFieldsFirst | app/api/media/create/route.ts:9-21 | any body with an absent or empty field is reported as missing fields, whatever its type |
| MediaCreate.Post | app/api/media/create/route.ts:4-38 | 400 exactly on a failed guard, with its error; 201 exactly when the guards pass, the url is new and the room exists, and then the row is added; otherwise a 500 with nothing changed |
| RoomsCreate.StoredCover | app/api/rooms/create/route.ts:41 | a missing or empty cover image is stored as null; any other is kept |
| RoomsCreate.Post | app/api/rooms/create/route.ts:11-52 | 400 exactly when the name is absent or empty; 409 exactly when its slug is taken; 201 exactly when the slug is free and the id is new, adding the room with that name, slug and cover; otherwise nothing changes |
| RoomsCreate.EmptySlugAccepted | app/api/rooms/create/route.ts:16-23 | a non-empty name can have the empty slug, which the guards let through |
| SyncRoute.ScanItemAccounting | app/api/admin/sync-media/route.ts:64-76 | a media item is queued exactly when its url is not among the existing ones, and otherwise counted as skipped |
| SyncRoute.ScanKindAccounting | app/api/admin/sync-media/route.ts:53-76 | a classified file is queued when it is a media file with a new url; otherwise it counts as skipped when it is a media file |
| SyncRoute.ScanFileAccounting | app/api/admin/sync-media/route.ts:52-77 | one file is queued when it is a media file with a new url; otherwise it counts as skipped when it is a media file |
| SyncRoute.ScanAccounting | app/api/admin/sync-media/route.ts:52-77 | a folder's queue is its media items with unrecorded urls, in order; skipped counts the others |
| SyncRoute.Visible | app/api/admin/sync-media/route.ts:53 | the names that do not start with `.` |
| SyncRoute.HiddenFilesIgnored | app/api/admin/sync-media/route.ts:53 | hidden files make no difference to the scan, not even to its log |
| SyncRoute.ScanKindIgnoresLogs | app/api/admin/sync-media/route.ts:53-76 | what one classified file does to the queue and the skip count does not depend on the log |
| SyncRoute.ScanFileIgnoresLogs | app/api/admin/sync-media/route.ts:52-76 | what one file does to the queue and the skip count does not depend on the log |
| SyncRoute.ScanIgnoresLogs | app/api/admin/sync-media/route.ts:52-77 | the queue and the skip count of the file loop do not depend on the log |
| SyncRoute.ScanKindRoom | app/api/admin/sync-media/route.ts:66-71 | a classified file queues at most an item of the folder's room |
| SyncRoute.ScanFileRoom | app/api/admin/sync-media/route.ts:52-76 | one file queues at most an item of the folder's room |
| SyncRoute.ScanQueueRoom | app/api/admin/sync-media/route.ts:52-77 | every item the file loop queues carries the folder's room id |
| SyncRoute.ScanLogsQueued | app/api/admin/sync-media/route.ts:64-72 | every media file whose url is not among the existing ones is logged as prepared to add |
| SyncRoute.ScanLogs | app/api/admin/sync-media/route.ts:59-61 | the log only grows, and every unknown file type is logged |
| SyncRoute.FolderQueue | app/api/admin/sync-media/route.ts:39-77 | a matched folder queues exactly its items whose url its room does not record yet |
| SyncRoute.InsertQueueCounts | app/api/admin/sync-media/route.ts:79-93 | the batch step keeps every row; `added` grows by the rows inserted; the counters grow by at most the queue's length |
| SyncRoute.InsertQueueTotals | app/api/admin/sync-media/route.ts:79-93 | the batch step's table and counters depend only on the queue and the skip count, not on the log |
| SyncRoute.SyncFolderCounts | app/api/admin/sync-media/route.ts:79-93 | a folder keeps every row; `added` grows by the rows inserted; the two counters grow by at most its item count |
| SyncRoute.SyncFolderCovers | app/api/admin/sync-media/route.ts:64-86 | without a failing batch, every media file of the folder is recorded afterwards |
| SyncRoute.SyncFolderStable | app/api/admin/sync-media/route.ts:64-93 | a folder whose files are all recorded changes neither the table nor `added` |
| SyncRoute.SyncFolderLastLog | app/api/admin/sync-media/route.ts:79-93 | a matched folder's last log line is "no new items" for an empty queue, the failure for a failing batch, and otherwise the number of rows the batch actually added |
| SyncRoute.SyncFolderFails | app/api/admin/sync-media/route.ts:79-93 | a matched folder whose batch fails keeps the table and `added`, keeps its scan's skip count, and ends the log with the failure when it had items to insert (with "no new items" otherwise) |
| SyncRoute.SyncFolderAllRecorded | app/api/admin/sync-media/route.ts:39-93 | a folder whose items are all recorded for their own room inserts nothing and counts each of them as skipped |
| SyncRoute.SyncFolderTotals | app/api/admin/sync-media/route.ts:22-94 | the log so far has no effect on the table or the counters |
| SyncRoute.SyncFolderLogs | app/api/admin/sync-media/route.ts:26-33 | the log only grows; a directory without a room is logged; a name that is not a directory changes nothing |
| SyncRoute.SyncFoldersCounts | app/api/admin/sync-media/route.ts:22-95 | the folder loop keeps every row; `added` is the number of rows inserted; the counters grow by at most the candidates |
| SyncRoute.SyncFoldersCovers | app/api/admin/sync-media/route.ts:22-95 | without failing batches, every candidate's url is recorded afterwards |
| SyncRoute.SyncFoldersRecordsNonFailing | app/api/admin/sync-media/route.ts:22-95 | a failing batch does not stop the loop: every item of a folder whose batch does not fail is recorded at the end |
| SyncRoute.SyncFoldersAllRecorded | app/api/admin/sync-media/route.ts:22-95 | when every candidate is recorded for its own room, the loop inserts nothing and counts every candidate as skipped |
| SyncRoute.SyncFoldersStable | app/api/admin/sync-media/route.ts:22-95 | when every candidate is recorded, the loop changes neither the table nor `added` |
| SyncRoute.SyncFoldersAllFail | app/api/admin/sync-media/route.ts:87-90 | when every batch fails, the loop changes neither the table nor `added` |
| SyncRoute.SyncFoldersTotals | app/api/admin/sync-media/route.ts:22-95 | the log so far has no effect on the table or the counters |
| SyncRoute.SyncFoldersMatchedOnly | app/api/admin/sync-media/route.ts:26-34 | running the loop over the matched entries alone gives the same table and counters |
| SyncRoute.SyncFoldersLogs | app/api/admin/sync-media/route.ts:31-33 | the log only grows and names every directory without a room |
| SyncRoute.SyncCounts | app/api/admin/sync-media/route.ts:7-103 | the status is 404 exactly when the root is missing, and then nothing changes; otherwise every row is kept, `added` is the number of new rows, and `added + skipped` is at most the number of candidates |
| SyncRoute.SyncIdempotent | app/api/admin/sync-media/route.ts:39-85 | a second run over the same folders adds nothing and leaves the table as it was |
| SyncRoute.SyncIdempotentSkips | app/api/admin/sync-media/route.ts:39-93 | a second run adds nothing, leaves the table as it was and reports every candidate as skipped |
| SyncRoute.SyncContinuesAfterFailure | app/api/admin/sync-media/route.ts:79-95 | after a run, every item of each folder whose batch did not fail is recorded, whatever the other folders did |
| SyncRoute.SyncAllBatchesFail | app/api/admin/sync-media/route.ts:87-90 | when every batch insert fails, the run adds nothing and the table is unchanged |
| SyncRoute.SyncIgnoresUnmatched | app/api/admin/sync-media/route.ts:26-34 | non-directories and folders without a room affect only the log |
| SyncRoute.SyncLogs | app/api/admin/sync-media/route.ts:19-34 | the log opens with the number of listed names and names every directory without a room |
| SyncRoute.ScanOne | app/api/admin/sync-media/route.ts:52-76 | one iteration of the file loop computes the queue, skipped count and log of `ScanFile` |
| SyncRoute.ScanFolder | app/api/admin/sync-media/route.ts:50-77 | the file loop computes the queue, skipped count and log of `ScanFiles` |
| SyncRoute.SyncEntry | app/api/admin/sync-media/route.ts:23-94 | one folder iteration leaves the store, counters and log of `SyncFolder`; rooms unchanged |
| SyncRoute.Post | app/api/admin/sync-media/route.ts:7-103 | the response and the final table are those of `Sync` on the old state; rooms unchanged |
| SyncScript.UpsertItemStep | scripts/sync-media.ts:49-72 | one upsert is the batch insert of its item unless its url fails, and it moves exactly one counter when it does not fail |
| SyncScript.UpsertKindStep | scripts/sync-media.ts:38-72 | the same for a classified file: a hidden or unknown file has no item and changes nothing |
| SyncScript.UpsertFileStep | scripts/sync-media.ts:37-72 | one file is the batch insert of its item unless its url fails, and it moves exactly one counter when it is a non-failing media file |
| SyncScript.UpsertFilesIsInsertMany | scripts/sync-media.ts:37-73 | one folder's upserts insert its non-failing items, and `added + skipped` counts them |
| SyncScript.ScriptFoldersIsInsertMany | scripts/sync-media.ts:19-75 | the folder loop inserts every non-failing candidate, and `added + skipped` counts them |
| SyncScript.SyncMediaCounts | scripts/sync-media.ts:7-77 | a missing root ends with nothing changed; otherwise all old rows stay, the urls are the old ones plus the non-failing candidates', `added` is the number of new rows, and `added + skipped` is the number of non-failing candidates |
| SyncScript.ScriptFoldersMatchedOnly | scripts/sync-media.ts:23-33 | the folder loop over the matched entries alone has the same result |
| SyncScript.SyncMediaIgnoresUnmatched | scripts/sync-media.ts:23-33 | non-directories and folders without a room make no difference |
| SyncScript.SyncMediaIdempotent | scripts/sync-media.ts:52-68 | a second run over the same folders adds nothing and leaves the table as it was |
| SyncScript.SyncFile | scripts/sync-media.ts:37-72 | one file iteration leaves the store and counters of `UpsertFile` |
| SyncScript.SyncFolderFiles | scripts/sync-media.ts:37-73 | one folder's file loop leaves the store and counters of `UpsertFiles` |
| SyncScript.SyncMedia | scripts/sync-media.ts:7-78 | the result and the final table are those of `SyncMediaRun` on the old state; rooms unchanged |
| SyncAgreement.RouteFolderIsInsertMany | app/api/admin/sync-media/route.ts:39-93 | a route folder without a failing batch inserts exactly its items |
| SyncAgreement.RouteFoldersIsInsertMany | app/api/admin/sync-media/route.ts:22-95 | the route's folder loop without failing batches inserts exactly the candidates |
| SyncAgreement.RouteAndScriptAgree | scripts/sync-media.ts:52-68 | with nothing failing, the route and the script leave the same table and the same `added`; the route's `skipped` is at most the script's |

## Left out

- File-system and database I/O (`existsSync`, `readdirSync`, `statSync`, Prisma): the directory tree is a value and the tables are maps. The absolute path built from `process.cwd()` is not modelled.
- SyncRoute.Post: the outer catch (500) for a file-system or lookup call that throws is not modelled. Only a failing batch insert is, through `failing`.
- SyncScript.SyncMedia: the top-level `catch` with `process.exit(1)` and the final `$disconnect` are not modelled. A lookup that throws is not modelled either.
- SyncScript.UpsertFile: the script decides whether a row is new by comparing its `createdAt` with the clock. The model says "the url was absent before the upsert", which is what the heuristic intends. A row created less than a second earlier by someone else is not modelled.
- Console output of both sync variants is not modelled, and neither is the message text of the route's log. The log is a sequence of tagged entries (`SyncRoute.LogEntry`) with the same order and the same data.
- Text.Lower: handles ASCII letters only. Non-ASCII case mapping of `toLowerCase` is not modelled.
- Files.Extname: models `path.extname` for names that do not start with `.`. Those are the only names it is applied to, since hidden names are skipped first.
- Request bodies are seen only as optional strings. Non-string JSON values and a body that fails to parse (a 500 in both create routes) are not modelled, and neither are response bodies and messages.
- RoomsCreate.Post: the generated room id is a parameter, and `createdAt` columns are not modelled. A store failure other than a duplicate slug or id is not modelled.
- MediaCreate.Post: a store failure other than a duplicate url or an unknown room is not modelled.
- Middleware.Decide: the redirect target is the path `/`; building the absolute URL from the request is not modelled.
- Concurrent requests and races between the checks and the inserts are not modelled; each handler runs alone.
- SyncRoute.SyncIdempotent and SyncScript.SyncMediaIdempotent: both require that nothing failed in the first run. A batch that failed the first time is inserted by the second.
- SyncRoute.SyncIdempotentSkips: also requires that after the first run each candidate's url is recorded for the candidate's own room. A url that another room holds is queued again by the second run and dropped by the batch insert, so it is counted neither as added nor as skipped.
- SyncAgreement.RouteAndScriptAgree: stated only for runs in which nothing fails, because the two variants fail at different granularity (a folder and a file).
- The upload, authentication and UI parts of the application are not part of this model.

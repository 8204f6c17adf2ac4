# FileUploader, modelled in Dafny

A model of the two pieces of FileUploader that hold real logic.

- **The browser's upload queue** (`FileUploader-Frontend/index.js`). It holds the list of selected files (`state.files`). `addFiles` admits files by MIME type and size. `removeFile` and `clearAll` drop entries and release their image previews. `uploadAll` runs a simulated upload over the list, one entry at a time. Each entry goes `ready → uploading → done`, and its progress is computed from a tick counter.
- **The upload service** (`FileUploader-Backend/index.js`). Its parts are multer's MIME allow-list and 5 MiB limit, `generateFileKey` (UUID plus the part of the name after its last `.`), the `/upload` route (store the file, then sign a 3600 s read URL) and the error middleware that answers multer's rejections with 400.

The front end never talks to the back end: its uploads are simulated. So the two halves are separate modules.

Files:

- `wrappers.dfy`: `Option` and `Result`.
- `upload_queue.dfy`: module `UploadQueue`. The admission policy and the list functions are the specification. Class `Queue` holds `files: seq<Entry>` and the log of released object URLs. Its methods reassign `files` as the JavaScript reassigns `state.files`, and `SimulateUpload` updates one entry step by step in a loop.
- `file_keys.dfy`: module `FileKeys`. JavaScript's `split(".")`/`pop()`, the extension and the key.
- `ingestion.dfy`: module `Ingestion`. The filter, the multer stage, the middleware, and the route as a method over class `ObjectStore`. The store may fail on any call, and it records every call with its answer.

Modelling choices:

- Randomness and clocks are parameters. The entry ids (`Math.random`) and preview URLs (`URL.createObjectURL`) are given per candidate position. The tick counts are given per entry, within the 10..19 the code draws. The UUID and the upload timestamp are given to the route.
- `Math.round(step / total * 100)` is integer round-half-up (`RoundHalfUp`). For tick counts 10..19, `100 * step / total` is exactly half an integer only when `total` is 16. Those values are exact binary fractions, so the floating-point rounding agrees with the integer one. Any other value `m / total` lies at least `1 / (2 * total)`, so at least 1/38, from the nearest half. That is far beyond the floating-point error of `step / total * 100`, so rounding never crosses a boundary there either.
- An object URL is never empty. So the code's truthiness tests on `previewUrl` are `Some?` tests here.
- A store or signer fault is a nondeterministic answer of `ObjectStore.Send` / `ObjectStore.SignedUrl`. The route's contract (`Handled`) covers every combination of answers.

Where the code departs from the intended design of the system, the model follows the code:

- A name without `.` gets the whole name as its extension, not an empty one.
- A signing fault after a successful put answers 500 but leaves the object stored (`SignFaultKeepsObject`).
- `uploadAll` re-uploads every entry, `done` ones included, and never marks an entry `error`. The simulated upload cannot fail.
- Re-uploading a `done` entry shows its old progress of 100 and then drops to the first tick's value (`RepeatUploadRestarts`). So progress rises monotonically only from the first tick on, or from the start for a fresh entry (`FreshUploadMonotone`).
- `removeFile` revokes only the first matching entry's preview but drops every entry with that id. Ids come from `Math.random` and may repeat, so a repeated id leaves a preview that is never released (`DuplicateIdLeaksPreview`).
- The filter's rejection message names PDF, which the list does not admit. The model keeps the message as written and the list as enforced.

## Model

| member | source | states |
|---|---|---|
| `UploadQueue.Screen` | FileUploader-Frontend/index.js:26-34 | a file is admitted iff its type is allowed and its size is at most 5 MiB; it is rejected for type iff the type is not allowed (even when also too large), and for size iff the type is allowed and the size exceeds the limit |
| `UploadQueue.LimitIsInclusive` | FileUploader-Frontend/index.js:22-34 | a file of exactly 5·1024·1024 bytes with an allowed type is admitted, one byte more is rejected as too large |
| `UploadQueue.NewEntry` | FileUploader-Frontend/index.js:35-44 | a new entry holds the file, is `ready` at progress 0, and has a preview (the given object URL) iff the type starts with `image/` |
| `UploadQueue.Admitted` | FileUploader-Frontend/index.js:26-45 | no more entries than candidates; every entry appended is `ready` at progress 0 and holds an admissible file |
| `UploadQueue.Rejections` | FileUploader-Frontend/index.js:27-33 | at most one alert per candidate, and none when every candidate is admissible |
| `UploadQueue.KeptMembers` | FileUploader-Frontend/index.js:26-45 | the files that pass are exactly the input files that are admissible |
| `UploadQueue.KeptAppend` | FileUploader-Frontend/index.js:45-47 | filtering preserves input order: what passes from `a + b` is what passes from `a` followed by what passes from `b` |
| `UploadQueue.OneOutcomePerFile` | FileUploader-Frontend/index.js:26-45 | admitted files plus alerts number exactly the candidates: each file gets one outcome |
| `UploadQueue.AdmittedEntries` | FileUploader-Frontend/index.js:35-45 | the appended entries carry exactly the admitted files in input order; each copies name, size and type, is `ready` at progress 0, takes a drawn id, and has a preview iff its type starts with `image/` |
| `UploadQueue.PreviewUnlessText` | FileUploader-Frontend/index.js:43 | among admitted files only `text/plain` gets no preview |
| `UploadQueue.FindById` | FileUploader-Frontend/index.js:52 | returns the first entry with the id, or nothing iff no entry has it |
| `UploadQueue.Without` | FileUploader-Frontend/index.js:54 | the filtered list is no longer than the old one, and every entry left was in it and has a different id |
| `UploadQueue.WithoutMembers` | FileUploader-Frontend/index.js:54 | removal keeps exactly the entries whose id differs |
| `UploadQueue.WithoutAppend` | FileUploader-Frontend/index.js:54 | removal keeps the remaining entries in their original order |
| `UploadQueue.WithoutUnknown` | FileUploader-Frontend/index.js:54 | removing an id no entry has leaves the list unchanged |
| `UploadQueue.PreviewOf` | FileUploader-Frontend/index.js:52-53 | at most one URL is released; one is released iff a matching entry exists and has a preview, and then it is that entry's own preview URL |
| `UploadQueue.DuplicateIdLeaksPreview` | FileUploader-Frontend/index.js:52-54 | with two entries sharing an id, removal drops both but releases only the first one's preview |
| `UploadQueue.RemoveTwice` | FileUploader-Frontend/index.js:51-56 | after a removal the id is gone, so a second removal changes nothing and releases nothing |
| `UploadQueue.Previews` | FileUploader-Frontend/index.js:59 | at most one URL per entry, and none when no entry has a preview |
| `UploadQueue.PreviewsExactly` | FileUploader-Frontend/index.js:59 | `clearAll` releases exactly the preview URLs present in the list |
| `UploadQueue.RoundHalfUp` | FileUploader-Frontend/index.js:98 | the result r satisfies r − 1/2 ≤ n/d < r + 1/2 (round half up) |
| `UploadQueue.Progress` | FileUploader-Frontend/index.js:98 | the displayed progress is capped at 100 |
| `UploadQueue.ProgressMonotone` | FileUploader-Frontend/index.js:98 | progress is non-decreasing in the step counter |
| `UploadQueue.ProgressEnds` | FileUploader-Frontend/index.js:98-99 | progress is 0 at step 0 and 100 when the step reaches the total |
| `UploadQueue.Ticks` | FileUploader-Frontend/index.js:97-98 | one snapshot per tick, each `uploading` with progress at most 100 |
| `UploadQueue.TickAt` | FileUploader-Frontend/index.js:98 | the k-th tick shows `uploading` at the progress of step k + 1 |
| `UploadQueue.UploadTrace` | FileUploader-Frontend/index.js:94-99 | `total` + 2 snapshots: the entry is `uploading` from the first (at its previous progress) through the last tick, and the final one is `done` at 100 |
| `UploadQueue.UploadTraceShape` | FileUploader-Frontend/index.js:93-101 | an upload first shows `uploading`; it stays `uploading` with progress in 0..100, non-decreasing from the first tick, through `total` ticks; it ends `done` at 100 |
| `UploadQueue.FreshUploadMonotone` | FileUploader-Frontend/index.js:93-101 | for an entry starting at progress 0, every snapshot's progress is non-decreasing |
| `UploadQueue.RepeatUploadRestarts` | FileUploader-Frontend/index.js:94-98 | an entry already at 100 shows a lower progress on the first tick of a repeated upload |
| `UploadQueue.UploadLog` | FileUploader-Frontend/index.js:104-107 | the whole log has at least (`MinTicks` + 2) · (number of entries) events, since each entry's trace has a start, at least `MinTicks` ticks and a finish |
| `UploadQueue.UploadLogSequential` | FileUploader-Frontend/index.js:104-107 | uploads run one at a time in list order: events concern list entries and never return to an earlier entry |
| `UploadQueue.UploadLogStep` | FileUploader-Frontend/index.js:107 | each loop iteration appends exactly the next entry's upload trace to the events |
| `UploadQueue.UploadLogFinishesEach` | FileUploader-Frontend/index.js:104-107 | every entry, whatever its prior status, is turned `uploading` and reaches `done` at 100 |
| `UploadQueue.AllDone` | FileUploader-Frontend/index.js:107 | the list keeps its length; each entry is `done` at 100 and keeps its id, file, name, size, type and preview |
| `UploadQueue.Queue.constructor` | FileUploader-Frontend/index.js:7 | the queue starts empty with nothing released |
| `UploadQueue.Queue.AddFiles` | FileUploader-Frontend/index.js:25-49 | the list becomes the old entries followed by the admitted entries; the alerts are the rejections in input order; no preview is released |
| `UploadQueue.Queue.RemoveFile` | FileUploader-Frontend/index.js:51-56 | the list loses every entry with the id; only the first match's preview is released |
| `UploadQueue.Queue.ClearAll` | FileUploader-Frontend/index.js:58-62 | the list is empty and every preview of the old list was released, in order |
| `UploadQueue.Queue.SimulateUpload` | FileUploader-Frontend/index.js:93-102 | only entry i changes, to `done` at 100; the snapshots shown are the upload trace from its previous progress |
| `UploadQueue.Queue.UploadAll` | FileUploader-Frontend/index.js:104-110 | an empty list reports "no files" and is unchanged; otherwise every entry ends `done` at 100, other fields untouched, and the events are each entry's trace in list order |
| `FileKeys.Split` | FileUploader-Backend/index.js:28 | splitting yields at least one piece and no piece contains the separator |
| `FileKeys.SplitSingle` | FileUploader-Backend/index.js:28 | a name splits into one piece, itself, exactly when it has no `.` |
| `FileKeys.JoinSplit` | FileUploader-Backend/index.js:28 | joining the pieces with the separator gives back the original name |
| `FileKeys.LastPieceIsSuffix` | FileUploader-Backend/index.js:28 | the popped piece is a dot-free suffix; it is the whole name when there is no separator, otherwise it is preceded by one |
| `FileKeys.Extension` | FileUploader-Backend/index.js:28 | the popped piece is a dot-free suffix of the name, no longer than the name |
| `FileKeys.ExtensionAfterLastDot` | FileUploader-Backend/index.js:28 | the extension has no `.`; it is the whole name when the name has no `.`, otherwise the name is prefix + "." + extension |
| `FileKeys.ExtensionOfDotted` | FileUploader-Backend/index.js:28 | for a dot-free `ext`, the extension of `prefix.ext` is `ext`, whatever the prefix |
| `FileKeys.TrailingDotGivesEmptyExtension` | FileUploader-Backend/index.js:28 | a name ending in `.` has an empty extension |
| `FileKeys.GenerateFileKey` | FileUploader-Backend/index.js:27-30 | the key is the UUID, then `.`, then the extension (its length and prefix) |
| `FileKeys.KeyKeepsExtension` | FileUploader-Backend/index.js:29 | the key ends with `.` + extension, and its own extension is the original one |
| `FileKeys.ParseGeneratedKey` | FileUploader-Backend/index.js:29 | for a dot-free UUID, splitting the key at its first `.` recovers the UUID and the extension |
| `FileKeys.NoDotExample` | FileUploader-Backend/index.js:28 | `README` gives key `uuid.README` |
| `FileKeys.TrailingDotExample` | FileUploader-Backend/index.js:28 | `notes.` gives key `uuid.` |
| `FileKeys.PngExample` | FileUploader-Backend/index.js:28 | any `stem.png` gives key `uuid.png` |
| `FileKeys.MultiDotExample` | FileUploader-Backend/index.js:28 | any `stem.tar.gz` gives key `uuid.gz`: only the last piece is kept |
| `Ingestion.Contains` | FileUploader-Backend/index.js:69 | the empty string is contained in any string, and a contained string is no longer than the one containing it |
| `Ingestion.ContainsAt` | FileUploader-Backend/index.js:69 | `includes` holds iff the substring occurs at some position |
| `Ingestion.FilterMessageMentionsOnly` | FileUploader-Backend/index.js:19 | the filter's rejection message contains "Only" |
| `Ingestion.FileFilter` | FileUploader-Backend/index.js:16-22 | a file is accepted iff its MIME type is one of the four listed; otherwise the error is a plain error whose message contains "Only" |
| `Ingestion.Multer` | FileUploader-Backend/index.js:14-23 | a request passes iff it has no file, or its file has a listed type and at most 5 MiB; the type is checked first; it passes unchanged |
| `Ingestion.ErrorMiddleware` | FileUploader-Backend/index.js:68-73 | answers 400 with the error's message iff the error is a MulterError or its message contains "Only"; otherwise passes the same error on |
| `Ingestion.MulterRejectionsAre400` | FileUploader-Backend/index.js:68-73 | every rejection by the multer stage is answered with 400 |
| `Ingestion.RejectionReasons` | FileUploader-Backend/index.js:14-23 | an unlisted type gets 400 with the filter's message, a listed type over 5 MiB gets 400 with multer's size message, and exactly 5 MiB passes |
| `Ingestion.PutCommand` | FileUploader-Backend/index.js:38-49 | the command's construction only: it carries the generated key, the file's bytes, its MIME type as content type, and its original name as metadata (that the route sends this command is stated by `Handled` and `SuccessMeansStoredAndSigned`) |
| `Ingestion.Handled` | FileUploader-Backend/index.js:33-65 | the route only appends to the call log, at most two calls (a put, then a signing), and may add only the object under the generated key to the store |
| `Ingestion.HandledStatuses` | FileUploader-Backend/index.js:32-66 | the route answers 200, 400 or 500; a URL body comes exactly with 200; 400 exactly when there is no file |
| `Ingestion.SuccessMeansStoredAndSigned` | FileUploader-Backend/index.js:51-61 | on 200 the object is stored under the generated key with its bytes, type and name; the calls were a successful put then a signing of that key for 3600 s; the URL returned is the signed one, with the success message |
| `Ingestion.PutFaultSignsNothing` | FileUploader-Backend/index.js:51-65 | if the put throws, nothing is signed, 500 carries the fault's message, and the store holds at most that put's object in addition to what it held |
| `Ingestion.SignFaultKeepsObject` | FileUploader-Backend/index.js:51-65 | a 500 after a successful put comes from a signing fault, and the object remains stored |
| `Ingestion.ObjectStore.constructor` | FileUploader-Backend/index.js:25 | a client over given bucket contents with no calls made |
| `Ingestion.ObjectStore.Send` | FileUploader-Backend/index.js:51 | the put is logged with its outcome; the object is written when there is no fault; after a fault it may or may not have been written |
| `Ingestion.ObjectStore.SignedUrl` | FileUploader-Backend/index.js:53-56 | the signing is logged with its answer; the bucket is not touched |
| `Ingestion.HandleUpload` | FileUploader-Backend/index.js:32-66 | no file: 400 "No file uploaded" with no store call; otherwise the put comes before the signing, a fault of either gives 500 with its message, and success gives 200 with the message and the signed URL |
| `Ingestion.ServeUpload` | FileUploader-Backend/index.js:14-73 | a request multer rejects never reaches the store and gets 400; one it accepts is handled by the route |

## Left out

- `humanFileSize` (FileUploader-Frontend/index.js:1-5): floating-point logarithms and `toFixed`.
- Rendering and UI (`renderFiles`, element lookups, event listeners, drag-over styling): presentation only. Disabling the upload button during `uploadAll` (FileUploader-Frontend/index.js:106, 108) keeps a second `uploadAll` from starting while one runs; in the model every method runs to completion, which stands in for that guard. The alerts are modelled as returned values: `Rejection` for `addFiles`, `UploadOutcome` for `uploadAll`.
- The 150 ms `setInterval` timing and the `Promise`s: the timer loop is a plain loop.
- `Math.random`, `URL.createObjectURL`, `crypto.randomUUID` and `new Date().toISOString()`: these are inputs. The uniqueness of UUIDs and ids is probabilistic and not stated.
- `removeFile` or `clearAll` running while `uploadAll` is in flight: asynchronous interleaving. The model's methods run to completion one at a time.
- Aliasing of entry objects: entries are values inside `Queue.files`. `SimulateUpload` updates position `i` in place of the shared JavaScript object.
- Express, CORS, dotenv, `app.listen`, `console.error` logging, and Express's default handler behind `next(err)` (modelled only as `Unhandled`).
- Ingestion.PutFaultSignsNothing: a put that threw is not assumed to have written nothing. S3 may commit an object and the response may still fail, so after a put fault the model only promises that the store holds nothing beyond that put's object.
- S3 transport and URL signing: `put` and `sign` are abstract calls that may fail, with an arbitrary URL on success. The bucket name from the environment is not modelled.
- multer's streaming and its other errors (unexpected field, part limits): `Multer` covers only "no file", the filter and the 5 MiB limit. That limit is a predicate on the buffer length.

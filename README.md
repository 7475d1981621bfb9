# ProShot AI: processing function and input validation, modelled in Dafny

ProShot AI lets a signed-in user upload a product photo and later see a processed
version of it in a gallery. The browser stores the photo at
`users/{uid}/uploads/{fileId}_{name}` and creates a project record with status
`pending`. When the object store finalizes the upload, the backend function
`generateProfessionalBackground` runs once on the event:

1. It ignores the event unless the object path contains `/uploads/` and the
   content type starts with `image/`.
2. It reads the owner (the second `/`-separated part) and the file name (the
   last part) from the path, and stops if either is empty.
3. It looks up the owner's first project record whose `storagePath` equals the
   path, and stops if there is none.
4. It marks the record `processing`.
5. It copies the upload to `users/{uid}/results/{fileName}` and makes the copy public.
6. It marks the record `completed`, with the copy's public URL and the time.
7. If any of the calls in steps 3 to 6 throws, it looks the record up again
   and sets its status to `error`.

In this revision the "processing" step is a plain copy.

The uploader makes no promise that the record exists when the function runs.
`UploadZone.tsx:42-53` creates the record only in the upload's completion
callback, after a `getDownloadURL` round trip, so the finalize event can reach
the function first. The function then finds no record and returns without a
write, and nothing retries: the record stays `pending`.
`Pipeline.NoProjectNoWrites` gives this outcome. `Pipeline.UploadedImageCompletes`
covers the other order only: it assumes the record was written before the
function's query.

The front end also has input schemas: a file upload check with `validateFile`,
project create and update schemas, and a pagination schema. It also has
branded identifier types and a `ProjectStatus` enumeration. All of these are
modelled too.

Modules:

- `Wrappers`: `Option`.
- `JsString`: the JavaScript `startsWith`, `includes` and `split` the code
  relies on, with lemmas about splitting.
- `Domain`: branded ids, their guards and constructors, `ProjectStatus`.
- `Validation`: each schema as a list of checks run in order. Each failing
  check adds one issue, and the issues stay in check order.
- `Paths`: the event filter, path parsing, and the result and upload path shapes.
- `Pipeline`: the document store and the object store as one value (`Store`).
  - `Store` holds the records in query order, the objects by path, the public
    paths, and a log of every call issued.
  - `Handle` is one invocation as a function of the store before it, the event,
    a failure oracle (`fails`: the steps that throw), the public URL function and
    the clock.
  - The properties of the function are proved as lemmas about `Handle`.
- `Backend`: class `Services` holds the two stores as fields. Its handler
  `OnObjectFinalized` makes the calls one at a time and jumps to the catch block
  when one throws. It is proved to end in exactly the state (and outcome) that
  `Handle` computes.

Modelling choices:

- An awaited call throws when the failure oracle names its step.
- A copy or a make-public call on a missing object also throws.
- `publicUrl` is a parameter (an arbitrary function of the path).
- `new Date()` is the parameter `now`.

Behaviour of this code worth knowing:

- The path prefix is `users/`.
- The record is found only by storage path. There is no retry and no project id
  from object metadata.
- No error message field is written on failure.
- The failure status is `"error"`. The gallery (`GalleryGrid.tsx:17`) expects
  this value, but `domain.ts`'s `ProjectStatus` and `projectUpdateSchema` know
  only `failed`. `Pipeline.ErrorStatusOutsideEnumeration` states this mismatch.
- Status writes are unconditional overwrites. A record that is already
  `completed` is processed again if its event is delivered again.

## Model

| member | source | states |
|---|---|---|
| `JsString.StartsWith` | functions/src/index.ts:24 | `s.startsWith(p)`: `p` is no longer than `s` and agrees with it character by character |
| `JsString.Includes` | functions/src/index.ts:24 | `s.includes(sub)`: `s` starts with `sub`, or its tail includes it |
| `JsString.IncludesOccurs` | functions/src/index.ts:24 | `Includes` holds exactly when `sub` occurs in `s` at some offset, so the recursive definition is JavaScript's `includes` |
| `JsString.Split` | functions/src/index.ts:28-29 | `split('/')` with ECMAScript edge cases (an empty string gives one empty part; leading, trailing or doubled slashes give empty parts); always at least one part |
| `JsString.SplitJoin` | functions/src/index.ts:28-29 | joining the parts of `split('/')` with `/` gives back the path: splitting loses nothing |
| `JsString.SplitPartsFree` | functions/src/index.ts:28-29 | no part produced by `split('/')` contains `/` |
| `JsString.SplitAfterSep` | functions/src/index.ts:28-29 | the split of `a/b`, for `a` without a slash, is `a` followed by the parts of `b` |
| `JsString.IncludesDelimited` | functions/src/index.ts:24 | if `"/w/"` occurs in a path, then `w` is one of the inner parts of the path's split |
| `Domain.IsUserId` | src/types/domain.ts:18-20 | a string passes the user-id guard iff it is non-empty |
| `Domain.IsProjectId` | src/types/domain.ts:22-24 | a string passes the project-id guard iff it is non-empty |
| `Domain.CreateUserId` | src/types/domain.ts:27-29 | the branded user id holds exactly the argument |
| `Domain.CreateProjectId` | src/types/domain.ts:31-33 | the branded project id holds exactly the argument |
| `Domain.CreateStoragePath` | src/types/domain.ts:35-37 | the branded storage path holds exactly the argument |
| `Domain.CreateDownloadUrl` | src/types/domain.ts:39-41 | the branded download URL holds exactly the argument |
| `Domain.ConstructorsDoNotGuard` | src/types/domain.ts:27-33 | the constructors also brand the empty string, which fails the guards |
| `Domain.StatusValue` | src/types/domain.ts:44-49 | the string each `ProjectStatus` member stands for; its inverse is `ParseStatus` |
| `Domain.ParseStatus` | src/types/domain.ts:44-49 | a string reads back as a status member only when it is that member's value; otherwise no member has it as value |
| `Domain.StatusValuesRoundTrip` | src/types/domain.ts:44-49 | each member's string reads back as that member, so the four values are pairwise distinct |
| `Domain.StatusValuesAreExactlyFour` | src/types/domain.ts:44-49 | the status strings are exactly pending, processing, completed and failed |
| `Domain.ErrorIsNotAProjectStatus` | src/types/domain.ts:44-49 | `"error"` is not the value of any status member |
| `Validation.FileRefinements` | src/lib/validation.ts:10-21 | the three refinements in chain order: size at most 10 MiB, type starts with `image/`, type one of four formats, each with its message |
| `Validation.RefinementIssues` | src/lib/validation.ts:10-21 | no issues iff every refinement holds; otherwise the first issue is the message of the first failing refinement |
| `Validation.ValidateFile` | src/lib/validation.ts:51-63 | success iff size ≤ 10 MiB and the type is one of jpeg, png, webp, heic; success carries no error. A failure reports the first failing check, in order: size, image prefix, format |
| `Validation.AllowedFormatsAreImages` | src/lib/validation.ts:18 | every allowed format starts with `image/` |
| `Validation.TenMebibytesAccepted` | src/lib/validation.ts:12-13 | exactly 10 MiB is accepted (the check is `<=`, though the message says "less than"); one byte more gets the size message |
| `Validation.ProjectCreateIssues` | src/lib/validation.ts:24-29 | the create schema's issues, field by field in declaration order; every issue names one of the four fields |
| `Validation.StringIssues` | src/lib/validation.ts:24-29 | a string field has no issues iff all its checks hold, and each of its issues names that field |
| `Validation.ProjectCreateValid` | src/lib/validation.ts:24-29 | a create input is valid iff the name has 1 to 255 characters, the user id and storage path are non-empty, and the original URL is a URL (abstract) |
| `Validation.ProjectUpdateIssues` | src/lib/validation.ts:32-36 | the update schema's issues: at most one on `status`, one on `processedUrl`, none for absent fields |
| `Validation.EmptyUpdateValid` | src/lib/validation.ts:32-36 | an update with every field absent is valid |
| `Validation.ProjectUpdateValid` | src/lib/validation.ts:32-36 | an update is valid iff a present status is one of the four `ProjectStatus` values and a present processed URL is a URL; `error` is unconstrained |
| `Validation.ErrorStatusRejected` | src/lib/validation.ts:33 | an update with status `"error"` gets an invalid-enum issue on `status` |
| `Validation.LimitIssues` | src/lib/validation.ts:40 | the limit's issues: none iff it is an integer with 0 < limit ≤ 100; each issue is on `limit` |
| `Validation.ParsePagination` | src/lib/validation.ts:39-42 | valid iff the limit is absent or an integer from 1 to 100; an absent limit becomes 12, a present one is kept; `startAfter` passes through; failure has issues |
| `Paths.IsProcessable` | functions/src/index.ts:24-26 | the event filter: the path includes `/uploads/` and the content type is present and starts with `image/` |
| `Paths.ParsePath` | functions/src/index.ts:28-32 | parsing succeeds iff the path has a non-empty second part and a non-empty last part; uid is the second part, fileName the last, and neither contains `/` |
| `Paths.UploadPathParses` | src/features/upload/components/UploadZone.tsx:26 | an uploader path `users/{u}/uploads/{id}_{n}` (u non-empty, no slashes in u, id, n) passes the path filter and parses to uid `u` and fileName `{id}_{n}` |
| `Paths.ResultPath` | functions/src/index.ts:65 | the result location `users/{uid}/results/{fileName}` |
| `Paths.UploadPath` | src/features/upload/components/UploadZone.tsx:26 | the uploader's location `users/{uid}/uploads/{fileId}_{name}` |
| `Paths.SplitResultPath` | functions/src/index.ts:65 | the result path splits into `users`, uid, `results`, fileName |
| `Paths.ResultPathParses` | functions/src/index.ts:65 | parsing a result path gives back the uid and file name it was built from |
| `Paths.ResultPathInjective` | functions/src/index.ts:65 | different (uid, fileName) pairs give different result paths |
| `Paths.ResultNotReprocessed` | functions/src/index.ts:24-26 | the written result fails the `/uploads/` filter unless the uid is literally `uploads` |
| `Pipeline.UploadRecord` | src/features/upload/components/UploadZone.tsx:47-53 | the record the uploader adds: original URL, storage path, status `pending`, creation time, name |
| `Pipeline.IssueCall` | functions/src/index.ts:42-90 | one awaited store call: it is always logged; it throws exactly when a failure is injected or its target is missing (record index, copy source, object to publish), and then only the log changes; otherwise an update merges its fields, a copy overwrites the destination, make-public adds the path |
| `Pipeline.TryBlock` | functions/src/index.ts:34-81 | the try block: query, mark processing, copy, make public, mark completed, each call logged; stops at the first throw or at an empty query |
| `Pipeline.CatchBlock` | functions/src/index.ts:83-92 | the catch block: query again and, if a record matches, set its status to `error` |
| `Pipeline.Handle` | functions/src/index.ts:16-93 | one invocation: filter and path check, then the try block, and the catch block when the try block threw |
| `Pipeline.FirstMatchFrom` | functions/src/index.ts:40-42 | the query's match is an owner's record with that storage path, and no earlier record matches; with no match, no record matches |
| `Pipeline.IgnoredEventsIssueNoCalls` | functions/src/index.ts:24-32 | an event failing the filter or the path check leaves both stores and the call log unchanged (no reads, no writes) |
| `Pipeline.NoProjectNoWrites` | functions/src/index.ts:40-47 | when no record of the owner has the path, the only effect is the one query; outcome `NoProject` |
| `Pipeline.SuccessCompletes` | functions/src/index.ts:49-79 | with no failure, the whole new store: the record gets completed, processedUrl and updatedAt; the upload is copied to the result path, which is made public. Calls run in order: query, processing, copy, make public, completed |
| `Pipeline.SuccessResultIsCopy` | functions/src/index.ts:57-79 | on success the result object equals the upload, the upload is unchanged, the result is public, and the record reads completed with the result's public URL and `now` |
| `Pipeline.FailureMarksError` | functions/src/index.ts:83-92 | if a try step fails and the catch succeeds, the matched record is its old fields plus status `error`; processedUrl and error are present exactly when they were before |
| `Pipeline.OnlyMatchedRecordChanges` | functions/src/index.ts:40-92 | whatever fails, no record is added or removed, every record keeps its owner, id and storage path, and every record except the first query's match is unchanged |
| `Pipeline.UpdatesSetForwardStatus` | functions/src/index.ts:49-92 | the call log only grows, and every record update sets status to processing, completed or error, never back to pending |
| `Pipeline.ErrorStatusOutsideEnumeration` | functions/src/index.ts:90 | the failure write sets status `"error"`, which is no `ProjectStatus` value and is refused by the update schema |
| `Pipeline.UploadedImageCompletes` | src/features/upload/components/UploadZone.tsx:47-53 | the uploader's pending record for `users/{u}/uploads/{id}_{n}`, if already in the store when the function queries (which the uploader does not ensure, see above) and with no failure, ends completed with the public URL of `users/{u}/results/{id}_{n}`, storage path unchanged |
| `Backend.Services.constructor` | functions/src/index.ts:7-9 | the services start from given records and objects, with nothing public and no calls |
| `Backend.Services.FindByStoragePath` | functions/src/index.ts:40-42 | logs the query; returns the first match unless the query throws |
| `Backend.Services.UpdateRecord` | functions/src/index.ts:50 | logs the update; merges the fields into the record, or throws and changes nothing |
| `Backend.Services.Copy` | functions/src/index.ts:65-66 | logs the copy; copies the source object to the destination, or throws (injected failure or missing source) |
| `Backend.Services.Publish` | functions/src/index.ts:70-72 | logs the call; marks the object public, or throws |
| `Backend.Services.RecordFailure` | functions/src/index.ts:83-92 | the catch block: the new state and outcome are those of `Pipeline.CatchBlock` |
| `Backend.Services.OnObjectFinalized` | functions/src/index.ts:16-93 | the new stores, call log and outcome are exactly `Pipeline.Handle` of the old state, so every `Pipeline` lemma holds of a run |

## Left out

- Vertex AI: the inference, segmentation and vision code and its constants are commented out in the source (functions/src/index.ts:5,11-14), so there is nothing to model.
- The 3-second simulated delay (functions/src/index.ts:61): it is timing only. It cannot throw, so it is not a step of the failure oracle.
- `console` logging: it has no effect on either store.
- Module-level client set-up (functions/src/index.ts:7-9): the stores are the fields of `Backend.Services`.
- The bucket name: the function copies within the bucket of the event, so the model holds the contents of that one bucket.
- Concurrency and duplicate delivery: each invocation is one sequential method call.
- Firebase SDK internals: a query is "the first record in store order with that owner and storage path"; `makePublic` records the path as public; `publicUrl` is an abstract parameter.
- Zod internals: `z.string().url()` is an abstract `isUrl` parameter. `z.instanceof(File)` is assumed to pass (the input is a `FileInfo`). Zod's issue messages for the object schemas are replaced by issue codes.
- `Validation.ParsePagination`: JavaScript numbers are modelled as reals, without NaN or infinities.
- `Validation.ProjectCreateValid`: string lengths count characters, while JavaScript counts UTF-16 code units.
- The React components, authentication, localization, routing, and `src/types/firebase.ts` (interface declarations, plus `timestampToDate`, a foreign Firestore call) are not part of this model.
- The interfaces `ProjectMetadata`, `UploadState` and `AuthState` in src/types/domain.ts: they are type declarations with no behaviour.

# quickstore storage core in Dafny

quickstore is a small cloud drive. A user signs up, creates folders, uploads files up to a per-account quota of 500,000,000 bytes, stars items, and moves them to a bin. This project models two parts of it:

- **The storage API** (`src/api/user.ts`). The document store is an immutable value, `DocStore.Store`. It holds one map per collection:
  - `user` profiles;
  - the collection literally named `"collection"`, which the upload's quota check reads;
  - `folder` documents;
  - `file` documents;
  - the blob store, keyed by upload path.
- **The client cache** (`src/context/UserDataContext.tsx`). Each callback is a pure function from the cached sequence to the next one.

Each exported API call is a function (or, for the listing query, a method) from the store to a new store plus a result. The result comes in two shapes:

- `Step`: the call rethrows its errors. The outcome is `Resolved(value)` or `Rejected(error)`, and writes made before a failure are kept.
- `QuietStep`: the call catches its errors and resolves with `undefined` (`createNewFolder`, `renamedFolder`, `moveFileToBin`). The reply is `None` exactly then.

The database adapter's primitives follow the document database's semantics:

- `create` writes a whole document, replacing any previous one.
- `update` patches fields of an existing document and is refused with `NotFound` when the document is absent.
- `read` gives the document or `undefined`.
- Queries are set comprehensions over a collection.

The ECMAScript string operations the upload uses are modelled in `JsString` with their JavaScript semantics, except that a string is a sequence of Unicode scalar values rather than of UTF-16 code units: `trim`, with the full WhiteSpace and LineTerminator set; `lastIndexOf`, which returns -1 when the character is absent; and `substring`, which clamps its arguments and swaps them when start > end.

Modules and files:

- `optional.dfy` — `Optional`: the `undefined`-or-value type and the `!x?.flag` negation.
- `records.dfy` — `Records`: the documents, the call arguments, and the quota predicates.
- `doc_store.dfy` — `DocStore`: the store, the adapter primitives, and the queries.
- `js_string.dfy` — `JsString`: `trim`, `lastIndexOf` and `substring`.
- `name_split.dfy` — `NameSplit`: how an upload's name becomes `fileName` and `fileType`.
- `user_api.dfy` — `UserApi`: the exported storage calls.
- `store_properties.dfy` — `StoreProperties`: multi-call properties and scenarios.
- `list_ops.dfy` — `ListOps`: generic remove-by-id and replace-by-id on sequences.
- `user_data.dfy` — `UserData`: the six cache callbacks.
- `usage.dfy` — `UsageAccounting`: each profile's usage as the total size of its owner's files, and which calls keep that.

`UserApi.CreateNewFile` keeps the upload exactly as written. This includes its quota read from `"collection"` and its name split. `UserApi.CreateNewFileCorrected` is the upload as evidently intended. See "## Findings".

## Model

| member | source | states |
|---|---|---|
| UserApi.CreateUser | src/api/user.ts:24-32 | Account creation always succeeds. It writes a `user` profile under the body's id with the body's fields, `totalSpaceUsed` 0 and `maxSpaceAvailable` 500000000. The new profile is within quota, and no other document changes. |
| StoreProperties.NewAccountWithinQuota | src/api/user.ts:24-32 | If every profile is within quota, it still is after an account is created. |
| UserApi.FetchFilesAndFolders | src/api/user.ts:47-64 | Each list comes with the ids of its documents, in the same order and never repeated. The folders are exactly the user's non-recycled folder documents, each once. The files are distinct non-recycled files of the user, ordered by `createdAt` descending, at most 30 of them and all of them when there are fewer. Any matching file left out is no newer than the 30th. |
| UserApi.QueryNewestActiveFiles | src/api/user.ts:53-62 | The ordered, limited file query returns distinct matching documents with their ids. Its length is min(matches, 30), it is newest first, and each match left out is no newer than the last file returned. |
| UserApi.QueryActiveFolders | src/api/user.ts:49-51 | The folder query returns every matching folder document exactly once, with its id, and nothing else. |
| UserApi.NewestExists | src/api/user.ts:58 | Every non-empty set of candidate files has a newest one, which is what ordering by `createdAt` descending picks first. |
| UserApi.CreateNewFolder | src/api/user.ts:71-94 | The folder is stored under the fresh id with the trimmed name, the given owner and parent, not recycled, not starred, with the given timestamp. Nothing else changes, and the folder is then listed for its owner. |
| StoreProperties.BlankFolderNameAccepted | src/api/user.ts:80 | Any name that is empty or whitespace only is stored as the empty name, and the folder is created and listed; it is not refused. |
| UserApi.RenamedFolder | src/api/user.ts:152-158 | The call replies iff the folder exists. In that case only its name changes, to the trimmed new name. A missing folder leaves the store unchanged and resolves with `undefined`. |
| StoreProperties.RenameTrimsOnce | src/api/user.ts:154 | Renaming with an already trimmed name has the same effect as renaming with the raw name. |
| StoreProperties.BlankRenameAccepted | src/api/user.ts:154 | Renaming an existing folder to any empty or whitespace-only name stores the empty name and succeeds. |
| UserApi.ToggleFolderStarred | src/api/user.ts:160-171 | An existing folder gets only `starred` flipped, and the call resolves. For a missing folder the computed flag is `true`, but the update of the absent document is refused with `NotFound` and nothing is written. |
| UserApi.ToggleFileStarred | src/api/user.ts:173-182 | The same as for folders, applied to a file document: an existing file gets only `starred` flipped, and a missing one is refused with `NotFound` with nothing written. |
| StoreProperties.ToggleFolderTwiceRestores | src/api/user.ts:160-171 | Starring a folder twice gives back the original store. |
| StoreProperties.ToggleFileTwiceRestores | src/api/user.ts:173-182 | Starring a file twice gives back the original store. |
| UserApi.MoveFolderToBin | src/api/user.ts:184-205 | The call is refused with `FolderNotEmpty` iff some file or folder, of any owner and recycled or not, names this folder as parent; the store is then unchanged. Otherwise only `recycled` is set, and a missing folder is refused with `NotFound`. |
| DocStore.NestedQueriesFindChildren | src/api/user.ts:188-196 | The two nested queries are both empty iff no document names the folder as parent. |
| StoreProperties.MoveFolderToBinIdempotent | src/api/user.ts:184-205 | Moving a folder to the bin twice ends where moving it once does. Neither call changes any profile or file. |
| StoreProperties.BinnedFolderLeavesListing | src/api/user.ts:199 | A folder the bin call accepted is no longer among any user's active folders. |
| UserApi.MoveFileToBin | src/api/user.ts:207-213 | The call replies iff the file exists, and then only `recycled` is set. A missing file leaves the store unchanged and resolves with `undefined`. |
| StoreProperties.MoveFileToBinIdempotent | src/api/user.ts:207-213 | Moving a file to the bin twice ends where moving it once does, and no profile changes: soft deletion keeps the file's space counted. |
| StoreProperties.BinnedFileLeavesListing | src/api/user.ts:209 | A binned file leaves the active file set of its owner, which loses exactly that id. |
| UsageAccounting.SizeOfPick | src/api/user.ts:143 | The total size of an owner's files is the same whichever document is counted first, so it is a well-defined sum. |
| UsageAccounting.UsedByAddsFile | src/api/user.ts:140-143 | Storing a file under a fresh id adds its size to its owner's total and nothing to anyone else's, matching the increment. |
| UsageAccounting.AcceptedUploadKeepsUsage | src/api/user.ts:116-143 | An upload that passes its gate for an owner with a profile keeps every profile's usage equal to the size of its owner's files, recycled ones included, whatever the name parts. |
| UsageAccounting.CorrectedUploadKeepsUsage | src/api/user.ts:96-150 | Every corrected upload, accepted or refused, keeps usage equal to the size of the owner's files, and every file owned by a profile. |
| UsageAccounting.CorrectedUploadsKeepUsage | src/api/user.ts:96-150 | Any sequence of corrected uploads with fresh ids keeps the usage accounting. |
| UsageAccounting.FileFlagsKeepUsage | src/api/user.ts:173-213 | Moving a file to the bin and starring a file keep the accounting; binning frees no space. |
| UsageAccounting.FolderCallsKeepUsage | src/api/user.ts:71-205 | Creating, renaming, starring and binning folders keep the accounting. |
| UsageAccounting.NewAccountKeepsUsage | src/api/user.ts:24-32 | Creating an account under an unused id keeps the accounting: no file belongs to it yet, and its usage starts at 0. |
| UsageAccounting.RecreatedAccountLosesUsage | src/api/user.ts:24-32 | As written, creating an account under an id whose owner holds files resets its usage to 0 while the files stay, which breaks the accounting. |
| UsageAccounting.AsWrittenUploadOrphansFile | src/api/user.ts:106-143 | As written, an upload that passes the `"collection"` gate for an owner with no `user` profile stores the file document, then rejects on the increment, leaving a file no profile counts. |
| UserApi.UploadPath | src/api/user.ts:102 | The upload path is `/`, the owner's id, `/`, and the declared name, and each part can be read back at its position. |
| UserApi.UploadPathInjective | src/api/user.ts:102 | For owner ids without `/`, equal upload paths mean the same owner and the same name, so two owners never share a path. |
| DocStore.Swallow | src/api/user.ts:91-93 | A swallowing `catch` keeps every write made before the failure, replies iff the call resolved, and then with the resolved value. |
| UserApi.CreateNewFile | src/api/user.ts:96-150 | As written. A missing `"collection"` profile fails before any write. The call is refused with `SpaceNotAvailable` iff that profile's used space plus the size exceeds its ceiling, and the store is then unchanged. Otherwise `UploadApplied` holds with the as-written split. |
| UserApi.UploadAfterQuotaRead | src/api/user.ts:116-143 | Given the profile the gate reads, the upload is refused iff used + size > max, so equality is accepted. On refusal nothing is written. On acceptance the blob is stored, exactly one file document is added (size, parent, owner, URL, not recycled, not starred), and the owner's `user` usage grows by exactly the size. If the owner's `user` document is missing, the call rejects with `NotFound` after the upload and the document write. |
| UserApi.CreateNewFileCorrected | src/api/user.ts:106-143 | The upload with the gate reading the `user` document it increments, and with the corrected split. It has the same refusal iff and the same success effect; a missing user fails before any write. |
| UserApi.UploadTouchesOwnerOnly | src/api/user.ts:116-143 | Whatever the name parts, an upload changes no profile except the owner's, and that one only by adding the size when the file passes the gate. |
| UserApi.CorrectedUploadAddsOneFile | src/api/user.ts:140 | An upload adds at most its own fresh id to the file collection. |
| StoreProperties.AsWrittenUploadKeepsQuota | src/api/user.ts:106-143 | As written, and under the hypothesis that the `"collection"` profile equals the `user` profile, an upload leaves the uploader within quota. |
| StoreProperties.UploadKeepsQuota | src/api/user.ts:116-143 | An upload whose gate reads the owner's own `user` profile keeps every profile within quota. |
| StoreProperties.CorrectedUploadKeepsQuota | src/api/user.ts:106-143 | Every corrected upload, accepted or refused, keeps every profile within quota. |
| StoreProperties.CorrectedUploadsKeepQuota | src/api/user.ts:96-150 | Any sequence of corrected uploads with fresh ids keeps every profile within quota. |
| StoreProperties.FreshAccountCannotUpload | src/api/user.ts:96-117 | As written, a freshly created account's first upload fails with `NotFound` on `"collection"` and writes nothing. Account creation writes only `user`. |
| StoreProperties.StaleQuotaOverflow | src/api/user.ts:106-143 | As written, with `"collection"` mirroring a new account, two 300 MB uploads both pass the gate and leave the account at 600 MB against its 500 MB ceiling. |
| StoreProperties.CorrectedQuotaScenario | src/api/user.ts:116-117 | Corrected, on a new account: 300 MB is accepted; a further 250 MB is refused with no write; 200 MB then fills the quota exactly and is accepted. |
| StoreProperties.AsWrittenAcceptedUpload | src/api/user.ts:106-143 | As written, a file that fits the `"collection"` profile is accepted, increments the `user` profile by its size and leaves `"collection"` untouched. |
| StoreProperties.CorrectedAcceptedUpload | src/api/user.ts:116-143 | Corrected, a file that fits is accepted and increments the owner's usage by its size. |
| NameSplit.SplitAsWritten | src/api/user.ts:126-132 | The split as written. A name without `.` gets an empty `fileName`, and the whole untrimmed name is its `fileType`. |
| NameSplit.SplitAtLastDot | src/api/user.ts:126-132 | For a name with a `.` and no leading whitespace: `fileType` is the text after the last `.` and holds no `.`, and `fileName` is the trimmed text before it. |
| NameSplit.AlignedDot | src/api/user.ts:126-127 | Without leading whitespace, the last `.` of the trimmed name is at the same index as in the name itself. |
| NameSplit.LeadingSpaceMisplacesCut | src/api/user.ts:126-127 | As written, `" a.b"` is split into `fileName` `""` and `fileType` `".b"`, which still holds the dot. |
| NameSplit.CorrectedSplitRoundTrip | src/api/user.ts:126-132 | For the corrected split: the trimmed name equals stem + "." + `fileType`, and `fileName` is the trimmed stem. |
| NameSplit.SplitCorrected | src/api/user.ts:126-132 | The corrected split's `fileType` never holds a `.`. Without a `.`, it gives an empty `fileName` and the trimmed name as `fileType`. |
| NameSplit.SplitsAgreeOnTrimmedNames | src/api/user.ts:126-127 | On names without edge whitespace, the as-written and corrected splits agree. |
| JsString.Trim | src/api/user.ts:80 | `trim` never lengthens, and its result neither starts nor ends with whitespace. |
| JsString.TrimCutsWhitespace | src/api/user.ts:80 | `trim` returns a slice of its input with only whitespace cut on either side. |
| JsString.BlankTrimsToEmpty | src/api/user.ts:80 | A string of whitespace only trims to the empty string. |
| JsString.TrimIdempotent | src/api/user.ts:154 | Trimming twice is trimming once. |
| JsString.TrimKeepsNonWhitespace | src/api/user.ts:126 | A non-whitespace character (such as `.`) occurs in a string iff it occurs in its trim. |
| JsString.LastIndexOf | src/api/user.ts:126 | `lastIndexOf` returns -1 iff the character is absent, and otherwise an index that holds it. |
| JsString.LastIndexOfIsLast | src/api/user.ts:126 | No occurrence of the character follows the index `lastIndexOf` returns. |
| JsString.LastIndexOfIgnoresSuffix | src/api/user.ts:126 | Appending characters other than `c` does not move the last `c`. |
| JsString.Substring | src/api/user.ts:126-127 | `substring` is the slice between its arguments when both are in range, in either order. It is empty when both are ≤ 0 or both are ≥ the length. |
| JsString.SubstringSymmetric | src/api/user.ts:126-127 | The order of `substring`'s arguments does not matter. |
| Optional.NegateOptional | src/api/user.ts:164 | `!x?.flag` is `true` on `undefined` and the negation of the flag otherwise. |
| UserData.AddFolder | src/context/UserDataContext.tsx:36-41 | The new folder is appended: the old cache is the prefix and the new folder the last element. |
| UserData.AddFile | src/context/UserDataContext.tsx:66-71 | The new file is prepended: the length grows by one, the new file is first and the old cache follows. |
| UserData.RemoveFolder | src/context/UserDataContext.tsx:43-48 | No kept folder has the target's id. Every folder with another id is kept as often as it occurred, in its original relative order, and the cache never grows. |
| UserData.RemoveFile | src/context/UserDataContext.tsx:73-78 | The same as for folders, applied to the file cache. |
| UserData.UpdateFolder | src/context/UserDataContext.tsx:50-57 | The length is kept. Every index with the target's id holds the target, and every other index is unchanged. |
| UserData.UpdateFile | src/context/UserDataContext.tsx:59-64 | The same as for folders, applied to the file cache. |
| UserData.RemoveFolderIdempotent | src/context/UserDataContext.tsx:45 | Removing the same folder twice is removing it once. |
| UserData.RemoveFileIdempotent | src/context/UserDataContext.tsx:75 | Removing the same file twice is removing it once. |
| UserData.UpdateFolderAbsent | src/context/UserDataContext.tsx:53 | Updating with an id no cached folder has returns the cache unchanged. |
| UserData.UpdateFileAbsent | src/context/UserDataContext.tsx:61 | Updating with an id no cached file has returns the cache unchanged. |
| UserData.RemoveUpdatedFolder | src/context/UserDataContext.tsx:43-57 | Removing a folder after updating it is removing it from the original cache. |
| UserData.RemoveUpdatedFile | src/context/UserDataContext.tsx:59-78 | Removing a file after updating it is removing it from the original cache. |
| UserData.RemoveAddedFolder | src/context/UserDataContext.tsx:36-48 | Adding a folder under a new id and then removing it restores the cache. |
| UserData.RemoveAddedFile | src/context/UserDataContext.tsx:66-78 | Adding a file under a new id and then removing it restores the cache. |
| ListOps.RemoveWhereId | src/context/UserDataContext.tsx:45 | `filter` by id keeps every element with another id, as often as in the input and in order, and drops all with the id. |
| ListOps.ReplaceWhereId | src/context/UserDataContext.tsx:53 | `map` by id puts the replacement at every index with its id and keeps the others in place. |

## Left out

- The database and blob-storage adapters (`./db-service`, `./storage`) are not part of this model. They are modelled as map operations with the document database's semantics: `create` overwrites, `update` of a missing document is refused with `NotFound`, and `read` gives `undefined` for a missing one. The URL lookup is the parameter `urlOf`.
- Transient adapter failures (network errors, permission errors) are not modelled. Only the failures that follow from the store's contents are.
- `generateId` and `serverTimestamp` become parameters. The file and folder ids are required to be unused, as the source assumes of its random ids.
- Concurrency is not modelled: each call is one atomic transition. This covers the interleaving of two uploads between the quota read and the increment, the read-then-write of the star flip, and the check-then-update of the bin guard.
- `console.log` calls, `bytesToMegaBytes` (only used in commented-out code) and `fetchUserProfile` (a plain read) are left out.
- The React state hooks and `useCallback` memoisation around the cache callbacks are left out; only the list transforms are kept.
- UserApi.FetchFilesAndFolders: the order of files with equal `createdAt`, and the order of the folder query, are left open by the model. The document database breaks such ties by document id; that tie-break is not modelled.
- NameSplit.SplitAsWritten: strings are indexed by Unicode scalar value, while JavaScript's `lastIndexOf` and `substring` index UTF-16 code units. The two readings differ on names outside the Basic Multilingual Plane. For `" 😀.b"` JavaScript finds the dot at index 2 and `substring(0, 2)` splits the surrogate pair, giving a `fileName` of `"\uD83D"`. The model finds the dot at index 1 and gives `""`. UTF-16 indexing is not modelled; the same holds for `NameSplit.SplitCorrected` and `JsString`.
- UserApi.RenamedFolder: the adapter's `update` is assumed to resolve with a plain acknowledgement, `Written`. The database's own `updateDoc` resolves with `undefined`; if the adapter passes that through, the `Some(Written)` of a success and the `None` of a swallowed failure are both `undefined` to a JavaScript caller. The distinction the model draws is then not observable by the caller.
- UserApi.MoveFileToBin: the same assumption about `update` applies. `Some(Written)` and `None` may both be `undefined` to a caller.
- UserApi.CreateNewFolder: the adapter's `create` is assumed to resolve with the written document, here, in `createNewFile` and in `createUser` (which the model has resolve with the new profile), as the upload dialog's use of the created file suggests (src/components/modals/NewFileModal.tsx:38). `./db-service` is not part of this model.
- UserApi.CreateNewFile: JavaScript numbers are modelled as unbounded naturals, so sizes and usage above 2^53 are not treated as floating point.
- UserApi.CreateNewFile: a missing `"collection"` profile makes the code throw a type error when it reads `totalSpaceUsed` of `undefined`. The model labels that failure `NotFound(COLLECTION, uid)`; it is not an error of the store itself.
- UserApi.CreateNewFile: if the adapter's read of a missing `"collection"` profile returned an object without the fields instead of failing, `undefined + size > undefined` would be false and the gate would pass. The model follows the reading where the missing profile makes the call fail.
- UserApi.ToggleFolderStarred and UserApi.ToggleFileStarred: neither awaits its update inside its `try` (src/api/user.ts:163 and :176), so a refusal reaches the caller without the log line. The model gives the same rejected outcome either way.
- UserApi.CreateNewFolder: the document write cannot fail in this model (`create` overwrites), so the swallowed error path that returns `undefined` is never taken.
- Some checks a storage service might be expected to make are absent from the code, and the model does not add them:
  - `createUser`, `createNewFolder` and `createNewFile` never check whether the id is already taken (`create` overwrites; for `createUser` this resets the usage of an existing account, see `UsageAccounting.RecreatedAccountLosesUsage`);
  - `createNewFolder` and `renamedFolder` accept an empty or blank name, storing the empty string;
  - the bin guard of `moveFolderToBin` counts recycled children and children of other owners as well.

## Findings

| source | as written | input that shows it | evidently intended | confidence | as-written member | corrected member |
|---|---|---|---|---|---|---|
| src/api/user.ts:106 | The quota gate reads the profile from the collection named `"collection"`, while the increment at line 143 updates `"user"`. Account creation writes only `"user"`. | A new account's first upload fails with `NotFound`. If `"collection"` holds a copy of the profile, two uploads of 300,000,000 bytes both pass and usage reaches 600,000,000 > 500,000,000. | Read the `user` document the increment writes, so that uploads keep usage within the ceiling. | not executed | StoreProperties.StaleQuotaOverflow | StoreProperties.CorrectedUploadsKeepQuota |
| src/api/user.ts:126-127 | The last `.` is found in `file.name.trim()`, but `substring` cuts the untrimmed `file.name` at that index. | `" a.b"` gives `fileName` `""` and `fileType` `".b"`. | Cut the trimmed name at the index found in it: `fileName` `"a"`, `fileType` `"b"`. | not executed | NameSplit.LeadingSpaceMisplacesCut | NameSplit.CorrectedSplitRoundTrip |

/**
 The storage operations of the user API, each a transition of the document
 store. Calls that rethrow their errors return a `Step`; the three that catch
 them and resolve with `undefined` (creating a folder, renaming a folder,
 moving a file to the bin) return a `QuietStep`. Fresh ids and server
 timestamps are parameters; the blob store's URL lookup is the parameter
 `urlOf`.
 */
module UserApi {
  import opened Optional
  import opened JsString
  import opened Records
  import opened DocStore
  import opened NameSplit

  /** Page size of the file listing. */
  const FILE_PAGE: nat := 30

  // ---------------------------------------------------------------- accounts

  /** Account creation writes a `user` document with no space used and the
      default ceiling, replacing any document under the same id. */
  function CreateUser(s: Store, body: UserBody, now: nat): (r: Step<Profile>)
    ensures r.outcome.Resolved?
    ensures var p := r.outcome.value;
      && p.id == body.id && p.profilePhoto == body.profilePhoto && p.details == body.details
      && p.totalSpaceUsed == 0 && p.maxSpaceAvailable == MAX_SPACE_AVAILABLE
      && p.createdAt == now
      && WithinQuota(p)
      && r.state == s.(users := s.users[body.id := p])
  {
    var p := Profile(body.id, body.profilePhoto, body.details, 0, MAX_SPACE_AVAILABLE, now);
    Step(s.(users := s.users[body.id := p]), Resolved(p))
  }

  // ----------------------------------------------------------------- listing

  /** Pairwise distinct ids: no document is listed twice. */
  predicate Distinct(keys: seq<Id>) {
    forall i, j :: 0 <= i < j < |keys| ==> keys[i] != keys[j]
  }

  /** The listing of a user's store: every active folder of the user once,
      in no particular order, and the user's thirty newest active files,
      each once, newest first. Beside each list come the ids of the listed
      documents, in the same order. The store is not changed. */
  method FetchFilesAndFolders(s: Store, uid: Id)
    returns (folders: seq<Folder>, folderKeys: seq<Id>, files: seq<AppFile>, fileKeys: seq<Id>)
    ensures |folders| == |folderKeys| && Distinct(folderKeys)
    ensures forall i :: 0 <= i < |folderKeys| ==>
      folderKeys[i] in ActiveFolderKeys(s, uid) && folders[i] == s.folders[folderKeys[i]]
    ensures forall k :: k in ActiveFolderKeys(s, uid) ==> k in folderKeys
    ensures |files| == |fileKeys| && Distinct(fileKeys)
    ensures forall i :: 0 <= i < |fileKeys| ==>
      fileKeys[i] in ActiveFileKeys(s, uid) && files[i] == s.files[fileKeys[i]]
    ensures |files| == if |ActiveFileKeys(s, uid)| < FILE_PAGE then |ActiveFileKeys(s, uid)| else FILE_PAGE
    ensures NewestFirst(files)
    ensures forall k :: k in ActiveFileKeys(s, uid) && k !in fileKeys ==>
      |files| == FILE_PAGE && s.files[k].createdAt <= files[FILE_PAGE - 1].createdAt
  {
    folders, folderKeys := QueryActiveFolders(s, uid);
    files, fileKeys := QueryNewestActiveFiles(s, uid);
  }

  /** The folder query: every matching document exactly once, with its id. */
  method QueryActiveFolders(s: Store, uid: Id) returns (folders: seq<Folder>, keys: seq<Id>)
    ensures |folders| == |keys| && Distinct(keys)
    ensures forall i :: 0 <= i < |keys| ==> keys[i] in ActiveFolderKeys(s, uid) && folders[i] == s.folders[keys[i]]
    ensures forall k :: k in ActiveFolderKeys(s, uid) ==> k in keys
  {
    var pending := ActiveFolderKeys(s, uid);
    ghost var taken: set<Id> := {};
    folders, keys := [], [];
    while pending != {}
      invariant pending !! taken && pending + taken == ActiveFolderKeys(s, uid)
      invariant |folders| == |keys| && Distinct(keys)
      invariant forall i :: 0 <= i < |keys| ==> keys[i] in taken && folders[i] == s.folders[keys[i]]
      invariant forall k :: k in taken ==> k in keys
      decreases pending
    {
      var k :| k in pending;
      folders, keys := folders + [s.folders[k]], keys + [k];
      pending := pending - {k};
      taken := taken + {k};
    }
  }

  /** Files ordered by descending `createdAt`. */
  predicate NewestFirst(files: seq<AppFile>) {
    forall i, j :: 0 <= i < j < |files| ==> files[i].createdAt >= files[j].createdAt
  }

  /** `k` holds a file of `pool` at least as new as every other one. */
  predicate IsNewest(files: map<Id, AppFile>, pool: set<Id>, k: Id)
    requires pool <= files.Keys
  {
    k in pool && forall j :: j in pool ==> files[j].createdAt <= files[k].createdAt
  }

  /** Some key of a non-empty `pool` holds a newest file. */
  lemma NewestExists(files: map<Id, AppFile>, pool: set<Id>)
    requires pool != {} && pool <= files.Keys
    ensures exists k :: IsNewest(files, pool, k)
  {
    var x :| x in pool;
    if pool != {x} {
      NewestExists(files, pool - {x});
      var y :| IsNewest(files, pool - {x}, y);
      if files[x].createdAt <= files[y].createdAt {
        assert IsNewest(files, pool, y);
      } else {
        assert IsNewest(files, pool, x);
      }
    } else {
      assert IsNewest(files, pool, x);
    }
  }

  /** The bookkeeping of the file query after picking `keys` (in that
      order) out of the matching keys: `files` holds their documents and the
      keys not yet picked are `pending`. */
  ghost predicate PageSoFar(s: Store, matching: set<Id>, pending: set<Id>, taken: set<Id>,
                            keys: seq<Id>, files: seq<AppFile>) {
    && pending <= matching <= s.files.Keys
    && pending !! taken && pending + taken == matching
    && |files| == |keys| == |taken|
    && (forall i :: 0 <= i < |keys| ==> keys[i] in taken && files[i] == s.files[keys[i]])
    && (forall k :: k in taken ==> k in keys)
    && Distinct(keys)
  }

  /** The order of the file query so far: newest first, and every pending
      key no newer than the last file picked. */
  ghost predicate PageOrdered(s: Store, pending: set<Id>, files: seq<AppFile>)
    requires pending <= s.files.Keys
  {
    && NewestFirst(files)
    && (|files| > 0 ==> forall k :: k in pending ==> s.files[k].createdAt <= files[|files| - 1].createdAt)
  }

  /** Picking a pending key keeps the bookkeeping. */
  lemma PickKeepsPage(s: Store, matching: set<Id>, pending: set<Id>, taken: set<Id>,
                      keys: seq<Id>, files: seq<AppFile>, k: Id)
    requires PageSoFar(s, matching, pending, taken, keys, files)
    requires k in pending
    ensures PageSoFar(s, matching, pending - {k}, taken + {k}, keys + [k], files + [s.files[k]])
  {
    var files', keys' := files + [s.files[k]], keys + [k];
    assert forall i :: 0 <= i < |keys'| ==> keys'[i] in taken + {k} && files'[i] == s.files[keys'[i]];
  }

  /** Picking a newest pending key keeps the order. */
  lemma PickKeepsOrder(s: Store, pending: set<Id>, files: seq<AppFile>, k: Id)
    requires pending <= s.files.Keys
    requires PageOrdered(s, pending, files)
    requires IsNewest(s.files, pending, k)
    ensures PageOrdered(s, pending - {k}, files + [s.files[k]])
  {
    assert NewestFirst(files + [s.files[k]]);
  }

  /** A matching key left out of the page is still pending. */
  lemma PageComplete(s: Store, matching: set<Id>, pending: set<Id>, taken: set<Id>,
                     keys: seq<Id>, files: seq<AppFile>)
    requires PageSoFar(s, matching, pending, taken, keys, files)
    ensures forall k :: k in matching && k !in keys ==> k in pending
  {
  }

  /** The file query: the matching documents by descending `createdAt`, each
      at most once and with its id, at most `FILE_PAGE` of them; files with
      equal timestamps come in any order. */
  method QueryNewestActiveFiles(s: Store, uid: Id) returns (files: seq<AppFile>, keys: seq<Id>)
    ensures |files| == |keys| && Distinct(keys)
    ensures forall i :: 0 <= i < |keys| ==> keys[i] in ActiveFileKeys(s, uid) && files[i] == s.files[keys[i]]
    ensures |files| == if |ActiveFileKeys(s, uid)| < FILE_PAGE then |ActiveFileKeys(s, uid)| else FILE_PAGE
    ensures NewestFirst(files)
    ensures forall k :: k in ActiveFileKeys(s, uid) && k !in keys ==>
      |files| == FILE_PAGE && s.files[k].createdAt <= files[FILE_PAGE - 1].createdAt
  {
    var matching := ActiveFileKeys(s, uid);
    var pending := matching;
    ghost var taken: set<Id> := {};
    keys := [];
    files := [];
    while |files| < FILE_PAGE && pending != {}
      invariant PageSoFar(s, matching, pending, taken, keys, files)
      invariant PageOrdered(s, pending, files)
      invariant |files| <= FILE_PAGE
      decreases pending
    {
      NewestExists(s.files, pending);
      var k :| IsNewest(s.files, pending, k);
      PickKeepsPage(s, matching, pending, taken, keys, files, k);
      PickKeepsOrder(s, pending, files, k);
      files := files + [s.files[k]];
      keys := keys + [k];
      pending := pending - {k};
      taken := taken + {k};
    }
    PageComplete(s, matching, pending, taken, keys, files);
  }

  // ----------------------------------------------------------------- folders

  /** Folder creation stores the trimmed name (an all-blank name becomes the
      empty name, it is not refused) under the fresh id, not recycled and
      not starred; the folder is then active for its owner. */
  function CreateNewFolder(s: Store, v: NewFolderVariables, folderId: Id, now: nat): (r: QuietStep<Folder>)
    requires folderId !in s.folders
    ensures r.reply.Some?
    ensures var f := r.reply.value;
      && f.id == folderId && f.name == Trim(v.folderName)
      && f.uid == v.uid && f.parentFolder == v.parentFolder
      && !f.recycled && !f.starred && f.createdAt == now
      && r.state == s.(folders := s.folders[folderId := f])
    ensures folderId in ActiveFolderKeys(r.state, v.uid)
  {
    var f := Folder(folderId, Trim(v.folderName), v.uid, false, v.parentFolder, false, now);
    Swallow(Step(s.(folders := s.folders[folderId := f]), Resolved(f)))
  }

  /** Renaming patches the name alone, to the trimmed new name; a missing
      folder leaves the store as it was and resolves with `undefined`. */
  function RenamedFolder(s: Store, v: RenameFolderVariables): (r: QuietStep<Written>)
    ensures v.folderId in s.folders <==> r.reply == Some(Written)
    ensures v.folderId in s.folders ==>
      r.state == s.(folders := s.folders[v.folderId := s.folders[v.folderId].(name := Trim(v.name))])
    ensures v.folderId !in s.folders ==> r.state == s
  {
    Swallow(UpdateFolderDoc(s, v.folderId, SetFolderName(Trim(v.name))))
  }

  /** Starring flips the flag read from the folder and changes nothing else.
      A missing folder reads as `undefined`, so the flag to write is `true`,
      and the update of the absent document is then refused. */
  function ToggleFolderStarred(s: Store, folderId: Id): (r: Step<Written>)
    ensures folderId in s.folders ==>
      && r.outcome == Resolved(Written)
      && r.state == s.(folders := s.folders[folderId := s.folders[folderId].(starred := !s.folders[folderId].starred)])
    ensures folderId !in s.folders ==> r == Step(s, Rejected(NotFound(FOLDER, folderId)))
  {
    var folder := ReadFolder(s, folderId);
    var flag := NegateOptional(if folder.Some? then Some(folder.value.starred) else None);
    UpdateFolderDoc(s, folderId, SetFolderStarred(flag))
  }

  /** Moving a folder to the bin is refused with `FolderNotEmpty`, leaving the
      store unchanged, exactly when some file or folder (recycled or not, of
      any owner) names it as parent; otherwise only its `recycled` flag is
      set, and a missing folder is refused by the update. */
  function MoveFolderToBin(s: Store, folderId: Id): (r: Step<Written>)
    ensures HasChild(s, folderId) <==> r.outcome == Rejected(FolderNotEmpty)
    ensures HasChild(s, folderId) ==> r.state == s
    ensures !HasChild(s, folderId) && folderId in s.folders ==>
      && r.outcome == Resolved(Written)
      && r.state == s.(folders := s.folders[folderId := s.folders[folderId].(recycled := true)])
    ensures !HasChild(s, folderId) && folderId !in s.folders ==>
      r == Step(s, Rejected(NotFound(FOLDER, folderId)))
  {
    NestedQueriesFindChildren(s, folderId);
    var nestedFiles := NestedFileKeys(s, folderId);
    var nestedFolders := NestedFolderKeys(s, folderId);
    if |nestedFiles| != 0 || |nestedFolders| != 0 then Step(s, Rejected(FolderNotEmpty))
    else UpdateFolderDoc(s, folderId, SetFolderRecycled(true))
  }

  // ------------------------------------------------------------------- files

  /** Where the bytes of an upload are stored: a slash, the owner's id, a
      slash, and the declared name. */
  function UploadPath(uid: Id, name: string): (r: string)
    ensures |r| == |uid| + |name| + 2
    ensures r[0] == '/' && r[|uid| + 1] == '/'
    ensures r[1..|uid| + 1] == uid && r[|uid| + 2..] == name
  {
    "/" + uid + "/" + name
  }

  /** Owners whose ids hold no slash get paths of their own: equal upload
      paths mean the same owner and the same declared name. */
  lemma UploadPathInjective(uid1: Id, name1: string, uid2: Id, name2: string)
    requires '/' !in uid1 && '/' !in uid2
    requires UploadPath(uid1, name1) == UploadPath(uid2, name2)
    ensures uid1 == uid2 && name1 == name2
  {
  }

  /** The effect of an upload that passed the quota gate: the bytes are stored
      at the upload path, exactly one file document is added under the fresh
      id with the given name parts and URL, not recycled and not starred, and
      then the owner's `totalSpaceUsed` grows by exactly the file's size. When
      the owner's `user` document is missing that last update is refused and
      the call rejects, keeping the upload and the new document. Folders and
      the `collection` documents never change. */
  ghost predicate UploadApplied(s: Store, r: Step<AppFile>, v: CreateNewFileVariables, fileId: Id, parts: NameParts, src: string, now: nat) {
    && r.state.blobs == s.blobs[UploadPath(v.uid, v.file.name) := v.file]
    && fileId in r.state.files
    && r.state.files == s.files[fileId := r.state.files[fileId]]
    && (var f := r.state.files[fileId];
        && f.id == fileId && f.uid == v.uid
        && f.sizeInBytes == v.file.size && f.parentFolder == v.folderId
        && !f.recycled && !f.starred && f.src == src && f.createdAt == now
        && f.fileName == parts.fileName && f.fileType == parts.fileType)
    && r.state.folders == s.folders
    && r.state.collectionDocs == s.collectionDocs
    && (v.uid in s.users ==>
        && r.outcome == Resolved(r.state.files[fileId])
        && r.state.users == s.users[v.uid := s.users[v.uid].(totalSpaceUsed := s.users[v.uid].totalSpaceUsed + v.file.size)])
    && (v.uid !in s.users ==>
        && r.outcome == Rejected(NotFound(USER, v.uid))
        && r.state.users == s.users)
  }

  /** Everything an upload does after reading the profile its quota check
      uses: refuse when the file would not fit, otherwise upload, create the
      file document and increment the owner's usage. */
  function UploadAfterQuotaRead(s: Store, quota: Profile, parts: NameParts, v: CreateNewFileVariables,
                                fileId: Id, urlOf: string -> string, now: nat): (r: Step<AppFile>)
    requires fileId !in s.files
    ensures ExceedsQuota(quota, v.file.size) <==> r.outcome == Rejected(SpaceNotAvailable)
    ensures ExceedsQuota(quota, v.file.size) ==> r.state == s
    ensures !ExceedsQuota(quota, v.file.size) ==>
      UploadApplied(s, r, v, fileId, parts, urlOf(UploadPath(v.uid, v.file.name)), now)
  {
    if ExceedsQuota(quota, v.file.size) then Step(s, Rejected(SpaceNotAvailable))
    else
      var path := UploadPath(v.uid, v.file.name);
      var uploaded := s.(blobs := s.blobs[path := v.file]);
      var doc := AppFile(fileId, parts.fileType, false, parts.fileName, v.file.size, v.folderId,
                         urlOf(path), v.uid, false, now);
      var created := uploaded.(files := uploaded.files[fileId := doc]);
      if v.uid in created.users then
        var p := created.users[v.uid];
        Step(created.(users := created.users[v.uid := p.(totalSpaceUsed := p.totalSpaceUsed + v.file.size)]),
             Resolved(doc))
      else
        Step(created, Rejected(NotFound(USER, v.uid)))
  }

  /** The upload as written: the quota check reads the uploader's profile
      from the collection named "collection", while the usage increment
      goes to the `user` collection, and the name is split by
      `SplitAsWritten`. A missing "collection" profile makes the call fail
      before anything is written. */
  function CreateNewFile(s: Store, v: CreateNewFileVariables, fileId: Id, urlOf: string -> string, now: nat): (r: Step<AppFile>)
    requires fileId !in s.files
    ensures v.uid !in s.collectionDocs ==> r == Step(s, Rejected(NotFound(COLLECTION, v.uid)))
    ensures r.outcome == Rejected(SpaceNotAvailable)
      <==> v.uid in s.collectionDocs && ExceedsQuota(s.collectionDocs[v.uid], v.file.size)
    ensures r.outcome == Rejected(SpaceNotAvailable) ==> r.state == s
    ensures v.uid in s.collectionDocs && !ExceedsQuota(s.collectionDocs[v.uid], v.file.size) ==>
      UploadApplied(s, r, v, fileId, SplitAsWritten(v.file.name), urlOf(UploadPath(v.uid, v.file.name)), now)
  {
    if v.uid !in s.collectionDocs then Step(s, Rejected(NotFound(COLLECTION, v.uid)))
    else UploadAfterQuotaRead(s, s.collectionDocs[v.uid], SplitAsWritten(v.file.name), v, fileId, urlOf, now)
  }

  /** The upload with its quota check reading the `user` document it
      increments, and with `SplitCorrected` naming the file. A missing user
      document makes the call fail before anything is written. */
  function CreateNewFileCorrected(s: Store, v: CreateNewFileVariables, fileId: Id, urlOf: string -> string, now: nat): (r: Step<AppFile>)
    requires fileId !in s.files
    ensures v.uid !in s.users ==> r == Step(s, Rejected(NotFound(USER, v.uid)))
    ensures r.outcome == Rejected(SpaceNotAvailable)
      <==> v.uid in s.users && ExceedsQuota(s.users[v.uid], v.file.size)
    ensures r.outcome == Rejected(SpaceNotAvailable) ==> r.state == s
    ensures v.uid in s.users && !ExceedsQuota(s.users[v.uid], v.file.size) ==>
      && r.outcome.Resolved?
      && UploadApplied(s, r, v, fileId, SplitCorrected(v.file.name), urlOf(UploadPath(v.uid, v.file.name)), now)
  {
    if v.uid !in s.users then Step(s, Rejected(NotFound(USER, v.uid)))
    else UploadAfterQuotaRead(s, s.users[v.uid], SplitCorrected(v.file.name), v, fileId, urlOf, now)
  }

  /** The profiles after an upload, whatever its name parts: the owner's
      usage grows by the file's size when the file fits the quota read and
      the owner's `user` document exists; otherwise no profile changes. */
  lemma UploadTouchesOwnerOnly(s: Store, quota: Profile, parts: NameParts, v: CreateNewFileVariables,
                               fileId: Id, urlOf: string -> string, now: nat)
    requires fileId !in s.files
    ensures var users := UploadAfterQuotaRead(s, quota, parts, v, fileId, urlOf, now).state.users;
      if v.uid in s.users && !ExceedsQuota(quota, v.file.size) then
        users == s.users[v.uid := s.users[v.uid].(totalSpaceUsed := s.users[v.uid].totalSpaceUsed + v.file.size)]
      else users == s.users
  {
  }

  /** A corrected upload adds at most its own fresh id to the files. */
  lemma CorrectedUploadAddsOneFile(s: Store, v: CreateNewFileVariables, fileId: Id, urlOf: string -> string, now: nat)
    requires fileId !in s.files
    ensures CreateNewFileCorrected(s, v, fileId, urlOf, now).state.files.Keys <= s.files.Keys + {fileId}
  {
    if v.uid in s.users {
      var parts := SplitCorrected(v.file.name);
      assert CreateNewFileCorrected(s, v, fileId, urlOf, now)
        == UploadAfterQuotaRead(s, s.users[v.uid], parts, v, fileId, urlOf, now);
    }
  }

  /** Starring a file flips the flag read from it and changes nothing else;
      a missing file reads as `undefined`, the flag to write is `true`, and
      the update of the absent document is refused. */
  function ToggleFileStarred(s: Store, fileId: Id): (r: Step<Written>)
    ensures fileId in s.files ==>
      && r.outcome == Resolved(Written)
      && r.state == s.(files := s.files[fileId := s.files[fileId].(starred := !s.files[fileId].starred)])
    ensures fileId !in s.files ==> r == Step(s, Rejected(NotFound(FILE, fileId)))
  {
    var file := ReadFile(s, fileId);
    var flag := NegateOptional(if file.Some? then Some(file.value.starred) else None);
    UpdateFileDoc(s, fileId, SetFileStarred(flag))
  }

  /** Moving a file to the bin sets its `recycled` flag and nothing else; a
      missing file leaves the store unchanged and resolves with `undefined`. */
  function MoveFileToBin(s: Store, fileId: Id): (r: QuietStep<Written>)
    ensures fileId in s.files <==> r.reply == Some(Written)
    ensures fileId in s.files ==>
      r.state == s.(files := s.files[fileId := s.files[fileId].(recycled := true)])
    ensures fileId !in s.files ==> r.state == s
  {
    Swallow(UpdateFileDoc(s, fileId, SetFileRecycled(true)))
  }
}

/**
 The usage accounting of the store: a profile's `totalSpaceUsed` is the total
 size of the files its owner holds, recycled ones included (moving a file to
 the bin is a soft deletion and frees nothing), and every file has an owner
 with a profile. The corrected upload and the flag updates keep this; the
 upload as written and account creation on a taken id break it.
 */
module UsageAccounting {
  import opened Records
  import opened DocStore
  import opened NameSplit
  import opened UserApi
  import opened StoreProperties

  /** What file `f` contributes to the usage of `uid`. */
  function Share(f: AppFile, uid: Id): nat {
    if f.uid == uid then f.sizeInBytes else 0
  }

  /** The total size of the files of `uid` among the documents `keys`. */
  ghost function SizeOf(files: map<Id, AppFile>, keys: set<Id>, uid: Id): nat
    requires keys <= files.Keys
    decreases keys
  {
    if keys == {} then 0
    else
      var k :| k in keys;
      Share(files[k], uid) + SizeOf(files, keys - {k}, uid)
  }

  /** The total size of all files of `uid`. */
  ghost function UsedBy(files: map<Id, AppFile>, uid: Id): nat {
    SizeOf(files, files.Keys, uid)
  }

  /** Every profile's usage is the size of its owner's files, and every file
      belongs to an owner with a profile. */
  ghost predicate UsageAccounted(s: Store) {
    && (forall k :: k in s.files ==> s.files[k].uid in s.users)
    && (forall u :: u in s.users ==> s.users[u].totalSpaceUsed == UsedBy(s.files, u))
  }

  /** The sum does not depend on which document is taken out first. */
  lemma {:induction false} SizeOfPick(files: map<Id, AppFile>, keys: set<Id>, uid: Id, k: Id)
    requires keys <= files.Keys && k in keys
    ensures SizeOf(files, keys, uid) == Share(files[k], uid) + SizeOf(files, keys - {k}, uid)
    decreases keys
  {
    var j :| j in keys && SizeOf(files, keys, uid) == Share(files[j], uid) + SizeOf(files, keys - {j}, uid);
    if j != k {
      SizeOfPick(files, keys - {j}, uid, k);
      SizeOfPick(files, keys - {k}, uid, j);
      assert keys - {j} - {k} == keys - {k} - {j};
    }
  }

  /** Two collections whose documents contribute alike give the same sum. */
  lemma {:induction false} SizeOfSameShares(f1: map<Id, AppFile>, f2: map<Id, AppFile>, keys: set<Id>, uid: Id)
    requires keys <= f1.Keys && keys <= f2.Keys
    requires forall k :: k in keys ==> Share(f1[k], uid) == Share(f2[k], uid)
    ensures SizeOf(f1, keys, uid) == SizeOf(f2, keys, uid)
    decreases keys
  {
    if keys != {} {
      var k :| k in keys;
      SizeOfPick(f1, keys, uid, k);
      SizeOfPick(f2, keys, uid, k);
      SizeOfSameShares(f1, f2, keys - {k}, uid);
    }
  }

  /** Documents none of which belong to `uid` hold none of its bytes. */
  lemma {:induction false} SizeOfForeign(files: map<Id, AppFile>, keys: set<Id>, uid: Id)
    requires keys <= files.Keys
    requires forall k :: k in keys ==> files[k].uid != uid
    ensures SizeOf(files, keys, uid) == 0
    decreases keys
  {
    if keys != {} {
      var k :| k in keys;
      SizeOfPick(files, keys, uid, k);
      SizeOfForeign(files, keys - {k}, uid);
    }
  }

  /** Adding a file under a fresh id adds its share to its owner's total and
      nothing to anybody else's. */
  lemma UsedByAddsFile(files: map<Id, AppFile>, fileId: Id, f: AppFile, uid: Id)
    requires fileId !in files
    ensures UsedBy(files[fileId := f], uid) == UsedBy(files, uid) + Share(f, uid)
  {
    var grown := files[fileId := f];
    assert grown.Keys - {fileId} == files.Keys;
    SizeOfPick(grown, grown.Keys, uid, fileId);
    SizeOfSameShares(grown, files, files.Keys, uid);
  }

  /** Replacing file documents by ones with the same owners and sizes keeps
      the accounting. */
  lemma SameSharesKeepUsage(s: Store, files: map<Id, AppFile>)
    requires UsageAccounted(s)
    requires files.Keys == s.files.Keys
    requires forall k :: k in files ==> files[k].uid == s.files[k].uid && files[k].sizeInBytes == s.files[k].sizeInBytes
    ensures UsageAccounted(s.(files := files))
  {
    forall u | u in s.users
      ensures s.users[u].totalSpaceUsed == UsedBy(files, u)
    {
      SizeOfSameShares(s.files, files, s.files.Keys, u);
    }
  }

  /** An upload that passes its quota check for an owner with a profile adds
      the file and its size to that owner alone, whatever the name parts. */
  lemma AcceptedUploadKeepsUsage(s: Store, quota: Profile, parts: NameParts, v: CreateNewFileVariables,
                                 fileId: Id, urlOf: string -> string, now: nat)
    requires fileId !in s.files && v.uid in s.users
    requires !ExceedsQuota(quota, v.file.size)
    requires UsageAccounted(s)
    ensures UsageAccounted(UploadAfterQuotaRead(s, quota, parts, v, fileId, urlOf, now).state)
  {
    var st := UploadAfterQuotaRead(s, quota, parts, v, fileId, urlOf, now).state;
    var f := st.files[fileId];
    forall u | u in st.users
      ensures st.users[u].totalSpaceUsed == UsedBy(st.files, u)
    {
      UsedByAddsFile(s.files, fileId, f, u);
    }
  }

  /** Every corrected upload, accepted or refused, keeps the accounting. */
  lemma CorrectedUploadKeepsUsage(s: Store, v: CreateNewFileVariables, fileId: Id, urlOf: string -> string, now: nat)
    requires fileId !in s.files
    requires UsageAccounted(s)
    ensures UsageAccounted(CreateNewFileCorrected(s, v, fileId, urlOf, now).state)
  {
    if v.uid in s.users && !ExceedsQuota(s.users[v.uid], v.file.size) {
      var parts := SplitCorrected(v.file.name);
      assert CreateNewFileCorrected(s, v, fileId, urlOf, now)
        == UploadAfterQuotaRead(s, s.users[v.uid], parts, v, fileId, urlOf, now);
      AcceptedUploadKeepsUsage(s, s.users[v.uid], parts, v, fileId, urlOf, now);
    }
  }

  /** Any sequence of corrected uploads keeps the accounting. */
  lemma {:induction false} CorrectedUploadsKeepUsage(s: Store, calls: seq<UploadCall>, urlOf: string -> string)
    requires FreshIds(s, calls)
    requires UsageAccounted(s)
    ensures UsageAccounted(RunCorrectedUploads(s, calls, urlOf))
    decreases |calls|
  {
    if calls != [] {
      var st := CorrectedUploadStep(s, calls[0], urlOf);
      CorrectedUploadKeepsUsage(s, calls[0].vars, calls[0].fileId, urlOf, calls[0].now);
      FreshIdsTail(s, st, calls);
      CorrectedUploadsKeepUsage(st, calls[1..], urlOf);
    }
  }

  /** Moving a file to the bin frees nothing and keeps the accounting;
      so does starring a file. */
  lemma FileFlagsKeepUsage(s: Store, fileId: Id)
    requires UsageAccounted(s)
    ensures UsageAccounted(MoveFileToBin(s, fileId).state)
    ensures UsageAccounted(ToggleFileStarred(s, fileId).state)
  {
    if fileId in s.files {
      SameSharesKeepUsage(s, MoveFileToBin(s, fileId).state.files);
      SameSharesKeepUsage(s, ToggleFileStarred(s, fileId).state.files);
    }
  }

  /** The folder calls touch neither files nor profiles. */
  lemma FolderCallsKeepUsage(s: Store, nv: NewFolderVariables, rv: RenameFolderVariables,
                             folderId: Id, now: nat)
    requires UsageAccounted(s)
    ensures folderId !in s.folders ==> UsageAccounted(CreateNewFolder(s, nv, folderId, now).state)
    ensures UsageAccounted(RenamedFolder(s, rv).state)
    ensures UsageAccounted(ToggleFolderStarred(s, folderId).state)
    ensures UsageAccounted(MoveFolderToBin(s, folderId).state)
  {
  }

  /** Creating an account under an unused id starts it with no files and no
      usage, which keeps the accounting. */
  lemma NewAccountKeepsUsage(s: Store, body: UserBody, now: nat)
    requires body.id !in s.users
    requires UsageAccounted(s)
    ensures UsageAccounted(CreateUser(s, body, now).state)
  {
    SizeOfForeign(s.files, s.files.Keys, body.id);
  }

  /** As written, creating an account under an id whose owner already holds
      files resets its usage to 0 while the files stay: the accounting
      breaks. */
  lemma RecreatedAccountLosesUsage(s: Store, body: UserBody, now: nat)
    requires UsageAccounted(s)
    requires UsedBy(s.files, body.id) > 0
    ensures !UsageAccounted(CreateUser(s, body, now).state)
  {
  }

  /** As written, an upload that passes the "collection" check for an owner
      without a `user` profile stores its file document and then fails on
      the increment, leaving a file that no profile counts. */
  lemma AsWrittenUploadOrphansFile(s: Store, v: CreateNewFileVariables, fileId: Id, urlOf: string -> string, now: nat)
    requires fileId !in s.files
    requires v.uid in s.collectionDocs && v.uid !in s.users
    requires !ExceedsQuota(s.collectionDocs[v.uid], v.file.size)
    ensures var r := CreateNewFile(s, v, fileId, urlOf, now);
      && r.outcome == Rejected(NotFound(USER, v.uid))
      && fileId in r.state.files
      && !UsageAccounted(r.state)
  {
  }
}

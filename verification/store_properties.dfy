/**
 Properties that relate several calls of the storage operations: starring
 twice, moving to the bin twice, what the bin does to the listing and to the
 quota, and how uploads keep (or, as written, fail to keep) usage within the
 ceiling.
 */
module StoreProperties {
  import opened Optional
  import opened JsString
  import opened Records
  import opened DocStore
  import opened NameSplit
  import opened UserApi

  // ---------------------------------------------------------------- starring

  /** Starring a folder twice restores the store; on a missing folder both
      calls are refused and nothing changes. */
  lemma ToggleFolderTwiceRestores(s: Store, folderId: Id)
    ensures ToggleFolderStarred(ToggleFolderStarred(s, folderId).state, folderId).state == s
  {
    if folderId in s.folders {
      var s1 := ToggleFolderStarred(s, folderId).state;
      assert s1.folders[folderId].starred == !s.folders[folderId].starred;
      assert s1.folders[folderId := s.folders[folderId]] == s.folders;
    }
  }

  /** Starring a file twice restores the store. */
  lemma ToggleFileTwiceRestores(s: Store, fileId: Id)
    ensures ToggleFileStarred(ToggleFileStarred(s, fileId).state, fileId).state == s
  {
    if fileId in s.files {
      var s1 := ToggleFileStarred(s, fileId).state;
      assert s1.files[fileId].starred == !s.files[fileId].starred;
      assert s1.files[fileId := s.files[fileId]] == s.files;
    }
  }

  // --------------------------------------------------------------- recycling

  /** Moving a folder to the bin twice ends where moving it once does, and
      neither call touches any profile or file. */
  lemma MoveFolderToBinIdempotent(s: Store, folderId: Id)
    ensures var s1 := MoveFolderToBin(s, folderId).state;
      && MoveFolderToBin(s1, folderId).state == s1
      && s1.users == s.users && s1.files == s.files
  {
    var s1 := MoveFolderToBin(s, folderId).state;
    if !HasChild(s, folderId) && folderId in s.folders {
      assert !HasChild(s1, folderId) by {
        assert s1.files == s.files;
        forall k | k in s1.folders
          ensures s1.folders[k].parentFolder == s.folders[k].parentFolder
        {
        }
      }
      assert s1.folders[folderId := s1.folders[folderId].(recycled := true)] == s1.folders;
    }
  }

  /** Moving a file to the bin twice ends where moving it once does, and
      neither call touches any profile: soft deletion keeps the space the
      file counts for. */
  lemma MoveFileToBinIdempotent(s: Store, fileId: Id)
    ensures var s1 := MoveFileToBin(s, fileId).state;
      && MoveFileToBin(s1, fileId).state == s1
      && s1.users == s.users
  {
    var s1 := MoveFileToBin(s, fileId).state;
    if fileId in s.files {
      assert s1.files[fileId := s1.files[fileId].(recycled := true)] == s1.files;
    }
  }

  /** A folder moved to the bin is no longer listed for any user. */
  lemma BinnedFolderLeavesListing(s: Store, folderId: Id, uid: Id)
    requires MoveFolderToBin(s, folderId).outcome.Resolved?
    ensures folderId !in ActiveFolderKeys(MoveFolderToBin(s, folderId).state, uid)
  {
  }

  /** A file moved to the bin is no longer listed for any user. */
  lemma BinnedFileLeavesListing(s: Store, fileId: Id, uid: Id)
    ensures fileId !in ActiveFileKeys(MoveFileToBin(s, fileId).state, uid)
    ensures fileId in s.files && s.files[fileId].uid == uid && !s.files[fileId].recycled ==>
      ActiveFileKeys(MoveFileToBin(s, fileId).state, uid) == ActiveFileKeys(s, uid) - {fileId}
  {
  }

  // ---------------------------------------------------------------- renaming

  /** Renaming with an already trimmed name is renaming with the raw one. */
  lemma RenameTrimsOnce(s: Store, v: RenameFolderVariables)
    ensures RenamedFolder(s, v.(name := Trim(v.name))) == RenamedFolder(s, v)
  {
    TrimIdempotent(v.name);
  }

  /** A blank folder name (empty or whitespace only) is stored as the empty
      name instead of being refused, and the folder is listed for its owner. */
  lemma BlankFolderNameAccepted(s: Store, uid: Id, name: string, parent: Id, folderId: Id, now: nat)
    requires folderId !in s.folders
    requires AllWhitespace(name)
    ensures var r := CreateNewFolder(s, NewFolderVariables(uid, name, parent), folderId, now);
      && r.reply.Some? && r.reply.value.name == ""
      && folderId in ActiveFolderKeys(r.state, uid)
  {
    BlankTrimsToEmpty(name);
  }

  /** A blank new name is stored as the empty name instead of being refused. */
  lemma BlankRenameAccepted(s: Store, folderId: Id, name: string)
    requires folderId in s.folders
    requires AllWhitespace(name)
    ensures var r := RenamedFolder(s, RenameFolderVariables(folderId, name));
      r.reply == Some(Written) && r.state.folders[folderId].name == ""
  {
    BlankTrimsToEmpty(name);
  }

  // ------------------------------------------------------------------- quota

  /** Every profile respects its ceiling. */
  ghost predicate ProfilesWithinQuota(users: map<Id, Profile>) {
    forall u :: u in users ==> WithinQuota(users[u])
  }

  ghost predicate AllWithinQuota(s: Store) {
    ProfilesWithinQuota(s.users)
  }

  /** An upload step that grows only its owner's usage, and only by an
      amount that passed the owner's quota check, keeps every profile within
      its ceiling. */
  lemma GrowthWithinQuota(before: map<Id, Profile>, after: map<Id, Profile>, uid: Id, size: nat)
    requires ProfilesWithinQuota(before)
    requires if uid in before && !ExceedsQuota(before[uid], size) then
        after == before[uid := before[uid].(totalSpaceUsed := before[uid].totalSpaceUsed + size)]
      else after == before
    ensures ProfilesWithinQuota(after)
  {
  }

  /** A new account starts within its quota. */
  lemma NewAccountWithinQuota(s: Store, body: UserBody, now: nat)
    requires AllWithinQuota(s)
    ensures AllWithinQuota(CreateUser(s, body, now).state)
  {
  }

  /** The upload as written keeps the uploader within quota only when the
      profile its check reads from the "collection" collection is the
      uploader's `user` document itself. */
  lemma AsWrittenUploadKeepsQuota(s: Store, v: CreateNewFileVariables, fileId: Id, urlOf: string -> string, now: nat)
    requires fileId !in s.files
    requires v.uid in s.users && v.uid in s.collectionDocs
    requires s.collectionDocs[v.uid] == s.users[v.uid]
    requires WithinQuota(s.users[v.uid])
    ensures var r := CreateNewFile(s, v, fileId, urlOf, now);
      && v.uid in r.state.users
      && WithinQuota(r.state.users[v.uid])
  {
  }

  /** An upload whose quota check reads the owner's own `user` document
      keeps every profile within quota, whatever the name parts. */
  lemma UploadKeepsQuota(s: Store, parts: NameParts, v: CreateNewFileVariables, fileId: Id,
                         urlOf: string -> string, now: nat)
    requires fileId !in s.files
    requires v.uid in s.users
    requires ProfilesWithinQuota(s.users)
    ensures ProfilesWithinQuota(UploadAfterQuotaRead(s, s.users[v.uid], parts, v, fileId, urlOf, now).state.users)
  {
    UploadTouchesOwnerOnly(s, s.users[v.uid], parts, v, fileId, urlOf, now);
    GrowthWithinQuota(s.users, UploadAfterQuotaRead(s, s.users[v.uid], parts, v, fileId, urlOf, now).state.users,
                      v.uid, v.file.size);
  }

  /** With the quota check reading the document it increments, every upload,
      accepted or refused, keeps every profile within quota. */
  lemma CorrectedUploadKeepsQuota(s: Store, v: CreateNewFileVariables, fileId: Id, urlOf: string -> string, now: nat)
    requires fileId !in s.files
    requires AllWithinQuota(s)
    ensures AllWithinQuota(CreateNewFileCorrected(s, v, fileId, urlOf, now).state)
  {
    if v.uid in s.users {
      var parts := SplitCorrected(v.file.name);
      assert CreateNewFileCorrected(s, v, fileId, urlOf, now)
        == UploadAfterQuotaRead(s, s.users[v.uid], parts, v, fileId, urlOf, now);
      UploadKeepsQuota(s, parts, v, fileId, urlOf, now);
    }
  }

  /** One upload request of a sequence. */
  datatype UploadCall = UploadCall(vars: CreateNewFileVariables, fileId: Id, now: nat)

  /** The ids the calls will create are pairwise distinct and not yet used. */
  ghost predicate FreshIds(s: Store, calls: seq<UploadCall>) {
    && (forall i :: 0 <= i < |calls| ==> calls[i].fileId !in s.files)
    && (forall i, j :: 0 <= i < j < |calls| ==> calls[i].fileId != calls[j].fileId)
  }

  /** The ids of the later calls stay fresh after a step that adds at most
      the first call's id. */
  lemma FreshIdsTail(s: Store, st: Store, calls: seq<UploadCall>)
    requires calls != [] && FreshIds(s, calls)
    requires st.files.Keys <= s.files.Keys + {calls[0].fileId}
    ensures FreshIds(st, calls[1..])
  {
  }

  /** One corrected upload, as a step of the store. */
  function CorrectedUploadStep(s: Store, c: UploadCall, urlOf: string -> string): (st: Store)
    requires c.fileId !in s.files
    ensures st.files.Keys <= s.files.Keys + {c.fileId}
    ensures AllWithinQuota(s) ==> AllWithinQuota(st)
  {
    CorrectedUploadAddsOneFile(s, c.vars, c.fileId, urlOf, c.now);
    assert AllWithinQuota(s) ==> AllWithinQuota(CreateNewFileCorrected(s, c.vars, c.fileId, urlOf, c.now).state) by {
      if AllWithinQuota(s) {
        CorrectedUploadKeepsQuota(s, c.vars, c.fileId, urlOf, c.now);
      }
    }
    CreateNewFileCorrected(s, c.vars, c.fileId, urlOf, c.now).state
  }

  /** The store after the calls run one after the other with the corrected
      upload. */
  function RunCorrectedUploads(s: Store, calls: seq<UploadCall>, urlOf: string -> string): Store
    requires FreshIds(s, calls)
    decreases |calls|
  {
    if calls == [] then s
    else
      var st := CorrectedUploadStep(s, calls[0], urlOf);
      FreshIdsTail(s, st, calls);
      RunCorrectedUploads(st, calls[1..], urlOf)
  }

  /** Any sequence of corrected uploads keeps every profile within quota. */
  lemma {:induction false} CorrectedUploadsKeepQuota(s: Store, calls: seq<UploadCall>, urlOf: string -> string)
    requires FreshIds(s, calls)
    requires AllWithinQuota(s)
    ensures AllWithinQuota(RunCorrectedUploads(s, calls, urlOf))
    decreases |calls|
  {
    if calls != [] {
      var st := CorrectedUploadStep(s, calls[0], urlOf);
      FreshIdsTail(s, st, calls);
      CorrectedUploadsKeepQuota(st, calls[1..], urlOf);
    }
  }

  // --------------------------------------------------------------- scenarios

  /** What an upload that passes its quota check does to the collections the
      scenarios below follow, whatever its name parts. */
  lemma AcceptedUploadEffect(s: Store, quota: Profile, parts: NameParts, v: CreateNewFileVariables,
                             fileId: Id, urlOf: string -> string, now: nat)
    requires fileId !in s.files && v.uid in s.users
    requires !ExceedsQuota(quota, v.file.size)
    ensures var r := UploadAfterQuotaRead(s, quota, parts, v, fileId, urlOf, now);
      && r.outcome.Resolved?
      && r.state.users == s.users[v.uid := s.users[v.uid].(totalSpaceUsed := s.users[v.uid].totalSpaceUsed + v.file.size)]
      && r.state.collectionDocs == s.collectionDocs
      && r.state.files.Keys == s.files.Keys + {fileId}
  {
  }

  /** The as-written upload of a file that fits the "collection" profile, for
      an owner whose `user` document exists. */
  lemma AsWrittenAcceptedUpload(s: Store, v: CreateNewFileVariables, fileId: Id, urlOf: string -> string, now: nat)
    requires fileId !in s.files && v.uid in s.users && v.uid in s.collectionDocs
    requires !ExceedsQuota(s.collectionDocs[v.uid], v.file.size)
    ensures var r := CreateNewFile(s, v, fileId, urlOf, now);
      && r.outcome.Resolved?
      && r.state.users == s.users[v.uid := s.users[v.uid].(totalSpaceUsed := s.users[v.uid].totalSpaceUsed + v.file.size)]
      && r.state.collectionDocs == s.collectionDocs
      && r.state.files.Keys == s.files.Keys + {fileId}
  {
    var parts := SplitAsWritten(v.file.name);
    assert CreateNewFile(s, v, fileId, urlOf, now)
      == UploadAfterQuotaRead(s, s.collectionDocs[v.uid], parts, v, fileId, urlOf, now);
    AcceptedUploadEffect(s, s.collectionDocs[v.uid], parts, v, fileId, urlOf, now);
  }

  /** The corrected upload of a file that fits the owner's `user` profile. */
  lemma CorrectedAcceptedUpload(s: Store, v: CreateNewFileVariables, fileId: Id, urlOf: string -> string, now: nat)
    requires fileId !in s.files && v.uid in s.users
    requires !ExceedsQuota(s.users[v.uid], v.file.size)
    ensures var r := CreateNewFileCorrected(s, v, fileId, urlOf, now);
      && r.outcome.Resolved?
      && r.state.users == s.users[v.uid := s.users[v.uid].(totalSpaceUsed := s.users[v.uid].totalSpaceUsed + v.file.size)]
      && r.state.files.Keys == s.files.Keys + {fileId}
  {
    var parts := SplitCorrected(v.file.name);
    assert CreateNewFileCorrected(s, v, fileId, urlOf, now)
      == UploadAfterQuotaRead(s, s.users[v.uid], parts, v, fileId, urlOf, now);
    AcceptedUploadEffect(s, s.users[v.uid], parts, v, fileId, urlOf, now);
  }

  /** As written, a freshly created account cannot upload anything: account
      creation writes only the `user` document, and the quota check reads the
      "collection" collection, so the call fails before writing. */
  lemma FreshAccountCannotUpload(body: UserBody, now: nat, v: CreateNewFileVariables, fileId: Id,
                                 urlOf: string -> string, t: nat)
    requires v.uid == body.id
    ensures var s := CreateUser(EmptyStore, body, now).state;
      CreateNewFile(s, v, fileId, urlOf, t) == Step(s, Rejected(NotFound(COLLECTION, body.id)))
  {
  }

  /** As written, the quota check reads a "collection" profile that uploads
      never update. Even when it starts as a copy of the new account's
      profile, two uploads of 300 MB both pass the check and leave the
      account at 600 MB against its 500 MB ceiling. */
  lemma StaleQuotaOverflow(body: UserBody, now: nat, folderId: Id, name1: string, name2: string,
                           id1: Id, id2: Id, urlOf: string -> string, t1: nat, t2: nat)
    requires id1 != id2
    ensures var s0 := CreateUser(EmptyStore, body, now).state;
      var s1 := s0.(collectionDocs := s0.users);
      var r1 := CreateNewFile(s1, CreateNewFileVariables(UploadedFile(name1, 300000000), body.id, folderId), id1, urlOf, t1);
      && r1.outcome.Resolved? && r1.state.files.Keys == {id1}
      && var r2 := CreateNewFile(r1.state, CreateNewFileVariables(UploadedFile(name2, 300000000), body.id, folderId), id2, urlOf, t2);
      && r2.outcome.Resolved?
      && r2.state.users[body.id].totalSpaceUsed == 600000000
      && !WithinQuota(r2.state.users[body.id])
  {
    var s0 := CreateUser(EmptyStore, body, now).state;
    var s1 := s0.(collectionDocs := s0.users);
    var v1 := CreateNewFileVariables(UploadedFile(name1, 300000000), body.id, folderId);
    var r1 := CreateNewFile(s1, v1, id1, urlOf, t1);
    MirroredAccountFirstUpload(body, now, v1, id1, urlOf, t1);
    var v2 := CreateNewFileVariables(UploadedFile(name2, 300000000), body.id, folderId);
    AsWrittenAcceptedUpload(r1.state, v2, id2, urlOf, t2);
  }

  /** The first as-written upload to a new account whose "collection" profile
      mirrors its `user` one: accepted, counted in the `user` profile only. */
  lemma MirroredAccountFirstUpload(body: UserBody, now: nat, v: CreateNewFileVariables, fileId: Id,
                                   urlOf: string -> string, t: nat)
    requires v.uid == body.id && v.file.size <= MAX_SPACE_AVAILABLE
    ensures var s0 := CreateUser(EmptyStore, body, now).state;
      var r := CreateNewFile(s0.(collectionDocs := s0.users), v, fileId, urlOf, t);
      && r.outcome.Resolved? && r.state.files.Keys == {fileId}
      && body.id in r.state.users && r.state.users[body.id].totalSpaceUsed == v.file.size
      && r.state.collectionDocs == s0.users
  {
    var s0 := CreateUser(EmptyStore, body, now).state;
    AsWrittenAcceptedUpload(s0.(collectionDocs := s0.users), v, fileId, urlOf, t);
  }

  /** With the corrected check, on a new account a 300 MB upload is accepted,
      a further 250 MB one is refused without any write, and a 200 MB one
      then fills the quota exactly and is accepted. */
  lemma CorrectedQuotaScenario(body: UserBody, now: nat, folderId: Id, name1: string, name2: string,
                               name3: string, id1: Id, id2: Id, id3: Id, urlOf: string -> string,
                               t1: nat, t2: nat, t3: nat)
    requires id1 != id2 && id1 != id3
    ensures var s0 := CreateUser(EmptyStore, body, now).state;
      var r1 := CreateNewFileCorrected(s0, CreateNewFileVariables(UploadedFile(name1, 300000000), body.id, folderId), id1, urlOf, t1);
      && r1.outcome.Resolved? && r1.state.files.Keys == {id1}
      && r1.state.users[body.id].totalSpaceUsed == 300000000
      && var r2 := CreateNewFileCorrected(r1.state, CreateNewFileVariables(UploadedFile(name2, 250000000), body.id, folderId), id2, urlOf, t2);
      && r2 == Step(r1.state, Rejected(SpaceNotAvailable))
      && var r3 := CreateNewFileCorrected(r2.state, CreateNewFileVariables(UploadedFile(name3, 200000000), body.id, folderId), id3, urlOf, t3);
      && r3.outcome.Resolved?
      && r3.state.users[body.id].totalSpaceUsed == MAX_SPACE_AVAILABLE
  {
    var s0 := CreateUser(EmptyStore, body, now).state;
    var v1 := CreateNewFileVariables(UploadedFile(name1, 300000000), body.id, folderId);
    var v3 := CreateNewFileVariables(UploadedFile(name3, 200000000), body.id, folderId);
    CorrectedAcceptedUpload(s0, v1, id1, urlOf, t1);
    var r1 := CreateNewFileCorrected(s0, v1, id1, urlOf, t1);
    CorrectedAcceptedUpload(r1.state, v3, id3, urlOf, t3);
  }
}

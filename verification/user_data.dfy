/**
 The client-side cache of a user's folders and files, stripped of its React
 state: each callback is a function from the cached sequence to the next one.
 Folders are appended, files are prepended; removal and update match by id.
 */
module UserData {
  import opened Records
  import opened ListOps

  function FolderId(f: Folder): Id { f.id }

  function FileId(f: AppFile): Id { f.id }

  /** `addFolder`: the new folder goes after every cached one. */
  function AddFolder(folders: seq<Folder>, newFolder: Folder): (r: seq<Folder>)
    ensures |r| == |folders| + 1
    ensures r[..|folders|] == folders && r[|folders|] == newFolder
  {
    folders + [newFolder]
  }

  /** `addFile`: the new file goes before every cached one. */
  function AddFile(files: seq<AppFile>, newFile: AppFile): (r: seq<AppFile>)
    ensures |r| == |files| + 1
    ensures r[0] == newFile && r[1..] == files
  {
    [newFile] + files
  }

  /** `removeFolder`: every folder with the target's id is dropped, every
      other one is kept, in its original order. */
  function RemoveFolder(folders: seq<Folder>, target: Folder): (r: seq<Folder>)
    ensures |r| <= |folders|
    ensures forall f :: f in r ==> f in folders && f.id != target.id
    ensures forall f :: f in folders && f.id != target.id ==> f in r
    ensures IsSubsequence(r, folders)
    ensures forall f :: f in folders ==>
      multiset(r)[f] == if f.id == target.id then 0 else multiset(folders)[f]
  {
    RemoveWhereId(folders, FolderId, target.id)
  }

  /** `removeFile`: every file with the target's id is dropped, every other
      one is kept, in its original order. */
  function RemoveFile(files: seq<AppFile>, target: AppFile): (r: seq<AppFile>)
    ensures |r| <= |files|
    ensures forall f :: f in r ==> f in files && f.id != target.id
    ensures forall f :: f in files && f.id != target.id ==> f in r
    ensures IsSubsequence(r, files)
    ensures forall f :: f in files ==>
      multiset(r)[f] == if f.id == target.id then 0 else multiset(files)[f]
  {
    RemoveWhereId(files, FileId, target.id)
  }

  /** `updateFolder`: the target takes the place of every folder with its
      id; the others stay at their index. */
  function UpdateFolder(folders: seq<Folder>, target: Folder): (r: seq<Folder>)
    ensures |r| == |folders|
    ensures forall i :: 0 <= i < |folders| && folders[i].id == target.id ==> r[i] == target
    ensures forall i :: 0 <= i < |folders| && folders[i].id != target.id ==> r[i] == folders[i]
  {
    ReplaceWhereId(folders, FolderId, target)
  }

  /** `updateFile`: the target takes the place of every file with its id;
      the others stay at their index. */
  function UpdateFile(files: seq<AppFile>, target: AppFile): (r: seq<AppFile>)
    ensures |r| == |files|
    ensures forall i :: 0 <= i < |files| && files[i].id == target.id ==> r[i] == target
    ensures forall i :: 0 <= i < |files| && files[i].id != target.id ==> r[i] == files[i]
  {
    ReplaceWhereId(files, FileId, target)
  }

  /** Removing the same folder twice is removing it once. */
  lemma RemoveFolderIdempotent(folders: seq<Folder>, target: Folder)
    ensures RemoveFolder(RemoveFolder(folders, target), target) == RemoveFolder(folders, target)
  {
    RemoveIdempotent(folders, FolderId, target.id);
  }

  /** Removing the same file twice is removing it once. */
  lemma RemoveFileIdempotent(files: seq<AppFile>, target: AppFile)
    ensures RemoveFile(RemoveFile(files, target), target) == RemoveFile(files, target)
  {
    RemoveIdempotent(files, FileId, target.id);
  }

  /** Updating with a folder whose id is not cached changes nothing. */
  lemma UpdateFolderAbsent(folders: seq<Folder>, target: Folder)
    requires forall i :: 0 <= i < |folders| ==> folders[i].id != target.id
    ensures UpdateFolder(folders, target) == folders
  {
    ReplaceAbsentId(folders, FolderId, target);
  }

  /** Updating with a file whose id is not cached changes nothing. */
  lemma UpdateFileAbsent(files: seq<AppFile>, target: AppFile)
    requires forall i :: 0 <= i < |files| ==> files[i].id != target.id
    ensures UpdateFile(files, target) == files
  {
    ReplaceAbsentId(files, FileId, target);
  }

  /** Removing a folder after updating it is removing it from the original. */
  lemma RemoveUpdatedFolder(folders: seq<Folder>, target: Folder)
    ensures RemoveFolder(UpdateFolder(folders, target), target) == RemoveFolder(folders, target)
  {
    RemoveAfterReplace(folders, FolderId, target);
  }

  /** Removing a file after updating it is removing it from the original. */
  lemma RemoveUpdatedFile(files: seq<AppFile>, target: AppFile)
    ensures RemoveFile(UpdateFile(files, target), target) == RemoveFile(files, target)
  {
    RemoveAfterReplace(files, FileId, target);
  }

  /** Removing a folder just added under a new id restores the cache. */
  lemma RemoveAddedFolder(folders: seq<Folder>, newFolder: Folder)
    requires forall i :: 0 <= i < |folders| ==> folders[i].id != newFolder.id
    ensures RemoveFolder(AddFolder(folders, newFolder), newFolder) == folders
  {
    RemoveAppended(folders, FolderId, newFolder);
  }

  /** Removing a file just added under a new id restores the cache. */
  lemma {:induction false} RemoveAddedFile(files: seq<AppFile>, newFile: AppFile)
    requires forall i :: 0 <= i < |files| ==> files[i].id != newFile.id
    ensures RemoveFile(AddFile(files, newFile), newFile) == files
  {
    var added := AddFile(files, newFile);
    assert added[1..] == files;
    RemoveAbsentId(files, FileId, newFile.id);
  }
}

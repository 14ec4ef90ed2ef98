/**
 The documents the storage layer keeps: a user profile, a folder and a file,
 shaped as the code writes them, and the arguments its operations take.
 */
module Records {

  /** Document ids and user ids are plain strings. */
  type Id = string

  /** The quota every new account receives, in bytes. */
  const MAX_SPACE_AVAILABLE: nat := 500000000

  /** What the sign-up flow hands to account creation. `details` stands for
      the remaining fields of the body, which are copied into the profile
      unchanged. */
  datatype UserBody = UserBody(id: Id, profilePhoto: string, details: map<string, string>)

  /** A `user` document. `createdAt` is the server timestamp of its creation. */
  datatype Profile = Profile(
    id: Id,
    profilePhoto: string,
    details: map<string, string>,
    totalSpaceUsed: nat,
    maxSpaceAvailable: nat,
    createdAt: nat)

  /** A `folder` document; `parentFolder` names the containing folder. */
  datatype Folder = Folder(
    id: Id,
    name: string,
    uid: Id,
    recycled: bool,
    parentFolder: Id,
    starred: bool,
    createdAt: nat)

  /** A `file` document; `src` is the retrieval URL of the uploaded bytes. */
  datatype AppFile = AppFile(
    id: Id,
    fileType: string,
    recycled: bool,
    fileName: string,
    sizeInBytes: nat,
    parentFolder: Id,
    src: string,
    uid: Id,
    starred: bool,
    createdAt: nat)

  /** The browser `File` being uploaded: its declared name and its size in bytes. */
  datatype UploadedFile = UploadedFile(name: string, size: nat)

  datatype NewFolderVariables = NewFolderVariables(uid: Id, folderName: string, parentFolder: Id)

  datatype CreateNewFileVariables = CreateNewFileVariables(file: UploadedFile, uid: Id, folderId: Id)

  datatype RenameFolderVariables = RenameFolderVariables(folderId: Id, name: string)

  /** The quota invariant of a profile: usage does not exceed the ceiling. */
  predicate WithinQuota(p: Profile) {
    p.totalSpaceUsed <= p.maxSpaceAvailable
  }

  /** The quota gate of an upload: it is refused when the used space plus the
      new file's size would pass the ceiling. Reaching the ceiling exactly is
      allowed. */
  predicate ExceedsQuota(p: Profile, size: nat) {
    p.totalSpaceUsed + size > p.maxSpaceAvailable
  }
}

/**
 The document store the storage layer talks to, as an immutable value: one
 map per collection from document id to document, plus the blob store that
 holds uploaded bytes by path. The adapter primitives are modelled with the
 document database's semantics: `create` writes the whole document (replacing
 any previous one), `update` patches fields of an existing document and is
 rejected with `NotFound` when the document is absent.
 */
module DocStore {
  import opened Records
  import opened Optional

  /** Collection names as the code spells them. */
  const USER: string := "user"
  const COLLECTION: string := "collection"
  const FOLDER: string := "folder"
  const FILE: string := "file"

  datatype Store = Store(
    users: map<Id, Profile>,          // collection "user"
    collectionDocs: map<Id, Profile>, // collection "collection", read by the upload quota check
    folders: map<Id, Folder>,         // collection "folder"
    files: map<Id, AppFile>,          // collection "file"
    blobs: map<string, UploadedFile>) // blob store, by path

  const EmptyStore := Store(map[], map[], map[], map[], map[])

  /** Why a call fails. `NotFound` is the store refusing an update of an
      absent document; it also labels the upload reading a field of an absent
      quota document, which in the code is a type error thrown while reading
      `totalSpaceUsed` of `undefined`, not a store error. The other two are
      the errors the code throws itself. */
  datatype StoreError =
    | NotFound(collection: string, id: Id)
    | SpaceNotAvailable
    | FolderNotEmpty

  /** How a promise settles. */
  datatype Settled<+V> = Resolved(value: V) | Rejected(error: StoreError)

  /** What a successful `update` resolves with: an acknowledgement and nothing else. */
  datatype Written = Written

  /** The result of a call that rethrows its errors: the store afterwards
      (a failure part-way keeps the writes already made) and how it settled. */
  datatype Step<+V> = Step(state: Store, outcome: Settled<V>)

  /** The result of a call that catches its errors and resolves with
      `undefined` instead: `reply` is `None` exactly then. */
  datatype QuietStep<+V> = QuietStep(state: Store, reply: Option<V>)

  datatype FolderPatch =
    | SetFolderName(name: string)
    | SetFolderStarred(starred: bool)
    | SetFolderRecycled(recycled: bool)

  datatype FilePatch =
    | SetFileStarred(starred: bool)
    | SetFileRecycled(recycled: bool)

  function PatchFolder(f: Folder, p: FolderPatch): Folder {
    match p
    case SetFolderName(n) => f.(name := n)
    case SetFolderStarred(b) => f.(starred := b)
    case SetFolderRecycled(b) => f.(recycled := b)
  }

  function PatchFile(f: AppFile, p: FilePatch): AppFile {
    match p
    case SetFileStarred(b) => f.(starred := b)
    case SetFileRecycled(b) => f.(recycled := b)
  }

  /** `read("folder", id)`: the document, or `undefined`. */
  function ReadFolder(s: Store, id: Id): Option<Folder> {
    if id in s.folders then Some(s.folders[id]) else None
  }

  /** `read("file", id)`: the document, or `undefined`. */
  function ReadFile(s: Store, id: Id): Option<AppFile> {
    if id in s.files then Some(s.files[id]) else None
  }

  /** `update("folder", id, patch)`. */
  function UpdateFolderDoc(s: Store, id: Id, p: FolderPatch): Step<Written> {
    if id in s.folders then
      Step(s.(folders := s.folders[id := PatchFolder(s.folders[id], p)]), Resolved(Written))
    else
      Step(s, Rejected(NotFound(FOLDER, id)))
  }

  /** `update("file", id, patch)`. */
  function UpdateFileDoc(s: Store, id: Id, p: FilePatch): Step<Written> {
    if id in s.files then
      Step(s.(files := s.files[id := PatchFile(s.files[id], p)]), Resolved(Written))
    else
      Step(s, Rejected(NotFound(FILE, id)))
  }

  /** A call that swallows its errors: a rejection becomes `undefined`. */
  function Swallow<V>(st: Step<V>): (q: QuietStep<V>)
    ensures q.state == st.state
    ensures q.reply.Some? <==> st.outcome.Resolved?
    ensures q.reply.Some? ==> q.reply.value == st.outcome.value
  {
    match st.outcome
    case Resolved(v) => QuietStep(st.state, Some(v))
    case Rejected(_) => QuietStep(st.state, None)
  }

  /** Keys of the folders a `uid == uid, recycled == false` query matches. */
  function ActiveFolderKeys(s: Store, uid: Id): set<Id> {
    set k | k in s.folders && s.folders[k].uid == uid && !s.folders[k].recycled
  }

  /** Keys of the files a `uid == uid, recycled == false` query matches. */
  function ActiveFileKeys(s: Store, uid: Id): set<Id> {
    set k | k in s.files && s.files[k].uid == uid && !s.files[k].recycled
  }

  /** Keys of the folders a `parentFolder == folderId` query matches. */
  function NestedFolderKeys(s: Store, folderId: Id): set<Id> {
    set k | k in s.folders && s.folders[k].parentFolder == folderId
  }

  /** Keys of the files a `parentFolder == folderId` query matches. */
  function NestedFileKeys(s: Store, folderId: Id): set<Id> {
    set k | k in s.files && s.files[k].parentFolder == folderId
  }

  /** Some document of either collection, of any owner and recycled or not,
      names `folderId` as its parent. */
  ghost predicate HasChild(s: Store, folderId: Id) {
    || (exists k :: k in s.files && s.files[k].parentFolder == folderId)
    || (exists k :: k in s.folders && s.folders[k].parentFolder == folderId)
  }

  /** The two child queries find something exactly when a child exists. */
  lemma NestedQueriesFindChildren(s: Store, folderId: Id)
    ensures HasChild(s, folderId)
        <==> |NestedFileKeys(s, folderId)| != 0 || |NestedFolderKeys(s, folderId)| != 0
  {
    if exists k :: k in s.files && s.files[k].parentFolder == folderId {
      var k :| k in s.files && s.files[k].parentFolder == folderId;
      assert k in NestedFileKeys(s, folderId);
    }
    if exists k :: k in s.folders && s.folders[k].parentFolder == folderId {
      var k :| k in s.folders && s.folders[k].parentFolder == folderId;
      assert k in NestedFolderKeys(s, folderId);
    }
    if |NestedFileKeys(s, folderId)| != 0 {
      var k :| k in NestedFileKeys(s, folderId);
    }
    if |NestedFolderKeys(s, folderId)| != 0 {
      var k :| k in NestedFolderKeys(s, folderId);
    }
  }
}

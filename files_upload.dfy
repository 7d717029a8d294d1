/**
 * `POST /api/files/upload`: a signed-in user uploads one file from a
 * multipart form, optionally into one of their folders. The handler runs a
 * fixed sequence of checks, each of which can end the request with an error
 * and no change to the table; past them it names the stored object, sends it
 * to the storage service and inserts exactly one row.
 *
 * `Admit` is the check sequence, `Handle` the whole request as a function of
 * its inputs and the table, and `Post` the handler itself, run against a
 * `Db.Store`.
 */
module FilesUploadRoute {
  import opened Web
  import opened Schema
  import Db

  /** The uploaded `File`: its name, MIME type and byte size. */
  datatype FormFile = FormFile(name: string, mimeType: string, size: int)

  /** The form fields the handler reads; a field that is not sent is `null`. */
  datatype Form = Form(file: Option<FormFile>, userId: Option<string>, parentId: Option<string>)

  /** The object handed to the storage service: its file name and folder. */
  datatype StorageRequest = StorageRequest(fileName: string, folder: string)

  /** The storage service's answer; a `thumbnailUrl` may be missing or empty. */
  datatype StorageResult = StorageResult(url: string, filePath: string, thumbnailUrl: Option<string>)

  /** The result of the checks: an error response, or the caller, target folder and file to store. */
  datatype Admission =
    | Rejected(status: int, message: string)
    | Admitted(userId: UserId, parentId: Option<Id>, file: FormFile)

  /** What a request yields: the response, the table afterwards, and what was sent to storage. */
  datatype Outcome = Outcome(response: Response<Entry>, table: Table, sent: Option<StorageRequest>)

  /** The MIME types refused as executables or shell scripts. */
  predicate IsExecutableType(mimeType: string) {
    || mimeType == "application/x-executable"
    || mimeType == "application/x-sh"
    || mimeType == "application/x-bsh"
    || mimeType == "application/x-csh"
    || mimeType == "application/x-tcsh"
  }

  // ---------------------------------------------------------------------------
  // Names and paths

  /** `s.split(".")`. */
  function Split(s: string): (parts: seq<string>)
    ensures |parts| >= 1
  {
    if s == [] then [""]
    else
      var rest := Split(s[1..]);
      if s[0] == '.' then [""] + rest
      else [[s[0]] + rest[0]] + rest[1..]
  }

  /** `parts.join(".")`, the inverse of `Split`. */
  function Join(parts: seq<string>): string {
    if |parts| == 0 then ""
    else if |parts| == 1 then parts[0]
    else parts[0] + "." + Join(parts[1..])
  }

  /** Splitting loses nothing and keeps no dot in any part. */
  lemma {:induction false} SplitJoin(s: string)
    ensures Join(Split(s)) == s
    ensures forall i :: 0 <= i < |Split(s)| ==> '.' !in Split(s)[i]
  {
    if s != [] {
      SplitJoin(s[1..]);
      var rest := Split(s[1..]);
      if s[0] == '.' {
        assert Split(s) == [""] + rest;
        assert ([""] + rest)[1..] == rest;
        assert s == [s[0]] + s[1..];
      } else {
        var parts := Split(s);
        assert parts == [[s[0]] + rest[0]] + rest[1..];
        if |rest| == 1 {
          assert s == [s[0]] + s[1..];
        } else {
          assert parts[1..] == rest[1..];
          assert Join(rest) == rest[0] + "." + Join(rest[1..]);
          assert s == [s[0]] + s[1..];
        }
        forall i | 0 <= i < |parts| ensures '.' !in parts[i] {
          if i > 0 {
            assert parts[i] == rest[i];
          } else {
            assert '.' !in rest[0];
          }
        }
      }
    }
  }

  /** The last part of `s.split(".")` is the text after the last dot, or all of `s` when it has none. */
  lemma {:induction false} SplitLast(s: string)
    ensures var l := Split(s)[|Split(s)| - 1];
      && |l| <= |s| && l == s[|s| - |l|..] && '.' !in l
      && (|l| < |s| ==> s[|s| - |l| - 1] == '.')
  {
    if s != [] {
      var rest := Split(s[1..]);
      var lr := rest[|rest| - 1];
      SplitLast(s[1..]);
      SplitJoin(s[1..]);
      var parts := Split(s);
      var l := parts[|parts| - 1];
      if s[0] == '.' {
        assert l == lr;
      } else if |rest| == 1 {
        assert rest[0] == Join(rest) == s[1..];
        assert l == [s[0]] + s[1..] == s;
      } else {
        assert l == lr;
        assert Join(rest) == rest[0] + "." + Join(rest[1..]);
        assert s[1..][|rest[0]|] == '.';
        assert |lr| < |s[1..]|;
      }
    }
  }

  /** `name.split(".").pop() || ""`: the text after the last dot of `name`, or all of `name` without one. */
  function Extension(name: string): (ext: string)
    ensures |ext| <= |name| && ext == name[|name| - |ext|..]
    ensures '.' !in ext
    ensures |ext| < |name| ==> name[|name| - |ext| - 1] == '.'
  {
    var parts := Split(name);
    SplitLast(name);
    var last := parts[|parts| - 1];
    if last != "" then last else ""
  }

  /** The three properties of `Extension` pin it down: one suffix of a name has them. */
  lemma ExtensionUnique(name: string, e: string)
    requires |e| <= |name| && e == name[|name| - |e|..] && '.' !in e
    requires |e| < |name| ==> name[|name| - |e| - 1] == '.'
    ensures e == Extension(name)
  {
  }

  /** The name the file is stored under: a fresh uuid, a dot, and the original's extension. */
  function StoredFileName(uuid: string, name: string): string {
    uuid + "." + Extension(name)
  }

  /** The stored name keeps the original's extension, whatever the uuid. */
  lemma StoredNameKeepsExtension(uuid: string, name: string)
    ensures Extension(StoredFileName(uuid, name)) == Extension(name)
    ensures StartsWith(StoredFileName(uuid, name), uuid + ".")
  {
    var s := StoredFileName(uuid, name);
    var e := Extension(name);
    assert s == (uuid + ".") + e;
    assert s[|s| - |e|..] == e;
    ExtensionUnique(s, e);
  }

  /** A name without a dot is kept whole after the dot. */
  lemma StoredNameWithoutDot(uuid: string, name: string)
    requires '.' !in name
    ensures StoredFileName(uuid, name) == uuid + "." + name
  {
  }

  /** A name ending in a dot is stored with nothing after the dot. */
  lemma StoredNameTrailingDot(uuid: string, name: string)
    requires |name| > 0 && name[|name| - 1] == '.'
    ensures StoredFileName(uuid, name) == uuid + "."
  {
  }

  /** The storage folder: the user's folder, and within it the parent folder's when there is one. */
  function FolderPath(userId: UserId, parentId: Option<Id>): string {
    if parentId.Some? then "/droply/" + userId + "/folders/" + parentId.value
    else "/droply/" + userId
  }

  /** Every upload of a user lands under `/droply/{userId}`, and distinct parents get distinct folders. */
  lemma FolderPathLayout(userId: UserId, p: Option<Id>, q: Option<Id>)
    ensures StartsWith(FolderPath(userId, p), "/droply/" + userId)
    ensures FolderPath(userId, p) == FolderPath(userId, q) ==> p == q
  {
    var root := "/droply/" + userId;
    assert FolderPath(userId, p)[..|root|] == root;
    if FolderPath(userId, p) == FolderPath(userId, q) && p.Some? && q.Some? {
      var pre := root + "/folders/";
      assert FolderPath(userId, p) == pre + p.value;
      assert FolderPath(userId, q) == pre + q.value;
      assert p.value == FolderPath(userId, p)[|pre|..];
    }
  }

  // ---------------------------------------------------------------------------
  // The request

  /** The checks, in the handler's order: sign-in, caller's id, file present, parent folder, MIME type. */
  function Admit(auth: Option<UserId>, form: Form, t: Table): (a: Admission)
    ensures a.Admitted? <==>
      && Truthy(auth)
      && form.userId == Some(auth.value)
      && form.file.Some?
      && (OrNull(form.parentId).Some? ==> OwnedFolder(t, OrNull(form.parentId).value, auth.value))
      && !IsExecutableType(form.file.value.mimeType)
    ensures a.Admitted? ==>
      a.userId == auth.value && a.parentId == OrNull(form.parentId) && a.file == form.file.value
    ensures a.Rejected? ==> a.status in {400, 401, 404}
  {
    if !Truthy(auth) then Rejected(401, "Unauthorized")
    else
      var userId := auth.value;
      var parentId := OrNull(form.parentId);
      if form.userId != Some(userId) then Rejected(401, "Unauthorized")
      else if form.file.None? then Rejected(400, "No file provided")
      else if parentId.Some? && !OwnedFolder(t, parentId.value, userId) then Rejected(404, "Parent folder not found")
      else if IsExecutableType(form.file.value.mimeType) then Rejected(400, "We don't support executables")
      else Admitted(userId, parentId, form.file.value)
  }

  /** The row recorded for an admitted upload and the storage service's answer. */
  function RowFor(userId: UserId, parentId: Option<Id>, file: FormFile, stored: StorageResult): NewRow {
    NewRow(file.name, stored.filePath, file.size, file.mimeType, stored.url, OrNull(stored.thumbnailUrl),
           userId, parentId, Some(false), Some(false), Some(false))
  }

  /**
   * The request as a whole. `uuid` is the fresh value behind the stored name,
   * `storage` the storage service's answer (`None` when it fails), `newId` the
   * key the database generates and `now` its clock. A failed upload or a refused
   * insert (a key already in use, a value the column types reject) is caught
   * and answered with 500.
   */
  function Handle(auth: Option<UserId>, form: Form, t: Table, uuid: string,
                  storage: Option<StorageResult>, newId: Id, now: Time): (o: Outcome)
    ensures o.sent.Some? <==> Admit(auth, form, t).Admitted?
    ensures o.response.Ok? <==>
      var a := Admit(auth, form, t);
      && a.Admitted? && storage.Some? && newId !in t
      && Storable(RowFor(a.userId, a.parentId, a.file, storage.value))
    ensures !o.response.Ok? ==> o.table == t
    ensures Admit(auth, form, t).Rejected? ==> o.response == Error(Admit(auth, form, t).status, Admit(auth, form, t).message)
    ensures Admit(auth, form, t).Admitted? && !o.response.Ok? ==> o.response.status == 500
    ensures o.response.Ok? ==> o.response.body.id == newId && o.table == t[newId := o.response.body]
    ensures o.response.Ok? ==>
      var e := o.response.body;
      && e.userId == auth.value && e.name == form.file.value.name
      && e.parentId == OrNull(form.parentId)
      && !e.isFolder && !e.isStarred && !e.isTrash
      && e.createdAt == now && e.updatedAt == now
    ensures WellKeyed(t) ==> WellKeyed(o.table)
    ensures ParentsValid(t) ==> ParentsValid(o.table)
  {
    match Admit(auth, form, t)
    case Rejected(status, message) => Outcome(Error(status, message), t, None)
    case Admitted(userId, parentId, file) =>
      var request := StorageRequest(StoredFileName(uuid, file.name), FolderPath(userId, parentId));
      if storage.None? then Outcome(Error(500, "Failed to upload file"), t, Some(request))
      else
        var row := RowFor(userId, parentId, file, storage.value);
        var inserted := InsertRow(t, row, newId, now);
        if inserted.None? then Outcome(Error(500, "Failed to upload file"), t, Some(request))
        else
          InsertKeepsParentsValid(t, row, newId, now);
          Outcome(Ok(inserted.value[newId]), inserted.value, Some(request))
  }

  // ---------------------------------------------------------------------------
  // What the check sequence guarantees

  /** Without a signed-in user the answer is 401, nothing is sent to storage, and the table is unchanged. */
  lemma SignedOutUnauthorized(auth: Option<UserId>, form: Form, t: Table, uuid: string,
                              storage: Option<StorageResult>, newId: Id, now: Time)
    requires !Truthy(auth)
    ensures Handle(auth, form, t, uuid, storage, newId, now) == Outcome(Error(401, "Unauthorized"), t, None)
  {
  }

  /**
   * A form `userId` other than the caller's is answered with 401 and no change,
   * even when the form carries no file: this check comes before the file check.
   */
  lemma ForeignUserIdUnauthorized(auth: Option<UserId>, form: Form, t: Table, uuid: string,
                                  storage: Option<StorageResult>, newId: Id, now: Time)
    requires Truthy(auth) && form.userId != Some(auth.value)
    ensures Handle(auth, form, t, uuid, storage, newId, now) == Outcome(Error(401, "Unauthorized"), t, None)
  {
  }

  /** A form without a file, from the right caller, is answered with 400 and no change. */
  lemma MissingFileRejected(auth: Option<UserId>, form: Form, t: Table, uuid: string,
                            storage: Option<StorageResult>, newId: Id, now: Time)
    requires Truthy(auth) && form.userId == Some(auth.value) && form.file.None?
    ensures Handle(auth, form, t, uuid, storage, newId, now) == Outcome(Error(400, "No file provided"), t, None)
  {
  }

  /** An empty `parentId` is the same request as none at all: the file goes to root. */
  lemma EmptyParentIsRoot(auth: Option<UserId>, form: Form, t: Table, uuid: string,
                          storage: Option<StorageResult>, newId: Id, now: Time)
    requires form.parentId == Some("")
    ensures Handle(auth, form, t, uuid, storage, newId, now)
         == Handle(auth, form.(parentId := None), t, uuid, storage, newId, now)
    ensures var o := Handle(auth, form, t, uuid, storage, newId, now);
      o.response.Ok? ==> o.response.body.parentId.None?
  {
  }

  /**
   * A `parentId` that names no folder of the caller (a missing row, another
   * user's folder, or a file) is answered with 404 and no change, whatever the
   * MIME type: the parent check comes before the MIME check.
   */
  lemma UnknownParentNotFound(auth: Option<UserId>, form: Form, t: Table, uuid: string,
                              storage: Option<StorageResult>, newId: Id, now: Time)
    requires Truthy(auth) && form.userId == Some(auth.value) && form.file.Some?
    requires Truthy(form.parentId) && !OwnedFolder(t, form.parentId.value, auth.value)
    ensures Handle(auth, form, t, uuid, storage, newId, now)
         == Outcome(Error(404, "Parent folder not found"), t, None)
  {
  }

  /** In particular, a file can never be the parent, nor can another user's folder. */
  lemma FileOrForeignFolderNotFound(auth: Option<UserId>, form: Form, t: Table, uuid: string,
                                    storage: Option<StorageResult>, newId: Id, now: Time)
    requires Truthy(auth) && form.userId == Some(auth.value) && form.file.Some?
    requires Truthy(form.parentId) && form.parentId.value in t
    requires !t[form.parentId.value].isFolder || t[form.parentId.value].userId != auth.value
    ensures Handle(auth, form, t, uuid, storage, newId, now).response == Error(404, "Parent folder not found")
  {
  }

  /** A blocked MIME type, once the parent check has passed, is answered with 400 and no change. */
  lemma BlockedTypeRejected(auth: Option<UserId>, form: Form, t: Table, uuid: string,
                            storage: Option<StorageResult>, newId: Id, now: Time)
    requires Truthy(auth) && form.userId == Some(auth.value) && form.file.Some?
    requires Truthy(form.parentId) ==> OwnedFolder(t, form.parentId.value, auth.value)
    requires IsExecutableType(form.file.value.mimeType)
    ensures Handle(auth, form, t, uuid, storage, newId, now)
         == Outcome(Error(400, "We don't support executables"), t, None)
  {
  }

  /**
   * An admitted upload sends the file to storage under `uuid.ext` in the
   * folder of its parent, and a successful one records the storage service's
   * answer as the row's location.
   */
  lemma AdmittedUploadSent(auth: Option<UserId>, form: Form, t: Table, uuid: string,
                           storage: Option<StorageResult>, newId: Id, now: Time)
    requires Admit(auth, form, t).Admitted?
    ensures var o := Handle(auth, form, t, uuid, storage, newId, now);
      && o.sent == Some(StorageRequest(StoredFileName(uuid, form.file.value.name),
                                       FolderPath(auth.value, OrNull(form.parentId))))
      && (o.response.Ok? ==>
            && o.response.body.fileURL == storage.value.url
            && o.response.body.path == storage.value.filePath
            && o.response.body.size == form.file.value.size
            && o.response.body.mimeType == form.file.value.mimeType
            && o.response.body.thumbnailURL == OrNull(storage.value.thumbnailUrl))
  {
  }

  /**
   * A successful upload becomes a child of its parent folder (or a root entry)
   * and of nothing else.
   */
  lemma UploadLinksIntoParent(auth: Option<UserId>, form: Form, t: Table, uuid: string,
                              storage: Option<StorageResult>, newId: Id, now: Time, x: Id)
    requires Handle(auth, form, t, uuid, storage, newId, now).response.Ok?
    ensures var t' := Handle(auth, form, t, uuid, storage, newId, now).table;
      && Children(t', x) == (if OrNull(form.parentId) == Some(x) then Children(t, x) + {newId} else Children(t, x))
      && Roots(t') == (if OrNull(form.parentId).None? then Roots(t) + {newId} else Roots(t))
  {
    var a := Admit(auth, form, t);
    InsertLinks(t, RowFor(a.userId, a.parentId, a.file, storage.value), newId, now, x);
  }

  /** An admitted upload whose row the column types accept succeeds for some generated key. */
  lemma SomeKeySucceeds(auth: Option<UserId>, form: Form, t: Table, uuid: string,
                        storage: Option<StorageResult>, now: Time)
    requires Admit(auth, form, t).Admitted? && storage.Some?
    requires var a := Admit(auth, form, t); Storable(RowFor(a.userId, a.parentId, a.file, storage.value))
    ensures exists newId :: Handle(auth, form, t, uuid, storage, newId, now).response.Ok?
  {
    Db.FreshIdExists(t.Keys);
    var newId :| newId !in t;
    assert Handle(auth, form, t, uuid, storage, newId, now).response.Ok?;
  }

  /** The handler, run against the database `db`; `newId` is the key `defaultRandom()` generates. */
  method Post(db: Db.Store, auth: Option<UserId>, form: Form, uuid: string,
              storage: Option<StorageResult>, newId: Id, now: Time)
    returns (response: Response<Entry>, sent: Option<StorageRequest>)
    requires db.Valid()
    modifies db
    ensures db.Valid()
    ensures Handle(auth, form, old(db.rows), uuid, storage, newId, now) == Outcome(response, db.rows, sent)
  {
    sent := None;
    if !Truthy(auth) {
      response := Error(401, "Unauthorized");
      return;
    }
    var userId := auth.value;
    var parentId := OrNull(form.parentId);
    if form.userId != Some(userId) {
      response := Error(401, "Unauthorized");
      return;
    }
    if form.file.None? {
      response := Error(400, "No file provided");
      return;
    }
    var file := form.file.value;
    if parentId.Some? {
      var parentFolder := db.SelectOwnedFolder(parentId.value, userId);
      if parentFolder.None? {
        response := Error(404, "Parent folder not found");
        return;
      }
    }
    if IsExecutableType(file.mimeType) {
      response := Error(400, "We don't support executables");
      return;
    }
    sent := Some(StorageRequest(StoredFileName(uuid, file.name), FolderPath(userId, parentId)));
    if storage.None? {
      response := Error(500, "Failed to upload file");
      return;
    }
    var newFile := db.Insert(RowFor(userId, parentId, file, storage.value), newId, now);
    if newFile.None? {
      response := Error(500, "Failed to upload file");
      return;
    }
    response := Ok(newFile.value);
  }
}

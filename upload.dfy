/**
 * `POST /api/upload`: the client has already sent a file to the storage
 * service and posts the service's answer as JSON; the handler records it as a
 * root-level file of the signed-in user. Missing or empty fields get
 * defaults; exactly one row is inserted, or none on an error.
 *
 * `Handle` is the request as a function of its inputs and the table, and
 * `Post` the handler itself, run against a `Db.Store`.
 */
module UploadRoute {
  import opened Web
  import opened Schema
  import Db

  /** The `imagekit` object of the body: the storage service's description of the stored file. */
  datatype ImageKitInfo = ImageKitInfo(
    url: Json<string>,
    name: Json<string>,
    filePath: Json<string>,
    size: Json<int>,
    fileType: Json<string>,
    thumbnailUrl: Json<string>)

  /** The JSON body: the `imagekit` object and the client's claimed `userId`. */
  datatype Body = Body(imagekit: Json<ImageKitInfo>, userId: Json<string>)

  /** What a request yields: the response and the table afterwards. */
  datatype Outcome = Outcome(response: Response<Entry>, table: Table)

  /** The body carries an `imagekit` object whose `url` is a non-empty string. */
  predicate HasUploadData(body: Body) {
    body.imagekit.Value? && TruthyText(body.imagekit.value.url)
  }

  /**
   * The row recorded for `info`: each falsy field takes its default, and the
   * fallback `path` interpolates the raw `name` field, not its default.
   */
  function RowFor(userId: UserId, info: ImageKitInfo): NewRow
    requires TruthyText(info.url)
  {
    NewRow(
      TextOr(info.name, "Untitled"),
      TextOr(info.filePath, "/droply/" + userId + "/" + Interpolate(info.name)),
      NumberOr(info.size, 0),
      TextOr(info.fileType, "image"),
      info.url.value,
      TextOrNull(info.thumbnailUrl),
      userId,
      None,
      Some(false), Some(false), Some(false))
  }

  /**
   * The request as a whole; `newId` is the key the database generates and
   * `now` its clock. A refused insert (a key already in use, a value the column
   * types reject) is caught and answered with 500.
   */
  function Handle(auth: Option<UserId>, body: Body, t: Table, newId: Id, now: Time): (o: Outcome)
    ensures o.response.Ok? <==>
      && Truthy(auth) && body.userId == Value(auth.value) && HasUploadData(body)
      && newId !in t && Storable(RowFor(auth.value, body.imagekit.value))
    ensures !o.response.Ok? ==> o.table == t
    ensures !o.response.Ok? ==> o.response.status in {401, 500}
    ensures o.response.Ok? ==> o.response.body.id == newId && o.table == t[newId := o.response.body]
    ensures o.response.Ok? ==>
      var e := o.response.body;
      && e.userId == auth.value && e.fileURL == body.imagekit.value.url.value
      && e.parentId.None? && !e.isFolder && !e.isStarred && !e.isTrash
      && e.createdAt == now && e.updatedAt == now
    ensures WellKeyed(t) ==> WellKeyed(o.table)
    ensures ParentsValid(t) ==> ParentsValid(o.table)
  {
    if !Truthy(auth) then Outcome(Error(401, "Unauthorized"), t)
    else
      var userId := auth.value;
      if body.userId != Value(userId) then Outcome(Error(401, "Unauthorized"), t)
      else if !HasUploadData(body) then Outcome(Error(401, "invalid file upload data"), t)
      else
        var row := RowFor(userId, body.imagekit.value);
        var inserted := InsertRow(t, row, newId, now);
        if inserted.None? then Outcome(Error(500, "Failed to save info to db"), t)
        else
          InsertKeepsParentsValid(t, row, newId, now);
          Outcome(Ok(inserted.value[newId]), inserted.value)
  }

  /** Without a signed-in user the answer is 401 and the table is unchanged. */
  lemma SignedOutUnauthorized(auth: Option<UserId>, body: Body, t: Table, newId: Id, now: Time)
    requires !Truthy(auth)
    ensures Handle(auth, body, t, newId, now) == Outcome(Error(401, "Unauthorized"), t)
  {
  }

  /** A body `userId` other than the caller's is answered with 401 and no change. */
  lemma ForeignUserIdUnauthorized(auth: Option<UserId>, body: Body, t: Table, newId: Id, now: Time)
    requires Truthy(auth) && body.userId != Value(auth.value)
    ensures Handle(auth, body, t, newId, now) == Outcome(Error(401, "Unauthorized"), t)
  {
  }

  /**
   * A missing `imagekit` object or an empty `url`, from the right caller, is
   * answered with 401 (not 400) and no change.
   */
  lemma MissingUploadDataUnauthorized(auth: Option<UserId>, body: Body, t: Table, newId: Id, now: Time)
    requires Truthy(auth) && body.userId == Value(auth.value) && !HasUploadData(body)
    ensures Handle(auth, body, t, newId, now) == Outcome(Error(401, "invalid file upload data"), t)
  {
  }

  /** Empty or missing fields of a recorded upload take their defaults. */
  lemma DefaultsApplied(auth: Option<UserId>, body: Body, t: Table, newId: Id, now: Time)
    requires Handle(auth, body, t, newId, now).response.Ok?
    ensures var e := Handle(auth, body, t, newId, now).response.body;
      var info := body.imagekit.value;
      && e.name == (if TruthyText(info.name) then info.name.value else "Untitled")
      && e.path == (if TruthyText(info.filePath) then info.filePath.value
                    else "/droply/" + auth.value + "/" + Interpolate(info.name))
      && e.size == (if info.size.Value? && info.size.value != 0 then info.size.value else 0)
      && e.mimeType == (if TruthyText(info.fileType) then info.fileType.value else "image")
      && (e.thumbnailURL.Some? <==> TruthyText(info.thumbnailUrl))
      && (e.thumbnailURL.Some? ==> e.thumbnailURL.value == info.thumbnailUrl.value)
  {
  }

  /**
   * The fallback path is built from the raw `name` field: with neither a name
   * nor a path the row is named "Untitled" but stored at `/droply/{userId}/undefined`.
   */
  lemma FallbackPathUsesRawName(userId: UserId, url: string, t: Table, newId: Id, now: Time)
    requires newId !in t && userId != "" && url != "" && '\0' !in userId && '\0' !in url
    ensures var info := ImageKitInfo(Value(url), Undefined, Undefined, Undefined, Undefined, Undefined);
      var o := Handle(Some(userId), Body(Value(info), Value(userId)), t, newId, now);
      && o.response.Ok?
      && o.response.body.name == "Untitled"
      && o.response.body.path == "/droply/" + userId + "/undefined"
  {
  }

  /** A request that passes the checks, with a row the column types accept, succeeds for some generated key. */
  lemma SomeKeySucceeds(auth: Option<UserId>, body: Body, t: Table, now: Time)
    requires Truthy(auth) && body.userId == Value(auth.value) && HasUploadData(body)
    requires Storable(RowFor(auth.value, body.imagekit.value))
    ensures exists newId :: Handle(auth, body, t, newId, now).response.Ok?
  {
    Db.FreshIdExists(t.Keys);
    var newId :| newId !in t;
    assert Handle(auth, body, t, newId, now).response.Ok?;
  }

  /** The handler, run against the database `db`; `newId` is the key `defaultRandom()` generates. */
  method Post(db: Db.Store, auth: Option<UserId>, body: Body, newId: Id, now: Time) returns (response: Response<Entry>)
    requires db.Valid()
    modifies db
    ensures db.Valid()
    ensures Handle(auth, body, old(db.rows), newId, now) == Outcome(response, db.rows)
  {
    if !Truthy(auth) {
      response := Error(401, "Unauthorized");
      return;
    }
    var userId := auth.value;
    if body.userId != Value(userId) {
      response := Error(401, "Unauthorized");
      return;
    }
    if !HasUploadData(body) {
      response := Error(401, "invalid file upload data");
      return;
    }
    var newFile := db.Insert(RowFor(userId, body.imagekit.value), newId, now);
    if newFile.None? {
      response := Error(500, "Failed to save info to db");
      return;
    }
    response := Ok(newFile.value);
  }
}

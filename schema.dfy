/**
 * The `files` table: one relation holding both files and folders, linked to
 * itself through `parentId`. The table is a map from `id` to its row, so the
 * primary key is the map's key; `WellKeyed` says every row stores its own key.
 */
module Schema {
  import opened Web

  /** The `uuid` columns; any string stands for one here. */
  type Id = string
  /** The identity provider's user id, a `text` column. */
  type UserId = string
  /** A `timestamp`, as an instant supplied by the caller's clock. */
  type Time = int

  /** The range of Postgres's `integer` column type (32-bit signed). */
  const IntegerMin: int := -0x8000_0000
  const IntegerMax: int := 0x7FFF_FFFF

  /**
   * A row. Columns declared `notNull()` are plain values; the two nullable
   * columns, `thumbnailURL` and `parentId`, are `Option`s.
   */
  datatype Entry = Entry(
    id: Id,
    name: string,
    path: string,
    size: int,
    mimeType: string,
    fileURL: string,
    thumbnailURL: Option<string>,
    userId: UserId,
    parentId: Option<Id>,
    isFolder: bool,
    isStarred: bool,
    isTrash: bool,
    createdAt: Time,
    updatedAt: Time)

  /**
   * The values an insert supplies. `id` and the timestamps are always left to
   * the database; the three flags may be omitted (`None`).
   */
  datatype NewRow = NewRow(
    name: string,
    path: string,
    size: int,
    mimeType: string,
    fileURL: string,
    thumbnailURL: Option<string>,
    userId: UserId,
    parentId: Option<Id>,
    isFolder: Option<bool>,
    isStarred: Option<bool>,
    isTrash: Option<bool>)

  type Table = map<Id, Entry>

  /** The primary key: every row is stored under its own `id`. */
  predicate WellKeyed(t: Table) {
    forall k :: k in t ==> t[k].id == k
  }

  predicate FitsInteger(n: int) {
    IntegerMin <= n <= IntegerMax
  }

  function FlagOrFalse(b: Option<bool>): bool {
    b.Some? && b.value
  }

  /** The row the database stores for `n`, with the generated `id` and the insertion time `now`. */
  function Materialize(n: NewRow, id: Id, now: Time): (e: Entry)
    ensures e.id == id
    ensures e.createdAt == now && e.updatedAt == now
    ensures n.isFolder.None? ==> !e.isFolder
    ensures n.isStarred.None? ==> !e.isStarred
    ensures n.isTrash.None? ==> !e.isTrash
    ensures n.isFolder.Some? ==> e.isFolder == n.isFolder.value
    ensures n.isStarred.Some? ==> e.isStarred == n.isStarred.value
    ensures n.isTrash.Some? ==> e.isTrash == n.isTrash.value
  {
    Entry(id, n.name, n.path, n.size, n.mimeType, n.fileURL, n.thumbnailURL,
          n.userId, n.parentId,
          FlagOrFalse(n.isFolder), FlagOrFalse(n.isStarred), FlagOrFalse(n.isTrash),
          now, now)
  }

  /** Postgres `text` cannot hold the character U+0000. */
  predicate StorableText(s: string) {
    '\0' !in s
  }

  /** The column types accept `n`: no text holds U+0000 and `size` is in the `integer` range. */
  predicate Storable(n: NewRow) {
    && StorableText(n.name) && StorableText(n.path) && StorableText(n.mimeType)
    && StorableText(n.fileURL) && StorableText(n.userId)
    && (n.thumbnailURL.Some? ==> StorableText(n.thumbnailURL.value))
    && FitsInteger(n.size)
  }

  /**
   * `insert(filesTable).values(n)`, where `id` is the key `defaultRandom()`
   * generated. The database refuses a key already in use (the primary key) and
   * values its column types reject; it checks nothing about `parentId`, which
   * carries no foreign-key constraint.
   */
  function InsertRow(t: Table, n: NewRow, id: Id, now: Time): (r: Option<Table>)
    ensures r.None? <==> id in t || !Storable(n)
    ensures r.Some? ==> r.value.Keys == t.Keys + {id} && r.value[id] == Materialize(n, id, now)
    ensures r.Some? ==> forall k :: k in t ==> r.value[k] == t[k]
    ensures r.Some? && WellKeyed(t) ==> WellKeyed(r.value)
  {
    if id !in t && Storable(n) then Some(t[id := Materialize(n, id, now)]) else None
  }

  /** The `parent` relation: the row whose `id` is this row's `parentId`, if there is one. */
  function Parent(t: Table, e: Entry): Option<Entry> {
    if e.parentId.Some? && e.parentId.value in t then Some(t[e.parentId.value]) else None
  }

  /** The `children` relation: the rows whose `parentId` is `x`. */
  function Children(t: Table, x: Id): set<Id> {
    set k | k in t && t[k].parentId == Some(x)
  }

  /** The rows at root level (`parentId` is null). */
  function Roots(t: Table): set<Id> {
    set k | k in t && t[k].parentId.None?
  }

  /** `p` is a folder of `t` owned by `u`. */
  predicate OwnedFolder(t: Table, p: Id, u: UserId) {
    p in t && t[p].userId == u && t[p].isFolder
  }

  /** A set `parentId` names a folder of the same owner. */
  predicate ValidParent(t: Table, e: Entry) {
    e.parentId.Some? ==> OwnedFolder(t, e.parentId.value, e.userId)
  }

  /** The tree invariant the upload handler keeps and the database does not enforce. */
  predicate ParentsValid(t: Table) {
    forall k :: k in t ==> ValidParent(t, t[k])
  }

  /** Two rows of a keyed table never share an `id`. */
  lemma UniqueIds(t: Table, a: Id, b: Id)
    requires WellKeyed(t) && a in t && b in t && a != b
    ensures t[a].id != t[b].id
  {
  }

  /** `children` is the inverse of `parent`: `k` is a child of `x` exactly when `x` is the parent of `k`. */
  lemma ChildrenInverseOfParent(t: Table, x: Id, k: Id)
    requires WellKeyed(t) && x in t && k in t
    ensures k in Children(t, x) <==> Parent(t, t[k]) == Some(t[x])
  {
  }

  /** Every row has at most one parent: the children of two different ids are disjoint. */
  lemma ChildrenDisjoint(t: Table, x: Id, y: Id)
    requires x != y
    ensures Children(t, x) !! Children(t, y)
  {
  }

  /** A row is at root level exactly when it is nobody's child. */
  lemma RootIffNoParent(t: Table, k: Id)
    requires k in t
    ensures k in Roots(t) <==> forall x :: k !in Children(t, x)
  {
    if k !in Roots(t) {
      assert k in Children(t, t[k].parentId.value);
    }
  }

  /** Under the invariant a child's parent is a folder with the child's owner. */
  lemma ChildOfOwnedFolder(t: Table, x: Id, k: Id)
    requires ParentsValid(t) && k in Children(t, x)
    ensures OwnedFolder(t, x, t[k].userId)
  {
  }

  /** Under the invariant a file never has children. */
  lemma FilesHaveNoChildren(t: Table, x: Id)
    requires ParentsValid(t) && x in t && !t[x].isFolder
    ensures Children(t, x) == {}
  {
  }

  /** An insert adds the new row to its parent's children, or to the roots, and to nothing else. */
  lemma InsertLinks(t: Table, n: NewRow, id: Id, now: Time, x: Id)
    requires InsertRow(t, n, id, now).Some?
    ensures Children(InsertRow(t, n, id, now).value, x)
         == if n.parentId == Some(x) then Children(t, x) + {id} else Children(t, x)
    ensures Roots(InsertRow(t, n, id, now).value)
         == if n.parentId.None? then Roots(t) + {id} else Roots(t)
  {
  }

  /** An insert keeps the invariant when the new row's parent, if any, is a folder of its owner. */
  lemma InsertKeepsParentsValid(t: Table, n: NewRow, id: Id, now: Time)
    requires n.parentId.Some? ==> OwnedFolder(t, n.parentId.value, n.userId)
    requires InsertRow(t, n, id, now).Some?
    ensures ParentsValid(t) ==> ParentsValid(InsertRow(t, n, id, now).value)
  {
  }

  /** A row holding U+0000 in a text column is refused, whatever the table. */
  lemma NulTextRefused(t: Table, n: NewRow, id: Id, now: Time)
    requires '\0' in n.name
    ensures InsertRow(t, n, id, now).None?
  {
  }

  /** The database alone does not keep the invariant: it accepts a row whose parent does not exist. */
  lemma InsertAcceptsDanglingParent()
    ensures var n := NewRow("a.txt", "/a.txt", 1, "text/plain", "u", None, "alice", Some("missing"),
                            None, None, None);
            InsertRow(map[], n, "f", 0).Some? && !ParentsValid(InsertRow(map[], n, "f", 0).value)
  {
  }
}

/**
 * The database handle the route handlers query and insert through, passed in
 * explicitly. Its one piece of state is the `files` table.
 */
module Db {
  import opened Web
  import opened Schema

  /** The longest key length in `ids`. */
  ghost function MaxLength(ids: set<Id>): (n: nat)
    ensures forall k :: k in ids ==> |k| <= n
    decreases ids
  {
    if ids == {} then 0
    else
      var x :| x in ids;
      var m := MaxLength(ids - {x});
      if |x| > m then |x| else m
  }

  /** However many rows the table holds, some id is still unused, so a generated key can always be fresh. */
  lemma FreshIdExists(ids: set<Id>)
    ensures exists id :: id !in ids
  {
    var id: Id := seq(MaxLength(ids) + 1, _ => '0');
    assert id !in ids;
  }

  class Store {
    var rows: Table

    ghost predicate Valid()
      reads this
    {
      WellKeyed(rows)
    }

    constructor ()
      ensures Valid() && rows == map[]
    {
      rows := map[];
    }

    /**
     * `select().from(filesTable).where(id = p and userId = u and isFolder = true)`,
     * keeping the first row. Because `id` is the primary key the lookup is by key,
     * and it finds a row exactly when the filter matches one.
     */
    method SelectOwnedFolder(p: Id, u: UserId) returns (r: Option<Entry>)
      requires Valid()
      ensures r.Some? <==> exists k :: k in rows && rows[k].id == p && rows[k].userId == u && rows[k].isFolder
      ensures r.Some? ==> r.value in rows.Values && r.value.id == p && r.value.userId == u && r.value.isFolder
      ensures r.Some? <==> OwnedFolder(rows, p, u)
    {
      if p in rows && rows[p].userId == u && rows[p].isFolder {
        r := Some(rows[p]);
      } else {
        r := None;
      }
    }

    /**
     * `insert(filesTable).values(n).returning()`, where `id` is the key
     * `defaultRandom()` generated: the database stores the row with its
     * defaults and returns it, or refuses a key already in use or values its
     * column types reject and leaves the table as it was.
     */
    method Insert(n: NewRow, id: Id, now: Time) returns (r: Option<Entry>)
      requires Valid()
      modifies this
      ensures Valid()
      ensures InsertRow(old(rows), n, id, now) == if r.Some? then Some(rows) else None
      ensures r.None? ==> rows == old(rows)
      ensures r.Some? ==> r.value == Materialize(n, id, now) && rows == old(rows)[id := r.value]
    {
      if id in rows || !Storable(n) {
        return None;
      }
      var e := Materialize(n, id, now);
      rows := rows[id := e];
      r := Some(e);
    }
  }
}

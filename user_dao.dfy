/**
 * Model/DataSource/Local/DAO/UserDao.kt: the `users` table. The rows are a
 * map from primary key to row; `lastId` is the table's AUTOINCREMENT
 * counter (its `sqlite_sequence` entry), so a generated key is never reused.
 * A `LIMIT 1` query without `ORDER BY` reads the row with the smallest key,
 * the order of a scan of a rowid table.
 */
module UserStore {
  import opened Wrappers
  import opened Models
  import opened Tables

  type UserTable = map<int, UserEntity>

  /** Every row is stored under its own primary key. */
  ghost predicate UsersKeyed(rows: UserTable) {
    forall id :: id in rows ==> rows[id].id == id
  }

  function IdsWithEmail(rows: UserTable, email: string): set<int> {
    set id | id in rows && rows[id].email == email
  }

  /** `getUserByEmail`: the first row whose email is exactly `email`, or null when there is none. */
  function GetUserByEmail(rows: UserTable, email: string): (r: Option<UserEntity>)
    requires UsersKeyed(rows)
    ensures r.None? <==> forall id :: id in rows ==> rows[id].email != email
    ensures r.Some? ==> r.value.id in rows && rows[r.value.id] == r.value && r.value.email == email
    ensures r.Some? ==> forall id :: id in rows && rows[id].email == email ==> r.value.id <= id
  {
    var ids := IdsWithEmail(rows, email);
    assert forall id :: id in rows && rows[id].email == email ==> id in ids;
    if ids == {} then None else Some(rows[MinOf(ids)])
  }

  /** `getUserById`: the row with that key, or null. */
  function GetUserById(rows: UserTable, userId: int): (r: Option<UserEntity>)
    requires UsersKeyed(rows)
    ensures r.Some? <==> userId in rows
    ensures r.Some? ==> r.value == rows[userId] && r.value.id == userId
  {
    if userId in rows then Some(rows[userId]) else None
  }

  /** `getUserCount`: the number of rows. */
  function GetUserCount(rows: UserTable): (n: nat)
    ensures n == |rows.Keys|
  {
    |rows|
  }

  /** `getFirstUser`: the row with the smallest key, or null for an empty table. */
  function GetFirstUser(rows: UserTable): (r: Option<UserEntity>)
    requires UsersKeyed(rows)
    ensures r.None? <==> GetUserCount(rows) == 0
    ensures r.Some? ==> r.value.id in rows && rows[r.value.id] == r.value
    ensures r.Some? ==> forall id :: id in rows ==> r.value.id <= id
  {
    if rows.Keys == {} then None else Some(rows[MinOf(rows.Keys)])
  }

  /** The row `insertUser` stores for `user`: key 0 means "not set" and takes the next counter value. */
  function Inserted(user: UserEntity, lastId: int): UserEntity {
    if user.id == 0 then user.(id := lastId + 1) else user
  }

  /** Rows with distinct keys hold distinct emails: what `register`'s duplicate check keeps. */
  ghost predicate EmailsDistinct(rows: UserTable) {
    forall a, b :: a in rows && b in rows && rows[a].email == rows[b].email ==> a == b
  }

  /** The `users` table, changed in place by `insertUser` and `updateUser`. */
  class UserDao {
    var rows: UserTable
    var lastId: int

    ghost predicate Valid()
      reads this
    {
      UsersKeyed(rows) && 0 <= lastId && forall id :: id in rows ==> id <= lastId
    }

    constructor ()
      ensures Valid() && rows == map[] && lastId == 0
    {
      rows := map[];
      lastId := 0;
    }

    /**
     * `insertUser` with ABORT: store the row and return its key. A key
     * already present aborts the statement: None, nothing changes. The
     * counter follows the largest key ever stored.
     */
    method InsertUser(user: UserEntity) returns (rowId: Option<int>)
      requires Valid()
      modifies this
      ensures Valid()
      ensures var row := Inserted(user, old(lastId));
              rowId.None? <==> row.id in old(rows)
      ensures var row := Inserted(user, old(lastId));
              rowId.Some? ==>
                && rowId.value == row.id
                && rows == old(rows)[row.id := row]
                && lastId == (if row.id > old(lastId) then row.id else old(lastId))
      ensures rowId.None? ==> rows == old(rows) && lastId == old(lastId)
      ensures user.id == 0 ==> rowId == Some(old(lastId) + 1)
    {
      var row := Inserted(user, lastId);
      if row.id in rows {
        return None;
      }
      rows := rows[row.id := row];
      if row.id > lastId {
        lastId := row.id;
      }
      rowId := Some(row.id);
    }

    /** `updateUser`: replace the row with that key, if any; other rows stay as they are. */
    method UpdateUser(user: UserEntity)
      requires Valid()
      modifies this
      ensures Valid()
      ensures rows == if user.id in old(rows) then old(rows)[user.id := user] else old(rows)
      ensures lastId == old(lastId)
    {
      if user.id in rows {
        rows := rows[user.id := user];
      }
    }
  }
}

/**
 * Model/DataSource/Local/DAO/PostDao.kt: the `posts` table. The table is a map
 * from primary key to row. Each SELECT and COUNT query is a pure function of
 * the table; each INSERT, UPDATE and DELETE is a method of class PostDao,
 * which owns the table.
 */
module PostStore {
  import opened Wrappers
  import opened Text
  import opened Models
  import opened Tables

  type Table = map<int, PostEntity>

  /** Every row is stored under its own primary key. */
  ghost predicate WellKeyed(rows: Table) {
    forall id :: id in rows ==> rows[id].id == id
  }

  predicate IdsAscending(ps: seq<PostEntity>) {
    forall i, j :: 0 <= i < j < |ps| ==> ps[i].id < ps[j].id
  }

  /** The primary keys of a list of rows. */
  function IdSet(ps: seq<PostEntity>): set<int> {
    set p | p in ps :: p.id
  }

  /** `r` is the answer to `SELECT * FROM posts WHERE p ORDER BY id ASC`. */
  ghost predicate Selects(r: seq<PostEntity>, rows: Table, p: PostEntity -> bool) {
    && IdsAscending(r)
    && (forall i :: 0 <= i < |r| ==> r[i].id in rows && rows[r[i].id] == r[i] && p(r[i]))
    && (forall id :: id in rows && p(rows[id]) ==> exists i :: 0 <= i < |r| && r[i].id == id)
  }

  predicate AnyRow(e: PostEntity) { true }
  predicate IsFavoriteRow(e: PostEntity) { e.isFavorite }
  predicate IsPlainRow(e: PostEntity) { !e.isFavorite }

  /** The rows of `s` satisfying `p`, in their order in `s`. */
  function Filter(s: seq<PostEntity>, p: PostEntity -> bool): (r: seq<PostEntity>)
    ensures |r| <= |s|
    ensures forall i :: 0 <= i < |r| ==> r[i] in s && p(r[i])
    ensures forall i :: 0 <= i < |s| && p(s[i]) ==> s[i] in r
  {
    if s == [] then []
    else
      var rest := Filter(s[1..], p);
      assert forall i :: 1 <= i < |s| ==> s[i] == s[1..][i - 1];
      (if p(s[0]) then [s[0]] else []) + rest
  }

  /** The filter keeps exactly the elements that satisfy the predicate. */
  lemma FilterMembers(s: seq<PostEntity>, p: PostEntity -> bool)
    ensures forall e :: e in Filter(s, p) <==> e in s && p(e)
  {
    forall e | e in s && p(e) ensures e in Filter(s, p) {
      var i :| 0 <= i < |s| && s[i] == e;
    }
  }

  /** Filtering keeps ascending ids ascending. */
  lemma {:induction false} FilterAscending(s: seq<PostEntity>, p: PostEntity -> bool)
    requires IdsAscending(s)
    ensures IdsAscending(Filter(s, p))
  {
    if s != [] {
      FilterAscending(s[1..], p);
      if p(s[0]) {
        FilterTailAbove(s, p);
        ConsAscending(s[0], Filter(s[1..], p));
      }
    }
  }

  /** In an ascending list, what the filter keeps of the tail lies above the head. */
  lemma FilterTailAbove(s: seq<PostEntity>, p: PostEntity -> bool)
    requires s != [] && IdsAscending(s)
    ensures forall k :: 0 <= k < |Filter(s[1..], p)| ==> s[0].id < Filter(s[1..], p)[k].id
  {
    var t := s[1..];
    var rest := Filter(t, p);
    forall k | 0 <= k < |rest| ensures s[0].id < rest[k].id {
      assert rest[k] in t;
      var j :| 0 <= j < |t| && t[j] == rest[k];
      assert t[j] == s[j + 1];
    }
  }

  lemma ConsAscending(x: PostEntity, rest: seq<PostEntity>)
    requires IdsAscending(rest)
    requires forall k :: 0 <= k < |rest| ==> x.id < rest[k].id
    ensures IdsAscending([x] + rest)
  {
  }

  // ---------------------------------------------------------------------------
  // SELECT queries

  /** The rows stored under the given keys, in the order of the keys. */
  function RowsAt(rows: Table, ks: seq<int>): (r: seq<PostEntity>)
    requires forall i :: 0 <= i < |ks| ==> ks[i] in rows
    ensures |r| == |ks| && forall i :: 0 <= i < |ks| ==> r[i] == rows[ks[i]]
  {
    seq(|ks|, i requires 0 <= i < |ks| => rows[ks[i]])
  }

  /** Reading every key in ascending order answers the unfiltered query. */
  lemma KeyOrderSelects(rows: Table, ks: seq<int>)
    requires WellKeyed(rows)
    requires Ascending(ks)
    requires forall i :: 0 <= i < |ks| ==> ks[i] in rows
    requires forall id :: id in rows ==> id in ks
    ensures Selects(RowsAt(rows, ks), rows, AnyRow)
  {
    var r := RowsAt(rows, ks);
    forall id | id in rows ensures exists i :: 0 <= i < |r| && r[i].id == id {
      var i :| 0 <= i < |ks| && ks[i] == id;
      assert r[i].id == id;
    }
  }

  /** `getAllPosts`: `SELECT * FROM posts ORDER BY id ASC`. */
  function GetAllPosts(rows: Table): (r: seq<PostEntity>)
    requires WellKeyed(rows)
    ensures Selects(r, rows, AnyRow)
    ensures |r| == |rows|
  {
    var ks := SortedKeys(rows.Keys);
    KeyOrderSelects(rows, ks);
    RowsAt(rows, ks)
  }

  /** Filtering the full id-ordered scan answers the query with that filter. */
  lemma FilterSelects(rows: Table, p: PostEntity -> bool)
    requires WellKeyed(rows)
    ensures Selects(Filter(GetAllPosts(rows), p), rows, p)
  {
    FilterOfSelects(GetAllPosts(rows), rows, p);
  }

  lemma FilterOfSelects(all: seq<PostEntity>, rows: Table, p: PostEntity -> bool)
    requires Selects(all, rows, AnyRow)
    ensures Selects(Filter(all, p), rows, p)
  {
    var r := Filter(all, p);
    FilterAscending(all, p);
    FilterMembers(all, p);
    forall i | 0 <= i < |r| ensures r[i].id in rows && rows[r[i].id] == r[i] {
      var j :| 0 <= j < |all| && all[j] == r[i];
    }
    forall id | id in rows && p(rows[id])
      ensures exists i :: 0 <= i < |r| && r[i].id == id
    {
      var j :| 0 <= j < |all| && all[j].id == id;
      assert all[j] in r;
      var i :| 0 <= i < |r| && r[i] == all[j];
    }
  }

  /** `getAllPostIds`: `SELECT id FROM posts`, read in key order. */
  function GetAllPostIds(rows: Table): (r: seq<int>)
    ensures Ascending(r) && |r| == |rows|
    ensures forall id :: id in r <==> id in rows
  {
    SortedKeys(rows.Keys)
  }

  /** `getPostById`: the row with that key, or null. */
  function GetPostById(rows: Table, postId: int): (r: Option<PostEntity>)
    requires WellKeyed(rows)
    ensures r.Some? <==> postId in rows
    ensures r.Some? ==> r.value == rows[postId] && r.value.id == postId
  {
    if postId in rows then Some(rows[postId]) else None
  }

  /** `postExists`. */
  function PostExists(rows: Table, postId: int): (b: bool)
    requires WellKeyed(rows)
    ensures b <==> GetPostById(rows, postId).Some?
  {
    postId in rows
  }

  /** `getFavoritePosts`: the favourite rows in ascending id order. */
  function GetFavoritePosts(rows: Table): (r: seq<PostEntity>)
    requires WellKeyed(rows)
    ensures Selects(r, rows, IsFavoriteRow)
  {
    FilterSelects(rows, IsFavoriteRow);
    Filter(GetAllPosts(rows), IsFavoriteRow)
  }

  /** `getNonFavoritePosts`: the other rows in ascending id order. */
  function GetNonFavoritePosts(rows: Table): (r: seq<PostEntity>)
    requires WellKeyed(rows)
    ensures Selects(r, rows, IsPlainRow)
  {
    FilterSelects(rows, IsPlainRow);
    Filter(GetAllPosts(rows), IsPlainRow)
  }

  /** The text test of the LIKE queries: `LOWER(field) LIKE LOWER('%' || q || '%')`. */
  predicate LikeContains(field: string, q: string) {
    Contains(Lower(field), Lower(q))
  }

  predicate MatchesQuery(e: PostEntity, q: string) {
    LikeContains(e.title, q) || LikeContains(e.body, q)
  }

  /** `searchPosts`: rows whose title or body contains the query, ignoring ASCII case. */
  function SearchPosts(rows: Table, query: string): (r: seq<PostEntity>)
    requires WellKeyed(rows)
    ensures Selects(r, rows, (e: PostEntity) => MatchesQuery(e, query))
  {
    FilterSelects(rows, (e: PostEntity) => MatchesQuery(e, query));
    Filter(GetAllPosts(rows), (e: PostEntity) => MatchesQuery(e, query))
  }

  /** The empty query matches every row, so it returns the whole table. */
  lemma SearchEmptyReturnsAll(rows: Table)
    requires WellKeyed(rows)
    ensures SearchPosts(rows, "") == GetAllPosts(rows)
  {
    var all := GetAllPosts(rows);
    forall e | e in all ensures MatchesQuery(e, "") {
      ContainsEmpty(Lower(e.title));
    }
    FilterAll(all, (e: PostEntity) => MatchesQuery(e, ""));
  }

  lemma {:induction false} FilterAll(s: seq<PostEntity>, p: PostEntity -> bool)
    requires forall e :: e in s ==> p(e)
    ensures Filter(s, p) == s
  {
    if s != [] {
      assert forall e :: e in s[1..] ==> e in s;
      FilterAll(s[1..], p);
    }
  }

  /** The search returns nothing exactly when no row matches the query. */
  lemma SearchEmptyIffNoMatch(rows: Table, query: string)
    requires WellKeyed(rows)
    ensures SearchPosts(rows, query) == [] <==> forall id :: id in rows ==> !MatchesQuery(rows[id], query)
  {
    var r := SearchPosts(rows, query);
    if r != [] {
      assert rows[r[0].id] == r[0] && MatchesQuery(r[0], query);
    }
  }

  /** `getPostsByBody`: rows whose body contains the text, ignoring ASCII case, by id. */
  function GetPostsByBody(rows: Table, body: string): (r: seq<PostEntity>)
    requires WellKeyed(rows)
    ensures Selects(r, rows, (e: PostEntity) => LikeContains(e.body, body))
  {
    FilterSelects(rows, (e: PostEntity) => LikeContains(e.body, body));
    Filter(GetAllPosts(rows), (e: PostEntity) => LikeContains(e.body, body))
  }

  /** Where a page starts in a list of `len` rows. */
  function PageStart(len: nat, offset: int): (start: nat)
    ensures start <= len
    ensures 0 <= offset <= len ==> start == offset
    ensures offset < 0 ==> start == 0
    ensures offset > len ==> start == len
  {
    if offset < 0 then 0 else if offset > len then len else offset
  }

  /** Where a page ends: `limit` rows on, or the end of the list; a negative limit means no limit. */
  function PageEnd(len: nat, start: nat, limit: int): (end: nat)
    requires start <= len
    ensures start <= end <= len
    ensures 0 <= limit && start + limit <= len ==> end == start + limit
    ensures limit < 0 || start + limit > len ==> end == len
  {
    if limit < 0 || start + limit > len then len else start + limit
  }

  /**
   * `LIMIT limit OFFSET offset` applied to an ordered result: the run that
   * starts `offset` rows in and is at most `limit` rows long.
   */
  function Page<T>(all: seq<T>, limit: int, offset: int): (r: seq<T>)
    ensures var start := PageStart(|all|, offset);
            && |r| == PageEnd(|all|, start, limit) - start
            && forall i :: 0 <= i < |r| ==> r[i] == all[start + i]
  {
    var start := PageStart(|all|, offset);
    all[start..PageEnd(|all|, start, limit)]
  }

  /** Consecutive pages of the same size tile the list. */
  lemma PagesAdjacent<T>(all: seq<T>, limit: nat, offset: nat)
    requires offset + 2 * limit <= |all|
    ensures Page(all, limit, offset) + Page(all, limit, offset + limit) == Page(all, 2 * limit, offset)
  {
    var a := Page(all, limit, offset);
    var b := Page(all, limit, offset + limit);
    var c := Page(all, 2 * limit, offset);
    assert |a + b| == |c|;
    forall i | 0 <= i < |c| ensures (a + b)[i] == c[i] {
      if i >= limit { assert (a + b)[i] == b[i - limit]; }
    }
  }

  /** A page of an id-ordered answer is itself id-ordered and made of the answer's rows. */
  lemma PageOfOrdered(all: seq<PostEntity>, limit: int, offset: int)
    requires IdsAscending(all)
    ensures IdsAscending(Page(all, limit, offset))
    ensures forall e :: e in Page(all, limit, offset) ==> e in all
  {
    var start := PageStart(|all|, offset);
    var end := PageEnd(|all|, start, limit);
    assert Page(all, limit, offset) == all[start..end];
    SliceAscending(all, start, end);
    forall e | e in all[start..end] ensures e in all {
      var i :| 0 <= i < end - start && all[start..end][i] == e;
      assert all[start + i] == e;
    }
  }

  lemma SliceAscending(all: seq<PostEntity>, start: nat, end: nat)
    requires IdsAscending(all) && start <= end <= |all|
    ensures IdsAscending(all[start..end])
  {
    var r := all[start..end];
    forall i, j | 0 <= i < j < |r| ensures r[i].id < r[j].id {
      assert r[i] == all[start + i] && r[j] == all[start + j];
    }
  }

  /** `getPostsWithPagination`: one page of `getAllPosts`. */
  function GetPostsWithPagination(rows: Table, limit: int, offset: int): (r: seq<PostEntity>)
    requires WellKeyed(rows)
    ensures r == Page(GetAllPosts(rows), limit, offset)
    ensures IdsAscending(r)
    ensures forall e :: e in r ==> e.id in rows && rows[e.id] == e
  {
    var all := GetAllPosts(rows);
    PageOfOrdered(all, limit, offset);
    Page(all, limit, offset)
  }

  // ---------------------------------------------------------------------------
  // ORDER BY title

  predicate TitleSorted(s: seq<PostEntity>) {
    forall i, j :: 0 <= i < j < |s| ==> StrLe(s[i].title, s[j].title)
  }

  function InsertByTitle(e: PostEntity, s: seq<PostEntity>): (r: seq<PostEntity>)
    requires TitleSorted(s)
    ensures TitleSorted(r)
    ensures multiset(r) == multiset(s) + multiset{e}
    ensures |r| == |s| + 1
  {
    if s == [] then [e]
    else if StrLe(e.title, s[0].title) then
      forall j | 0 <= j < |s| ensures StrLe(e.title, s[j].title) {
        if j > 0 { StrLeTrans(e.title, s[0].title, s[j].title); }
      }
      [e] + s
    else
      StrLeTotal(e.title, s[0].title);
      var rest := InsertByTitle(e, s[1..]);
      assert s == [s[0]] + s[1..];
      forall j | 0 <= j < |rest| ensures StrLe(s[0].title, rest[j].title) {
        assert rest[j] in multiset(rest);
        if rest[j] != e {
          assert rest[j] in multiset(s[1..]);
          var k :| 0 <= k < |s[1..]| && s[1..][k] == rest[j];
          assert s[k + 1] == rest[j];
        }
      }
      [s[0]] + rest
  }

  /** Insertion sort by title, the order of `ORDER BY title ASC`. */
  function SortByTitle(s: seq<PostEntity>): (r: seq<PostEntity>)
    ensures TitleSorted(r)
    ensures multiset(r) == multiset(s)
  {
    if s == [] then []
    else
      assert s == s[..|s| - 1] + [s[|s| - 1]];
      InsertByTitle(s[|s| - 1], SortByTitle(s[..|s| - 1]))
  }

  /** `getAllPostsOrderedByTitle`: every row, sorted by title. */
  function GetAllPostsOrderedByTitle(rows: Table): (r: seq<PostEntity>)
    requires WellKeyed(rows)
    ensures TitleSorted(r)
    ensures multiset(r) == multiset(GetAllPosts(rows))
  {
    SortByTitle(GetAllPosts(rows))
  }

  /** `getPostsByTitle`: rows whose title contains the text, ignoring ASCII case, sorted by title. */
  function GetPostsByTitle(rows: Table, title: string): (r: seq<PostEntity>)
    requires WellKeyed(rows)
    ensures TitleSorted(r)
    ensures forall e :: e in r <==> e in GetAllPosts(rows) && LikeContains(e.title, title)
    ensures multiset(r) == multiset(Filter(GetAllPosts(rows), (e: PostEntity) => LikeContains(e.title, title)))
  {
    var all := GetAllPosts(rows);
    SortedFilterMembers(all, (e: PostEntity) => LikeContains(e.title, title));
    SortByTitle(Filter(all, (e: PostEntity) => LikeContains(e.title, title)))
  }

  /** Sorting the filtered rows keeps exactly the rows that satisfy the predicate. */
  lemma SortedFilterMembers(s: seq<PostEntity>, p: PostEntity -> bool)
    ensures forall e :: e in SortByTitle(Filter(s, p)) <==> e in s && p(e)
  {
    var matching := Filter(s, p);
    var r := SortByTitle(matching);
    FilterMembers(s, p);
    assert forall e :: e in r <==> e in multiset(r);
    assert forall e :: e in matching <==> e in multiset(matching);
  }

  // ---------------------------------------------------------------------------
  // COUNT queries

  function FavoriteIds(rows: Table): set<int> {
    set id | id in rows && rows[id].isFavorite
  }

  /** `getPostsCount`: the number of rows. */
  function GetPostsCount(rows: Table): (n: nat)
    requires WellKeyed(rows)
    ensures n == |GetAllPosts(rows)|
  {
    |rows|
  }

  /** `getFavoritePostsCount`: the number of favourite rows. */
  function GetFavoritePostsCount(rows: Table): (n: nat)
    requires WellKeyed(rows)
    ensures n == |GetFavoritePosts(rows)|
  {
    SelectsCount(GetFavoritePosts(rows), rows, IsFavoriteRow, FavoriteIds(rows));
    |FavoriteIds(rows)|
  }

  function Ids(ps: seq<PostEntity>): (r: seq<int>)
    ensures |r| == |ps| && forall i :: 0 <= i < |ps| ==> r[i] == ps[i].id
  {
    seq(|ps|, i requires 0 <= i < |ps| => ps[i].id)
  }

  /** A strictly ascending sequence has as many elements as distinct values. */
  lemma {:induction false} AscendingCard(s: seq<int>)
    requires Ascending(s)
    ensures |set x | x in s| == |s|
  {
    if s != [] {
      var init := s[..|s| - 1];
      AscendingCard(init);
      assert (set x | x in s) == (set x | x in init) + {s[|s| - 1]};
      assert s[|s| - 1] !in (set x | x in init);
    }
  }

  /** A query answer has exactly as many rows as the table has rows satisfying the filter. */
  lemma SelectsCount(r: seq<PostEntity>, rows: Table, p: PostEntity -> bool, matching: set<int>)
    requires Selects(r, rows, p)
    requires forall id :: id in matching <==> id in rows && p(rows[id])
    ensures |r| == |matching|
  {
    var ids := Ids(r);
    AscendingCard(ids);
    forall x | x in ids ensures x in matching {
      var i :| 0 <= i < |ids| && ids[i] == x;
      assert r[i].id == x && rows[x] == r[i];
    }
    forall x | x in matching ensures x in ids {
      var i :| 0 <= i < |r| && r[i].id == x;
      assert ids[i] == x;
    }
    assert (set x | x in ids) == matching;
  }

  // ---------------------------------------------------------------------------
  // Specifications of the writing statements

  /** `insertPosts` with REPLACE, one row after the other. */
  function InsertAll(rows: Table, posts: seq<PostEntity>): (r: Table)
    ensures r.Keys == rows.Keys + IdSet(posts)
    ensures WellKeyed(rows) ==> WellKeyed(r)
  {
    if posts == [] then rows
    else
      var init := posts[..|posts| - 1];
      var last := posts[|posts| - 1];
      assert posts == init + [last];
      assert IdSet(posts) == IdSet(init) + {last.id};
      InsertAll(rows, init)[last.id := last]
  }

  /** The last row of the list carrying that key. */
  function LastWithId(posts: seq<PostEntity>, id: int): (e: PostEntity)
    requires id in IdSet(posts)
    ensures e in posts && e.id == id
  {
    var last := posts[|posts| - 1];
    if last.id == id then last
    else
      assert posts == posts[..|posts| - 1] + [last];
      LastWithId(posts[..|posts| - 1], id)
  }

  /** After REPLACE inserts, a listed key holds its last listed row; other rows are unchanged. */
  lemma {:induction false} InsertAllAt(rows: Table, posts: seq<PostEntity>, id: int)
    ensures id in IdSet(posts) ==> InsertAll(rows, posts)[id] == LastWithId(posts, id)
    ensures id !in IdSet(posts) && id in rows ==> InsertAll(rows, posts)[id] == rows[id]
  {
    if posts != [] {
      var init := posts[..|posts| - 1];
      var last := posts[|posts| - 1];
      assert posts == init + [last];
      assert IdSet(posts) == IdSet(init) + {last.id};
      if last.id != id {
        InsertAllAt(rows, init, id);
      }
    }
  }

  /** When keys are distinct, the last row with a key is the only one. */
  lemma {:induction false} LastWithIdDistinct(posts: seq<PostEntity>, k: int)
    requires 0 <= k < |posts|
    requires forall i, j :: 0 <= i < j < |posts| ==> posts[i].id != posts[j].id
    ensures posts[k].id in IdSet(posts) && LastWithId(posts, posts[k].id) == posts[k]
  {
    if k != |posts| - 1 {
      var init := posts[..|posts| - 1];
      assert posts[k] == init[k];
      assert init[k] in init;
      LastWithIdDistinct(init, k);
    }
  }

  /** `updatePosts`: each listed row replaces the stored row with its key, if there is one. */
  function UpdateAll(rows: Table, posts: seq<PostEntity>): (r: Table)
    ensures r.Keys == rows.Keys
    ensures WellKeyed(rows) ==> WellKeyed(r)
  {
    if posts == [] then rows
    else
      var before := UpdateAll(rows, posts[..|posts| - 1]);
      var last := posts[|posts| - 1];
      if last.id in before then before[last.id := last] else before
  }

  /** After `@Update`, a stored listed key holds its last listed row; every other row is unchanged. */
  lemma {:induction false} UpdateAllAt(rows: Table, posts: seq<PostEntity>, id: int)
    ensures id in rows && id in IdSet(posts) ==> UpdateAll(rows, posts)[id] == LastWithId(posts, id)
    ensures id in rows && id !in IdSet(posts) ==> UpdateAll(rows, posts)[id] == rows[id]
  {
    if posts != [] {
      var init := posts[..|posts| - 1];
      var last := posts[|posts| - 1];
      assert posts == init + [last];
      assert IdSet(posts) == IdSet(init) + {last.id};
      if last.id != id {
        UpdateAllAt(rows, init, id);
      }
    }
  }

  /** How many listed rows have a key present in the table. */
  function CountStored(rows: Table, posts: seq<PostEntity>): (n: nat)
    ensures n <= |posts|
  {
    if posts == [] then 0
    else CountStored(rows, posts[..|posts| - 1]) + (if posts[|posts| - 1].id in rows then 1 else 0)
  }

  /** `deletePostsNotInListExceptFavorites`: what survives the eviction. */
  function KeepListedOrFavorite(rows: Table, keep: set<int>): (r: Table)
    ensures forall id :: id in r <==> id in rows && (id in keep || rows[id].isFavorite)
    ensures forall id :: id in r ==> r[id] == rows[id]
  {
    map id | id in rows && (id in keep || rows[id].isFavorite) :: rows[id]
  }

  /** The keys the eviction removes. */
  function Evicted(rows: Table, keep: set<int>): set<int> {
    set id | id in rows && id !in keep && !rows[id].isFavorite
  }

  /** `toggleFavorite`: flip the flag of that row, if it exists. */
  function Toggled(rows: Table, postId: int): (r: Table)
    ensures r.Keys == rows.Keys
    ensures forall id :: id in rows && id != postId ==> r[id] == rows[id]
    ensures postId in rows ==> r[postId] == rows[postId].(isFavorite := !rows[postId].isFavorite)
  {
    if postId in rows then rows[postId := rows[postId].(isFavorite := !rows[postId].isFavorite)] else rows
  }

  /** Toggling the same row twice restores the table. */
  lemma ToggleTwice(rows: Table, postId: int)
    ensures Toggled(Toggled(rows, postId), postId) == rows
  {
  }

  /** `setFavorite`: set the flag of that row, if it exists. */
  function WithFavorite(rows: Table, postId: int, isFavorite: bool): (r: Table)
    ensures r.Keys == rows.Keys
    ensures forall id :: id in rows && id != postId ==> r[id] == rows[id]
    ensures postId in rows ==> r[postId] == rows[postId].(isFavorite := isFavorite)
  {
    if postId in rows then rows[postId := rows[postId].(isFavorite := isFavorite)] else rows
  }

  /** Setting the flag twice to the same value is the same as once. */
  lemma SetFavoriteIdempotent(rows: Table, postId: int, isFavorite: bool)
    ensures WithFavorite(WithFavorite(rows, postId, isFavorite), postId, isFavorite) == WithFavorite(rows, postId, isFavorite)
  {
  }

  lemma IdSetSnoc(posts: seq<PostEntity>, i: int)
    requires 0 <= i < |posts|
    ensures IdSet(posts[..i + 1]) == IdSet(posts[..i]) + {posts[i].id}
  {
    assert posts[..i + 1] == posts[..i] + [posts[i]];
  }

  /** Deleting one more key grows the count of removed keys by one exactly when it was still there. */
  lemma DeleteStepCount(keys: set<int>, done: set<int>, id: int)
    ensures |keys * (done + {id})| == |keys * done| + (if id in keys - done then 1 else 0)
  {
    if id in keys - done {
      assert keys * (done + {id}) == (keys * done) + {id};
    } else {
      assert keys * (done + {id}) == keys * done;
    }
  }

  lemma RemoveStep(m: Table, done: set<int>, id: int)
    ensures (m - done) - {id} == m - (done + {id})
    ensures (id in m - done) == (id in m.Keys - done)
  {
  }

  lemma SubsetCard(a: set<int>, b: set<int>)
    requires a <= b
    ensures |b| == |a| + |b - a|
  {
    assert b == a + (b - a);
  }

  /** The `posts` table, changed in place by the writing statements of PostDao.kt. */
  class PostDao {
    var rows: Table

    ghost predicate Valid()
      reads this
    {
      WellKeyed(rows)
    }

    constructor ()
      ensures Valid() && rows == map[]
    {
      rows := map[];
    }

    /** `insertPost` with REPLACE: the row with that key is the given one; returns its row id. */
    method InsertPost(post: PostEntity) returns (rowId: int)
      requires Valid()
      modifies this
      ensures Valid()
      ensures rows == old(rows)[post.id := post]
      ensures rowId == post.id
    {
      rows := rows[post.id := post];
      rowId := post.id;
    }

    /** `insertPosts` with REPLACE: each row in turn; returns their row ids. */
    method InsertPosts(posts: seq<PostEntity>) returns (rowIds: seq<int>)
      requires Valid()
      modifies this
      ensures Valid()
      ensures rows == InsertAll(old(rows), posts)
      ensures rowIds == Ids(posts)
    {
      rowIds := [];
      var i := 0;
      while i < |posts|
        invariant 0 <= i <= |posts|
        invariant Valid()
        invariant rows == InsertAll(old(rows), posts[..i])
        invariant rowIds == Ids(posts[..i])
      {
        var rowId := InsertPost(posts[i]);
        assert posts[..i + 1][..i] == posts[..i];
        rowIds := rowIds + [rowId];
        i := i + 1;
      }
      assert posts[..i] == posts;
    }

    /** `updatePost`: replace the row with that key, if any; returns the rows changed. */
    method UpdatePost(post: PostEntity) returns (n: nat)
      requires Valid()
      modifies this
      ensures Valid()
      ensures rows == if post.id in old(rows) then old(rows)[post.id := post] else old(rows)
      ensures n == if post.id in old(rows) then 1 else 0
    {
      if post.id in rows {
        rows := rows[post.id := post];
        n := 1;
      } else {
        n := 0;
      }
    }

    /** `updatePosts`: update each row in turn; returns the rows changed. */
    method UpdatePosts(posts: seq<PostEntity>) returns (n: nat)
      requires Valid()
      modifies this
      ensures Valid()
      ensures rows == UpdateAll(old(rows), posts)
      ensures n == CountStored(old(rows), posts)
    {
      n := 0;
      var i := 0;
      while i < |posts|
        invariant 0 <= i <= |posts|
        invariant Valid()
        invariant rows == UpdateAll(old(rows), posts[..i])
        invariant n == CountStored(old(rows), posts[..i])
      {
        var changed := UpdatePost(posts[i]);
        assert posts[..i + 1][..i] == posts[..i];
        n := n + changed;
        i := i + 1;
      }
      assert posts[..i] == posts;
    }

    /** `deletePost`: remove the row with that key; returns the rows removed. */
    method DeletePost(post: PostEntity) returns (n: nat)
      requires Valid()
      modifies this
      ensures Valid()
      ensures rows == old(rows) - {post.id}
      ensures n == if post.id in old(rows) then 1 else 0
    {
      n := if post.id in rows then 1 else 0;
      rows := rows - {post.id};
    }

    /** `deletePosts`: remove the rows with the listed keys; returns the rows removed. */
    method DeletePosts(posts: seq<PostEntity>) returns (n: nat)
      requires Valid()
      modifies this
      ensures Valid()
      ensures rows == old(rows) - IdSet(posts)
      ensures n == |old(rows).Keys * IdSet(posts)|
    {
      ghost var start := rows;
      ghost var done: set<int> := {};
      n := 0;
      var i := 0;
      while i < |posts|
        invariant 0 <= i <= |posts|
        invariant done == IdSet(posts[..i])
        invariant Valid()
        invariant rows == start - done
        invariant n == |start.Keys * done|
      {
        IdSetSnoc(posts, i);
        DeleteStepCount(start.Keys, done, posts[i].id);
        RemoveStep(start, done, posts[i].id);
        var removed := DeletePost(posts[i]);
        n := n + removed;
        done := done + {posts[i].id};
        i := i + 1;
      }
      assert posts[..i] == posts;
    }

    /**
     * `deletePostsNotInListExceptFavorites`: remove the rows that are neither
     * listed nor favourite (with an empty list, every non-favourite row);
     * returns how many were removed.
     */
    method DeletePostsNotInListExceptFavorites(keepIds: seq<int>) returns (n: nat)
      requires Valid()
      modifies this
      ensures Valid()
      ensures rows == KeepListedOrFavorite(old(rows), set id | id in keepIds)
      ensures n == |Evicted(old(rows), set id | id in keepIds)|
      ensures n == |old(rows)| - |rows|
    {
      var keep := set id | id in keepIds;
      var gone := Evicted(rows, keep);
      var kept := KeepListedOrFavorite(rows, keep);
      assert kept.Keys == rows.Keys - gone;
      SubsetCard(gone, rows.Keys);
      rows := kept;
      n := |gone|;
    }

    /** `toggleFavorite`: flip that row's flag; returns 1 if the row exists, else 0. */
    method ToggleFavorite(postId: int) returns (n: nat)
      requires Valid()
      modifies this
      ensures Valid()
      ensures rows == Toggled(old(rows), postId)
      ensures n == if postId in old(rows) then 1 else 0
    {
      n := if postId in rows then 1 else 0;
      rows := Toggled(rows, postId);
    }

    /** `setFavorite`: set that row's flag; returns 1 if the row exists, else 0. */
    method SetFavorite(postId: int, isFavorite: bool) returns (n: nat)
      requires Valid()
      modifies this
      ensures Valid()
      ensures rows == WithFavorite(old(rows), postId, isFavorite)
      ensures n == if postId in old(rows) then 1 else 0
    {
      n := if postId in rows then 1 else 0;
      rows := WithFavorite(rows, postId, isFavorite);
    }

    /** `deleteAllPosts`: empty the table; returns how many rows it held. */
    method DeleteAllPosts() returns (n: nat)
      requires Valid()
      modifies this
      ensures Valid()
      ensures rows == map[]
      ensures n == |old(rows)|
      ensures GetPostsCount(rows) == 0 && GetFavoritePostsCount(rows) == 0
    {
      n := |rows|;
      rows := map[];
      assert FavoriteIds(rows) == {};
    }

    /** `deletePostsByIds`: remove the rows with the listed keys; returns how many. */
    method DeletePostsByIds(postIds: seq<int>) returns (n: nat)
      requires Valid()
      modifies this
      ensures Valid()
      ensures rows == old(rows) - (set id | id in postIds)
      ensures n == |old(rows).Keys * (set id | id in postIds)|
    {
      var ids := set id | id in postIds;
      n := |rows.Keys * ids|;
      rows := rows - ids;
    }
  }
}

/**
 * `insertPosts` as Room runs it for Entity/PostEntity.kt, whose key is
 * `@PrimaryKey(autoGenerate = true)`: Room binds the key through
 * `nullif(?, 0)`, so a row with id 0 gets a fresh AUTOINCREMENT id (one
 * past the table's sequence value) instead of 0. `getPosts` gives the
 * article at index 0 the id 0, so that article is never stored under its
 * index. The rest of the model keeps ids as given (`InsertAll`), which is
 * what the mapping by index intends.
 */
module RoomAutoGenerate {
  import opened Wrappers
  import opened Models
  import opened PostStore
  import opened PostRepo

  /** The key SQLite stores a row under: a given id, or the next sequence value for 0. */
  function StoredId(id: int, sequence: int): (k: int)
    ensures id != 0 ==> k == id
    ensures id == 0 ==> k == sequence + 1
  {
    if id == 0 then sequence + 1 else id
  }

  /**
   * INSERT OR REPLACE of the rows in order, with the AUTOINCREMENT sequence
   * value (never below any key): the table and the new sequence value.
   */
  function RoomInsertAll(rows: Table, sequence: int, posts: seq<PostEntity>): (r: (Table, int))
    requires forall id :: id in rows ==> id <= sequence
    ensures sequence <= r.1
    ensures forall id :: id in r.0 ==> id <= r.1
    ensures rows.Keys <= r.0.Keys
    decreases |posts|
  {
    if posts == [] then (rows, sequence)
    else
      var before := RoomInsertAll(rows, sequence, posts[..|posts| - 1]);
      var p := posts[|posts| - 1];
      var id := StoredId(p.id, before.1);
      (before.0[id := p.(id := id)], if id > before.1 then id else before.1)
  }

  /** Without a zero id, Room's insert is the plain insert by key. */
  lemma {:induction false} RoomInsertWithoutZero(rows: Table, sequence: int, posts: seq<PostEntity>)
    requires forall id :: id in rows ==> id <= sequence
    requires forall i :: 0 <= i < |posts| ==> posts[i].id != 0
    ensures RoomInsertAll(rows, sequence, posts).0 == InsertAll(rows, posts)
    decreases |posts|
  {
    if posts != [] {
      var init := posts[..|posts| - 1];
      assert forall i :: 0 <= i < |init| ==> init[i] == posts[i];
      RoomInsertWithoutZero(rows, sequence, init);
      var p := posts[|posts| - 1];
      assert p.(id := p.id) == p;
    }
  }

  /**
   * The first refresh of an empty cache with two articles: the first
   * article's row gets id 1, and the second article, whose id is 1,
   * replaces it. The first article is lost; the plain insert keeps it at
   * id 0.
   */
  lemma FirstRefreshLosesArticleZero()
    ensures var articles := [Article("first", None, None), Article("second", None, None)];
            var es := ToEntities(articles, map[]);
            var t := RoomInsertAll(map[], 0, es).0;
            && t.Keys == {1}
            && t[1].title == "second"
            && (forall id :: id in t ==> t[id].title != "first")
            && 0 in InsertAll(map[], es) && InsertAll(map[], es)[0].title == "first"
  {
    var articles := [Article("first", None, None), Article("second", None, None)];
    var es := ToEntities(articles, map[]);
    assert es[0].id == 0 && es[1].id == 1 && es[0].title == "first" && es[1].title == "second";
    assert es[..1] == [es[0]] && es[..1][..0] == [];
    assert RoomInsertAll(map[], 0, es[..1][..0]) == (map[], 0);
    assert StoredId(es[..1][0].id, 0) == 1;
    var one := RoomInsertAll(map[], 0, es[..1]);
    assert one.0 == map[1 := es[0].(id := 1)] && one.1 == 1;
    assert RoomInsertAll(map[], 0, es).0 == map[1 := es[1]];
    InsertAllAt(map[], es, 0);
    LastWithIdDistinct(es, 0);
  }
}

/**
 * Model/Repository/Repositories/PostRepositories/PostRepository.kt: the
 * offline-first post feed. A refresh replaces the cached table with the
 * fetched articles while keeping every favourite.
 *
 * The connectivity check, the news API and store failures are inputs: the
 * caller says whether the network is up, what the API answered (a response
 * or an exception), and whether the first store call throws.
 */
module PostRepo {
  import opened Wrappers
  import opened Text
  import opened AppErrors
  import opened Models
  import opened PostStore

  /** An article of the news API's response. */
  datatype Article = Article(title: string, description: Option<string>, content: Option<string>)

  datatype NewsResponse = NewsResponse(status: string, articles: seq<Article>)

  /** What a failing call can throw, as `handleApiError` tells them apart. */
  datatype Failure =
    | UnknownHost
    | Connect
    | Http(code: int, message: Option<string>)
    | Other(message: Option<string>)

  /** What the API call did. */
  datatype ApiOutcome = Responded(response: NewsResponse) | Raised(failure: Failure)

  // ---------------------------------------------------------------------------
  // Pure parts

  /** `mapToPosts`: every row as a Post, in order, with every field kept. */
  function MapToPosts(es: seq<PostEntity>): (ps: seq<Post>)
    ensures |ps| == |es|
    ensures forall i :: 0 <= i < |es| ==>
      ps[i].id == es[i].id && ps[i].title == es[i].title && ps[i].body == es[i].body && ps[i].isFavorite == es[i].isFavorite
  {
    seq(|es|, i requires 0 <= i < |es| => Post(es[i].id, es[i].title, es[i].body, es[i].isFavorite))
  }

  function ToEntity(p: Post): PostEntity {
    PostEntity(p.id, p.title, p.body, p.isFavorite)
  }

  /** Mapping rows to posts loses nothing: mapping each post back gives the rows. */
  lemma MapToPostsRoundTrip(es: seq<PostEntity>)
    ensures forall i :: 0 <= i < |es| ==> ToEntity(MapToPosts(es)[i]) == es[i]
  {
  }

  /** `isPostFavorite`: the stored flag of that id, false when there is no such row. */
  function IsPostFavorite(rows: Table, postId: int): (b: bool)
    requires WellKeyed(rows)
    ensures b <==> postId in FavoriteIds(rows)
  {
    var row := GetPostById(rows, postId);
    if row.Some? then row.value.isFavorite else false
  }

  /** The body of a fetched article: its description, else its content, else empty. */
  function ArticleBody(a: Article): (body: string)
    ensures a.description.Some? ==> body == a.description.value
    ensures a.description.None? && a.content.Some? ==> body == a.content.value
    ensures a.description.None? && a.content.None? ==> body == ""
  {
    match a.description
    case Some(d) => d
    case None => a.content.GetOr("")
  }

  /** The rows a response becomes: the article at index i gets id i and the flag stored for id i. */
  function ToEntities(articles: seq<Article>, rows: Table): (es: seq<PostEntity>)
    requires WellKeyed(rows)
    ensures |es| == |articles|
    ensures forall i :: 0 <= i < |es| ==>
      && es[i].id == i
      && es[i].title == articles[i].title
      && es[i].body == ArticleBody(articles[i])
      && (es[i].isFavorite <==> i in FavoriteIds(rows))
  {
    seq(|articles|, i requires 0 <= i < |articles| =>
      PostEntity(i, articles[i].title, ArticleBody(articles[i]), IsPostFavorite(rows, i)))
  }

  /** The ids of the fetched rows are 0 up to the number of articles. */
  lemma ToEntitiesIds(articles: seq<Article>, rows: Table)
    requires WellKeyed(rows)
    ensures forall id :: id in IdSet(ToEntities(articles, rows)) <==> 0 <= id < |articles|
  {
    var es := ToEntities(articles, rows);
    forall i | 0 <= i < |articles| ensures i in IdSet(es) {
      assert es[i] in es;
    }
  }

  /** `handleApiError`: how a failure of `getPosts` becomes its result. */
  function HandleApiError(e: Failure, cached: seq<Post>): (r: Result<seq<Post>>)
    ensures r.Success? <==> e.UnknownHost? || e.Connect?
    ensures r.Success? ==> r.data == cached
    ensures e.Http? ==> r == Error(CustomError("HTTP_" + IntToString(e.code), "Server error occurred", e.message))
    ensures e.Other? ==> r == Error(CustomError("UNKNOWN_001", "An unexpected error occurred", e.message))
  {
    match e
    case UnknownHost => Success(cached)
    case Connect => Success(cached)
    case Http(code, message) => Error(CustomError("HTTP_" + IntToString(code), "Server error occurred", message))
    case Other(message) => Error(CustomError("UNKNOWN_001", "An unexpected error occurred", message))
  }

  /** HTTP failures with different status codes give errors with different codes. */
  lemma HttpCodesDistinct(c1: int, c2: int, m1: Option<string>, m2: Option<string>, cached: seq<Post>)
    requires c1 != c2
    ensures HandleApiError(Http(c1, m1), cached).error.Code() != HandleApiError(Http(c2, m2), cached).error.Code()
  {
    var a := "HTTP_" + IntToString(c1);
    var b := "HTTP_" + IntToString(c2);
    if a == b {
      assert a[5..] == IntToString(c1) && b[5..] == IntToString(c2);
      IntToStringInjective(c1, c2);
    }
  }

  // ---------------------------------------------------------------------------
  // The favourite-preserving merge

  /** The `setFavorite(id, true)` calls for each listed id in turn. */
  function MarkFavorites(t: Table, ids: seq<int>): (r: Table)
    ensures r.Keys == t.Keys
    ensures WellKeyed(t) ==> WellKeyed(r)
  {
    if ids == [] then t
    else WithFavorite(MarkFavorites(t, ids[..|ids| - 1]), ids[|ids| - 1], true)
  }

  /** A row after the marking loop: flagged if its id was listed, otherwise as it was. */
  lemma {:induction false} MarkFavoritesAt(t: Table, ids: seq<int>, id: int)
    requires id in t
    ensures MarkFavorites(t, ids)[id] == if id in ids then t[id].(isFavorite := true) else t[id]
  {
    if ids != [] {
      var init := ids[..|ids| - 1];
      MarkFavoritesAt(t, init, id);
      assert id in ids <==> id in init || id == ids[|ids| - 1] by {
        assert ids == init + [ids[|ids| - 1]];
      }
    }
  }

  lemma MarkFavoritesStep(t: Table, ids: seq<int>, i: int)
    requires 0 <= i < |ids|
    ensures MarkFavorites(t, ids[..i + 1]) == WithFavorite(MarkFavorites(t, ids[..i]), ids[i], true)
  {
    assert ids[..i + 1][..i] == ids[..i];
  }

  /**
   * `updateCacheWithFavoritePreservation`: read the favourite ids, delete the
   * rows neither listed nor favourite, insert the new rows with REPLACE, then
   * set the flag again on every id read first.
   */
  function Merge(rows: Table, newPosts: seq<PostEntity>): (r: Table)
    requires WellKeyed(rows)
    ensures WellKeyed(r)
  {
    var favoriteIds := Ids(GetFavoritePosts(rows));
    var kept := KeepListedOrFavorite(rows, set id | id in Ids(newPosts));
    MarkFavorites(InsertAll(kept, newPosts), favoriteIds)
  }

  /** The three steps of the merge, one after the other. */
  lemma MergeSteps(rows: Table, newPosts: seq<PostEntity>, favoriteIds: seq<int>, kept: Table, inserted: Table)
    requires WellKeyed(rows)
    requires favoriteIds == Ids(GetFavoritePosts(rows))
    requires kept == KeepListedOrFavorite(rows, set id | id in Ids(newPosts))
    requires inserted == InsertAll(kept, newPosts)
    ensures MarkFavorites(inserted, favoriteIds) == Merge(rows, newPosts)
  {
  }

  /** The ids listed by `getFavoritePosts` are exactly the favourite ids. */
  lemma FavoriteIdsListed(rows: Table)
    requires WellKeyed(rows)
    ensures forall id :: id in Ids(GetFavoritePosts(rows)) <==> id in FavoriteIds(rows)
  {
    var favs := GetFavoritePosts(rows);
    var ids := Ids(favs);
    forall id | id in FavoriteIds(rows) ensures id in ids {
      assert IsFavoriteRow(rows[id]);
      var i :| 0 <= i < |favs| && favs[i].id == id;
      assert ids[i] == id;
    }
    forall id | id in ids ensures id in FavoriteIds(rows) {
      var i :| 0 <= i < |ids| && ids[i] == id;
      assert IsFavoriteRow(favs[i]) && rows[favs[i].id] == favs[i];
    }
  }

  lemma IdsListed(ps: seq<PostEntity>)
    ensures (set id | id in Ids(ps)) == IdSet(ps)
  {
    var ids := Ids(ps);
    forall id | id in IdSet(ps) ensures id in ids {
      var i :| 0 <= i < |ps| && ps[i].id == id;
      assert ids[i] == id;
    }
  }

  /** After the merge the stored ids are the new ids plus the old favourite ids. */
  lemma MergeKeys(rows: Table, newPosts: seq<PostEntity>)
    requires WellKeyed(rows)
    ensures Merge(rows, newPosts).Keys == IdSet(newPosts) + FavoriteIds(rows)
  {
    IdsListed(newPosts);
    var kept := KeepListedOrFavorite(rows, IdSet(newPosts));
    assert kept.Keys + IdSet(newPosts) == IdSet(newPosts) + FavoriteIds(rows);
  }

  /** A new id holds the fetched title and body of its (last) row; it is a favourite if it was one or the row says so. */
  lemma MergeNewRow(rows: Table, newPosts: seq<PostEntity>, id: int)
    requires WellKeyed(rows)
    requires id in IdSet(newPosts)
    ensures id in Merge(rows, newPosts)
    ensures var row := Merge(rows, newPosts)[id];
            var fetched := LastWithId(newPosts, id);
            && row.title == fetched.title && row.body == fetched.body
            && (row.isFavorite <==> fetched.isFavorite || id in FavoriteIds(rows))
  {
    MergeKeys(rows, newPosts);
    IdsListed(newPosts);
    FavoriteIdsListed(rows);
    var kept := KeepListedOrFavorite(rows, IdSet(newPosts));
    var inserted := InsertAll(kept, newPosts);
    InsertAllAt(kept, newPosts, id);
    MarkFavoritesAt(inserted, Ids(GetFavoritePosts(rows)), id);
  }

  /** An old favourite that was not fetched again is kept exactly as it was. */
  lemma MergeOldFavorite(rows: Table, newPosts: seq<PostEntity>, id: int)
    requires WellKeyed(rows)
    requires id in FavoriteIds(rows) && id !in IdSet(newPosts)
    ensures id in Merge(rows, newPosts) && Merge(rows, newPosts)[id] == rows[id]
  {
    MergeKeys(rows, newPosts);
    IdsListed(newPosts);
    FavoriteIdsListed(rows);
    var kept := KeepListedOrFavorite(rows, IdSet(newPosts));
    var inserted := InsertAll(kept, newPosts);
    InsertAllAt(kept, newPosts, id);
    MarkFavoritesAt(inserted, Ids(GetFavoritePosts(rows)), id);
  }

  /**
   * When every fetched row flagged favourite carries an old favourite id, the
   * merge keeps the set of favourite ids exactly.
   */
  lemma MergeKeepsFavorites(rows: Table, newPosts: seq<PostEntity>)
    requires WellKeyed(rows)
    requires forall e :: e in newPosts && e.isFavorite ==> e.id in FavoriteIds(rows)
    ensures FavoriteIds(Merge(rows, newPosts)) == FavoriteIds(rows)
  {
    var m := Merge(rows, newPosts);
    MergeKeys(rows, newPosts);
    forall id | id in m ensures m[id].isFavorite <==> id in FavoriteIds(rows) {
      MergeFavoriteAt(rows, newPosts, id);
    }
    SameFavorites(m, rows);
  }

  /** Two tables have the same favourite ids when the flags of one follow the other's set. */
  lemma SameFavorites(m: Table, rows: Table)
    requires FavoriteIds(rows) <= m.Keys
    requires forall id :: id in m ==> (m[id].isFavorite <==> id in FavoriteIds(rows))
    ensures FavoriteIds(m) == FavoriteIds(rows)
  {
    forall id | id in FavoriteIds(rows) ensures id in FavoriteIds(m) {
      assert id in m;
    }
    forall id | id in FavoriteIds(m) ensures id in FavoriteIds(rows) {
      assert id in m && m[id].isFavorite;
    }
  }

  /** One stored id of the merge is a favourite exactly when it was one before. */
  lemma MergeFavoriteAt(rows: Table, newPosts: seq<PostEntity>, id: int)
    requires WellKeyed(rows)
    requires forall e :: e in newPosts && e.isFavorite ==> e.id in FavoriteIds(rows)
    requires id in Merge(rows, newPosts)
    ensures Merge(rows, newPosts)[id].isFavorite <==> id in FavoriteIds(rows)
  {
    if id in IdSet(newPosts) {
      MergeNewRow(rows, newPosts, id);
    } else {
      MergeKeys(rows, newPosts);
      MergeOldFavorite(rows, newPosts, id);
    }
  }

  // ---------------------------------------------------------------------------
  // What a successful refresh leaves in the table

  /** A refresh keeps exactly the favourite ids it started with. */
  lemma RefreshKeepsFavorites(rows: Table, articles: seq<Article>)
    requires WellKeyed(rows)
    ensures FavoriteIds(Merge(rows, ToEntities(articles, rows))) == FavoriteIds(rows)
  {
    var es := ToEntities(articles, rows);
    forall e | e in es && e.isFavorite ensures e.id in FavoriteIds(rows) {
      var i :| 0 <= i < |es| && es[i] == e;
    }
    MergeKeepsFavorites(rows, es);
  }

  /** After a refresh the stored ids are the article indices plus the old favourite ids. */
  lemma RefreshStoredIds(rows: Table, articles: seq<Article>)
    requires WellKeyed(rows)
    ensures forall id :: id in Merge(rows, ToEntities(articles, rows)) <==> 0 <= id < |articles| || id in FavoriteIds(rows)
  {
    ToEntitiesIds(articles, rows);
    MergeKeys(rows, ToEntities(articles, rows));
  }

  /** After a refresh the row with id i holds the title and body of article i. */
  lemma RefreshRow(rows: Table, articles: seq<Article>, i: int)
    requires WellKeyed(rows)
    requires 0 <= i < |articles|
    ensures var m := Merge(rows, ToEntities(articles, rows));
            i in m && m[i].title == articles[i].title && m[i].body == ArticleBody(articles[i])
  {
    var es := ToEntities(articles, rows);
    LastWithIdDistinct(es, i);
    MergeNewRow(rows, es, i);
  }

  /** A refresh drops every non-favourite row whose id is not an article index. */
  lemma RefreshEvicts(rows: Table, articles: seq<Article>, id: int)
    requires WellKeyed(rows)
    requires id in rows && !rows[id].isFavorite && !(0 <= id < |articles|)
    ensures id !in Merge(rows, ToEntities(articles, rows))
  {
    RefreshStoredIds(rows, articles);
  }

  // ---------------------------------------------------------------------------
  // What the repository operations return and leave in the table

  /** `getCachedPosts`: `getAllPosts` mapped to posts. */
  function CachedPosts(rows: Table): (ps: seq<Post>)
    requires WellKeyed(rows)
    ensures |ps| == |rows|
  {
    MapToPosts(GetAllPosts(rows))
  }

  /** The cached posts are the whole table, one post per row, in ascending id order. */
  lemma CachedPostsAreTable(rows: Table)
    requires WellKeyed(rows)
    ensures var ps := CachedPosts(rows);
            && (forall i, j :: 0 <= i < j < |ps| ==> ps[i].id < ps[j].id)
            && (forall i :: 0 <= i < |ps| ==> ps[i].id in rows && ToEntity(ps[i]) == rows[ps[i].id])
            && (forall id :: id in rows ==> exists i :: 0 <= i < |ps| && ps[i].id == id)
  {
    PostsOfAnswer(GetAllPosts(rows), rows);
  }

  lemma PostsOfAnswer(all: seq<PostEntity>, rows: Table)
    requires Selects(all, rows, AnyRow)
    ensures var ps := MapToPosts(all);
            && (forall i, j :: 0 <= i < j < |ps| ==> ps[i].id < ps[j].id)
            && (forall i :: 0 <= i < |ps| ==> ps[i].id in rows && ToEntity(ps[i]) == rows[ps[i].id])
            && (forall id :: id in rows ==> exists i :: 0 <= i < |ps| && ps[i].id == id)
  {
    var ps := MapToPosts(all);
    forall id | id in rows ensures exists i :: 0 <= i < |ps| && ps[i].id == id {
      assert AnyRow(rows[id]);
      var i :| 0 <= i < |all| && all[i].id == id;
      assert ps[i].id == id;
    }
  }

  /** Whether `getPosts` reaches the merge: the store answers, the network is up, the API says "ok". */
  predicate Refreshes(networkAvailable: bool, api: ApiOutcome, store: StoreCall) {
    store.Completes? && networkAvailable && api.Responded? && api.response.status == "ok"
  }

  /** The table after `getPosts`: merged with the fetched articles on a refresh, otherwise untouched. */
  function GetPostsTable(rows: Table, networkAvailable: bool, api: ApiOutcome, store: StoreCall): (t: Table)
    requires WellKeyed(rows)
    ensures WellKeyed(t)
  {
    if Refreshes(networkAvailable, api, store) then Merge(rows, ToEntities(api.response.articles, rows)) else rows
  }

  /** The result of `getPosts`. */
  function GetPostsOutcome(rows: Table, networkAvailable: bool, api: ApiOutcome, store: StoreCall): Result<seq<Post>>
    requires WellKeyed(rows)
  {
    if store.Throws? then HandleApiError(Other(store.message), [])
    else if !networkAvailable then Success(CachedPosts(rows))
    else
      match api
      case Raised(failure) => HandleApiError(failure, CachedPosts(rows))
      case Responded(response) =>
        if response.status == "ok" then Success(CachedPosts(GetPostsTable(rows, networkAvailable, api, store)))
        else Error(CustomError("API_001", "Failed to fetch posts"))
  }

  /**
   * Every path of `getPosts` but the refresh leaves the table alone: offline
   * it serves the cache, a non-"ok" status is API_001, a failing call goes
   * through `handleApiError` with the cache, a failing store read is
   * UNKNOWN_001.
   */
  lemma GetPostsWithoutRefresh(rows: Table, networkAvailable: bool, api: ApiOutcome, store: StoreCall)
    requires WellKeyed(rows)
    requires !Refreshes(networkAvailable, api, store)
    ensures GetPostsTable(rows, networkAvailable, api, store) == rows
    ensures store.Completes? && !networkAvailable ==>
      GetPostsOutcome(rows, networkAvailable, api, store) == Success(CachedPosts(rows))
    ensures store.Completes? && networkAvailable && api.Responded? ==>
      GetPostsOutcome(rows, networkAvailable, api, store) == Error(CustomError("API_001", "Failed to fetch posts"))
    ensures store.Completes? && networkAvailable && api.Raised? ==>
      GetPostsOutcome(rows, networkAvailable, api, store) == HandleApiError(api.failure, CachedPosts(rows))
    ensures store.Throws? ==>
      GetPostsOutcome(rows, networkAvailable, api, store).error.Code() == "UNKNOWN_001"
  {
  }

  /** A refresh answers with every stored post of the merged table, in id order. */
  lemma GetPostsRefreshAnswers(rows: Table, networkAvailable: bool, api: ApiOutcome, store: StoreCall)
    requires WellKeyed(rows)
    requires Refreshes(networkAvailable, api, store)
    ensures var t := GetPostsTable(rows, networkAvailable, api, store);
            && t == Merge(rows, ToEntities(api.response.articles, rows))
            && GetPostsOutcome(rows, networkAvailable, api, store) == Success(CachedPosts(t))
  {
  }

  /** Whatever the network, the API and the store do, `getPosts` keeps the set of favourite ids. */
  lemma GetPostsKeepsFavorites(rows: Table, networkAvailable: bool, api: ApiOutcome, store: StoreCall)
    requires WellKeyed(rows)
    ensures FavoriteIds(GetPostsTable(rows, networkAvailable, api, store)) == FavoriteIds(rows)
  {
    if Refreshes(networkAvailable, api, store) {
      RefreshKeepsFavorites(rows, api.response.articles);
    }
  }

  /** `getPosts` only ever answers Success or Error, never Idle or Loading. */
  lemma GetPostsSettles(rows: Table, networkAvailable: bool, api: ApiOutcome, store: StoreCall)
    requires WellKeyed(rows)
    ensures GetPostsOutcome(rows, networkAvailable, api, store).Success? || GetPostsOutcome(rows, networkAvailable, api, store).Error?
  {
  }

  /** The result of the repository's `toggleFavorite`. */
  function ToggleOutcome(rows: Table, postId: int, store: StoreCall): (r: Result<()>)
    ensures r.Success? <==> store.Completes? && postId in rows
    ensures store.Throws? ==> r == Error(DatabaseConnectionError)
    ensures store.Completes? && postId !in rows ==> r == Error(CustomError("DB_003", "Failed to update favorite status"))
  {
    if store.Throws? then Error(DatabaseConnectionError)
    else if postId in rows then Success(())
    else Error(CustomError("DB_003", "Failed to update favorite status"))
  }

  /** The table after the repository's `toggleFavorite`. */
  function ToggleTable(rows: Table, postId: int, store: StoreCall): Table {
    if store.Throws? then rows else Toggled(rows, postId)
  }

  /**
   * A successful toggle flips exactly one favourite id in or out of the set;
   * two successful toggles of the same post restore the table.
   */
  lemma ToggleFlipsFavorite(rows: Table, postId: int)
    requires postId in rows
    ensures FavoriteIds(ToggleTable(rows, postId, Completes)) ==
      if postId in FavoriteIds(rows) then FavoriteIds(rows) - {postId} else FavoriteIds(rows) + {postId}
    ensures ToggleTable(ToggleTable(rows, postId, Completes), postId, Completes) == rows
  {
    ToggleTwice(rows, postId);
    var t := Toggled(rows, postId);
    assert forall id :: id in t ==> (t[id].isFavorite <==> if id == postId then !rows[id].isFavorite else rows[id].isFavorite);
  }

  // ---------------------------------------------------------------------------
  // The repository

  /** PostRepository over one posts table. */
  class PostRepository {
    const dao: PostDao

    ghost predicate Valid()
      reads this, dao
    {
      dao.Valid()
    }

    constructor (dao: PostDao)
      requires dao.Valid()
      ensures this.dao == dao && Valid()
    {
      this.dao := dao;
    }

    /** `getCachedPosts`. */
    method GetCachedPosts() returns (ps: seq<Post>)
      requires Valid()
      ensures ps == CachedPosts(dao.rows)
    {
      ps := CachedPosts(dao.rows);
    }

    /** `updateCacheWithFavoritePreservation`, statement by statement. */
    method UpdateCacheWithFavoritePreservation(newPosts: seq<PostEntity>)
      requires Valid()
      modifies dao
      ensures Valid()
      ensures dao.rows == Merge(old(dao.rows), newPosts)
    {
      ghost var before := dao.rows;
      var favoriteIds := Ids(PostStore.GetFavoritePosts(dao.rows));
      var _ := dao.DeletePostsNotInListExceptFavorites(Ids(newPosts));
      ghost var kept := dao.rows;
      var _ := dao.InsertPosts(newPosts);
      ghost var inserted := dao.rows;
      MergeSteps(before, newPosts, favoriteIds, kept, inserted);
      SetFavorites(favoriteIds);
    }

    /** The closing `forEach` of `updateCacheWithFavoritePreservation`: flag every listed id. */
    method SetFavorites(favoriteIds: seq<int>)
      requires Valid()
      modifies dao
      ensures Valid()
      ensures dao.rows == MarkFavorites(old(dao.rows), favoriteIds)
    {
      ghost var start := dao.rows;
      var i := 0;
      while i < |favoriteIds|
        invariant 0 <= i <= |favoriteIds|
        invariant dao.Valid()
        invariant dao.rows == MarkFavorites(start, favoriteIds[..i])
      {
        var _ := dao.SetFavorite(favoriteIds[i], true);
        MarkFavoritesStep(start, favoriteIds, i);
        i := i + 1;
      }
      assert favoriteIds[..i] == favoriteIds;
    }

    /**
     * `getPosts`. A throwing first store read becomes UNKNOWN_001. Offline:
     * the cached posts. A failing API call: `handleApiError`. A status other
     * than "ok": API_001. Otherwise the fetched articles are merged and the
     * whole table is returned in id order.
     */
    method GetPosts(networkAvailable: bool, api: ApiOutcome, store: StoreCall) returns (r: Result<seq<Post>>)
      requires Valid()
      modifies dao
      ensures Valid()
      ensures r == GetPostsOutcome(old(dao.rows), networkAvailable, api, store)
      ensures dao.rows == GetPostsTable(old(dao.rows), networkAvailable, api, store)
    {
      if store.Throws? {
        return HandleApiError(Other(store.message), []);
      }
      var cachedPosts := GetCachedPosts();
      if !networkAvailable {
        return Success(cachedPosts);
      }
      match api
      case Raised(failure) =>
        r := HandleApiError(failure, cachedPosts);
      case Responded(response) =>
        if response.status == "ok" {
          var postEntities := ToEntities(response.articles, dao.rows);
          UpdateCacheWithFavoritePreservation(postEntities);
          var posts := GetCachedPosts();
          r := Success(posts);
        } else {
          r := Error(CustomError("API_001", "Failed to fetch posts"));
        }
    }

    /** `getFavoritePosts`: the favourite posts in id order, or DatabaseConnectionError. */
    method GetFavoritePosts(store: StoreCall) returns (r: Result<seq<Post>>)
      requires Valid()
      ensures store.Throws? <==> r == Error(DatabaseConnectionError)
      ensures store.Completes? ==> r == Success(MapToPosts(PostStore.GetFavoritePosts(dao.rows)))
    {
      if store.Throws? {
        return Error(DatabaseConnectionError);
      }
      r := Success(MapToPosts(PostStore.GetFavoritePosts(dao.rows)));
    }

    /** `toggleFavorite`: flip the flag; DB_003 if no row has that id; DatabaseConnectionError if the store throws. */
    method ToggleFavorite(postId: int, store: StoreCall) returns (r: Result<()>)
      requires Valid()
      modifies dao
      ensures Valid()
      ensures r == ToggleOutcome(old(dao.rows), postId, store)
      ensures dao.rows == ToggleTable(old(dao.rows), postId, store)
    {
      if store.Throws? {
        return Error(DatabaseConnectionError);
      }
      var rowsAffected := dao.ToggleFavorite(postId);
      if rowsAffected > 0 {
        r := Success(());
      } else {
        r := Error(CustomError("DB_003", "Failed to update favorite status"));
      }
    }

    /** `searchPosts`: the matching posts in id order, or DatabaseConnectionError. */
    method SearchPosts(query: string, store: StoreCall) returns (r: Result<seq<Post>>)
      requires Valid()
      ensures store.Throws? <==> r == Error(DatabaseConnectionError)
      ensures store.Completes? ==> r == Success(MapToPosts(PostStore.SearchPosts(dao.rows, query)))
    {
      if store.Throws? {
        return Error(DatabaseConnectionError);
      }
      r := Success(MapToPosts(PostStore.SearchPosts(dao.rows, query)));
    }
  }
}

/**
 * ViewModel/PostViewModel.kt: the feed, favourites and search screens. Each
 * method runs its coroutine to completion. Every repository call gets its
 * outside world as an argument: the network, the API and the store for
 * `getPosts` (a `FeedCall`), the store alone for the others. The ghost
 * histories record every value each state takes.
 */
module PostVM {
  import opened Wrappers
  import opened AppErrors
  import opened Models
  import opened PostStore
  import opened PostRepo

  /** What one `getPosts` call finds: the connectivity check, the API's answer, the store. */
  datatype FeedCall = FeedCall(networkAvailable: bool, api: ApiOutcome, store: StoreCall)

  /** What `getPosts` answers for a table and a feed call. */
  function FeedResult(rows: Table, feed: FeedCall): (r: Result<seq<Post>>)
    requires WellKeyed(rows)
    ensures r.Success? || r.Error?
  {
    GetPostsSettles(rows, feed.networkAvailable, feed.api, feed.store);
    GetPostsOutcome(rows, feed.networkAvailable, feed.api, feed.store)
  }

  /** The table after `getPosts`. */
  function FeedTable(rows: Table, feed: FeedCall): (t: Table)
    requires WellKeyed(rows)
    ensures WellKeyed(t)
  {
    GetPostsTable(rows, feed.networkAvailable, feed.api, feed.store)
  }

  /** What the repository's `getFavoritePosts` answers. */
  function FavoritesResult(rows: Table, store: StoreCall): (r: Result<seq<Post>>)
    requires WellKeyed(rows)
    ensures r.Success? <==> store.Completes?
    ensures r.Error? ==> r.error == DatabaseConnectionError
  {
    if store.Throws? then Error(DatabaseConnectionError) else Success(MapToPosts(PostStore.GetFavoritePosts(rows)))
  }

  /** What the repository's `searchPosts` answers. */
  function SearchResult(rows: Table, query: string, store: StoreCall): (r: Result<seq<Post>>)
    requires WellKeyed(rows)
    ensures r.Success? <==> store.Completes?
    ensures r.Error? ==> r.error == DatabaseConnectionError
  {
    if store.Throws? then Error(DatabaseConnectionError) else Success(MapToPosts(PostStore.SearchPosts(rows, query)))
  }

  /** `hasPosts` / `hasFavorites` on one state: a Success with at least one post. */
  predicate HasData(r: Result<seq<Post>>) {
    r.Success? && |r.data| > 0
  }

  /** `getErrorMessage`: the user message of an Error, null otherwise. */
  function GetErrorMessage<T>(result: Result<T>): (m: Option<string>)
    ensures m.Some? <==> result.Error?
    ensures result.Error? ==> m == Some(result.error.UserMessage())
  {
    if result.Error? then Some(result.error.UserMessage()) else None
  }

  /** A toggle keeps the table well keyed: only a flag changes. */
  lemma ToggleTableWellKeyed(rows: Table, postId: int, store: StoreCall)
    requires WellKeyed(rows)
    ensures WellKeyed(ToggleTable(rows, postId, store))
  {
  }

  /** PostViewModel over one repository. */
  class PostViewModel {
    const repo: PostRepository
    var postsState: Result<seq<Post>>
    var favoritePostsState: Result<seq<Post>>
    var searchState: Result<seq<Post>>
    var isLoading: bool
    ghost var postsStates: seq<Result<seq<Post>>>
    ghost var favoriteStates: seq<Result<seq<Post>>>
    ghost var searchStates: seq<Result<seq<Post>>>
    ghost var loadingStates: seq<bool>

    /** The repository is consistent, and each history ends in its state's current value. */
    ghost predicate Valid()
      reads this, repo, repo.dao
    {
      && repo.Valid()
      && |postsStates| > 0 && postsStates[|postsStates| - 1] == postsState
      && |favoriteStates| > 0 && favoriteStates[|favoriteStates| - 1] == favoritePostsState
      && |searchStates| > 0 && searchStates[|searchStates| - 1] == searchState
      && |loadingStates| > 0 && loadingStates[|loadingStates| - 1] == isLoading
    }

    /** The `init` block: load the posts, then the favourites. */
    constructor (repo: PostRepository, feed: FeedCall, favoritesStore: StoreCall)
      requires repo.Valid()
      modifies repo.dao
      ensures Valid() && this.repo == repo
      ensures repo.dao.rows == FeedTable(old(repo.dao.rows), feed)
      ensures postsState == FeedResult(old(repo.dao.rows), feed)
      ensures favoritePostsState == FavoritesResult(repo.dao.rows, favoritesStore)
      ensures searchState == Idle && !isLoading
      ensures postsStates == [Idle, Loading, postsState]
      ensures favoriteStates == [Idle, Loading, favoritePostsState]
      ensures loadingStates == [false, true, false]
    {
      this.repo := repo;
      postsState := Idle;
      favoritePostsState := Idle;
      searchState := Idle;
      isLoading := false;
      postsStates := [Idle];
      favoriteStates := [Idle];
      searchStates := [Idle];
      loadingStates := [false];
      new;
      LoadPosts(feed);
      LoadFavoritePosts(favoritesStore);
    }

    /** `loadPosts`: loading on, Loading, the repository's answer, loading off. */
    method LoadPosts(feed: FeedCall)
      requires Valid()
      modifies this, repo.dao
      ensures Valid()
      ensures repo.dao.rows == FeedTable(old(repo.dao.rows), feed)
      ensures postsState == FeedResult(old(repo.dao.rows), feed)
      ensures postsStates == old(postsStates) + [Loading, postsState]
      ensures !isLoading && loadingStates == old(loadingStates) + [true, false]
      ensures favoritePostsState == old(favoritePostsState) && favoriteStates == old(favoriteStates)
      ensures searchState == old(searchState) && searchStates == old(searchStates)
    {
      isLoading := true;
      loadingStates := loadingStates + [isLoading];
      postsState := Loading;
      postsStates := postsStates + [postsState];
      ghost var rows := repo.dao.rows;
      var result := repo.GetPosts(feed.networkAvailable, feed.api, feed.store);
      assert result == FeedResult(rows, feed);
      if result.Success? || result.Error? {
        // `Success(result.data)` and `Error(result.error)` rebuild `result` itself.
        postsState := result;
        postsStates := postsStates + [postsState];
      }
      isLoading := false;
      loadingStates := loadingStates + [isLoading];
    }

    /** `loadFavoritePosts`: Loading, then the repository's answer. */
    method LoadFavoritePosts(store: StoreCall)
      requires Valid()
      modifies this
      ensures Valid()
      ensures favoritePostsState == FavoritesResult(repo.dao.rows, store)
      ensures favoriteStates == old(favoriteStates) + [Loading, favoritePostsState]
      ensures postsState == old(postsState) && postsStates == old(postsStates)
      ensures searchState == old(searchState) && searchStates == old(searchStates)
      ensures isLoading == old(isLoading) && loadingStates == old(loadingStates)
    {
      favoritePostsState := Loading;
      favoriteStates := favoriteStates + [favoritePostsState];
      var result := repo.GetFavoritePosts(store);
      match result
      case Success(data) =>
        favoritePostsState := Success(data);
        favoriteStates := favoriteStates + [favoritePostsState];
      case Error(error) =>
        favoritePostsState := Error(error);
        favoriteStates := favoriteStates + [favoritePostsState];
    }

    /**
     * `toggleFavorite`: on success reload the posts and then the favourites;
     * on failure show the error in the posts state.
     */
    method ToggleFavorite(postId: int, toggleStore: StoreCall, feed: FeedCall, favoritesStore: StoreCall)
      requires Valid()
      modifies this, repo.dao
      ensures Valid()
      ensures ToggleOutcome(old(repo.dao.rows), postId, toggleStore).Error? ==>
        && repo.dao.rows == old(repo.dao.rows)
        && postsState == Error(ToggleOutcome(old(repo.dao.rows), postId, toggleStore).error)
        && postsStates == old(postsStates) + [postsState]
        && favoritePostsState == old(favoritePostsState) && favoriteStates == old(favoriteStates)
        && isLoading == old(isLoading) && loadingStates == old(loadingStates)
      ensures ToggleOutcome(old(repo.dao.rows), postId, toggleStore).Success? ==>
        var toggled := Toggled(old(repo.dao.rows), postId);
        && repo.dao.rows == FeedTable(toggled, feed)
        && postsState == FeedResult(toggled, feed)
        && postsStates == old(postsStates) + [Loading, postsState]
        && favoritePostsState == FavoritesResult(repo.dao.rows, favoritesStore)
        && favoriteStates == old(favoriteStates) + [Loading, favoritePostsState]
        && !isLoading && loadingStates == old(loadingStates) + [true, false]
      ensures searchState == old(searchState) && searchStates == old(searchStates)
    {
      var result := repo.ToggleFavorite(postId, toggleStore);
      match result
      case Success(_) =>
        LoadPosts(feed);
        LoadFavoritePosts(favoritesStore);
      case Error(error) =>
        postsState := Error(error);
        postsStates := postsStates + [postsState];
    }

    /** `searchPosts`: Loading, then the repository's answer. */
    method SearchPosts(query: string, store: StoreCall)
      requires Valid()
      modifies this
      ensures Valid()
      ensures searchState == SearchResult(repo.dao.rows, query, store)
      ensures searchStates == old(searchStates) + [Loading, searchState]
      ensures postsState == old(postsState) && postsStates == old(postsStates)
      ensures favoritePostsState == old(favoritePostsState) && favoriteStates == old(favoriteStates)
      ensures isLoading == old(isLoading) && loadingStates == old(loadingStates)
    {
      searchState := Loading;
      searchStates := searchStates + [searchState];
      var result := repo.SearchPosts(query, store);
      match result
      case Success(data) =>
        searchState := Success(data);
        searchStates := searchStates + [searchState];
      case Error(error) =>
        searchState := Error(error);
        searchStates := searchStates + [searchState];
    }

    /** `clearSearch`: the search state goes back to Idle. */
    method ClearSearch()
      requires Valid()
      modifies this
      ensures Valid()
      ensures searchState == Idle && searchStates == old(searchStates) + [Idle]
      ensures postsState == old(postsState) && postsStates == old(postsStates)
      ensures favoritePostsState == old(favoritePostsState) && favoriteStates == old(favoriteStates)
      ensures isLoading == old(isLoading) && loadingStates == old(loadingStates)
    {
      searchState := Idle;
      searchStates := searchStates + [searchState];
    }

    /** `refreshAllData`: reload the posts, then the favourites, then clear the search. */
    method RefreshAllData(feed: FeedCall, favoritesStore: StoreCall)
      requires Valid()
      modifies this, repo.dao
      ensures Valid()
      ensures repo.dao.rows == FeedTable(old(repo.dao.rows), feed)
      ensures postsState == FeedResult(old(repo.dao.rows), feed)
      ensures postsStates == old(postsStates) + [Loading, postsState]
      ensures favoritePostsState == FavoritesResult(repo.dao.rows, favoritesStore)
      ensures favoriteStates == old(favoriteStates) + [Loading, favoritePostsState]
      ensures searchState == Idle && searchStates == old(searchStates) + [Idle]
      ensures !isLoading && loadingStates == old(loadingStates) + [true, false]
    {
      LoadPosts(feed);
      LoadFavoritePosts(favoritesStore);
      ClearSearch();
    }

    /** `hasPosts`. */
    function HasPosts(): (b: bool)
      reads this
      ensures b <==> HasData(postsState)
    {
      postsState.Success? && |postsState.data| > 0
    }

    /** `hasFavorites`. */
    function HasFavorites(): (b: bool)
      reads this
      ensures b <==> HasData(favoritePostsState)
    {
      favoritePostsState.Success? && |favoritePostsState.data| > 0
    }
  }

  /**
   * The favourites screen lists exactly the favourite rows, each once, in
   * ascending id order, every one marked favourite.
   */
  lemma FavoritesAreTheFavoriteRows(rows: Table)
    requires WellKeyed(rows)
    ensures FavoritesResult(rows, Completes).Success?
    ensures var ps := FavoritesResult(rows, Completes).data;
            && (forall i :: 0 <= i < |ps| ==> ps[i].isFavorite && ps[i].id in FavoriteIds(rows))
            && (forall id :: id in FavoriteIds(rows) ==> exists i :: 0 <= i < |ps| && ps[i].id == id)
            && (forall i, j :: 0 <= i < j < |ps| ==> ps[i].id < ps[j].id)
  {
    var es := PostStore.GetFavoritePosts(rows);
    var ps := MapToPosts(es);
    forall id | id in FavoriteIds(rows) ensures exists i :: 0 <= i < |ps| && ps[i].id == id {
      assert IsFavoriteRow(rows[id]);
      var i :| 0 <= i < |es| && es[i].id == id;
      assert ps[i].id == id;
    }
  }

  /** `hasFavorites` after a load holds exactly when some row is a favourite; never after a store failure. */
  lemma HasFavoritesIffFavoriteRow(rows: Table, message: Option<string>)
    requires WellKeyed(rows)
    ensures HasData(FavoritesResult(rows, Completes)) <==> FavoriteIds(rows) != {}
    ensures !HasData(FavoritesResult(rows, Throws(message)))
  {
    FavoritesAreTheFavoriteRows(rows);
    var ps := FavoritesResult(rows, Completes).data;
    if FavoriteIds(rows) != {} {
      var id :| id in FavoriteIds(rows);
      var i :| 0 <= i < |ps| && ps[i].id == id;
    }
    if |ps| > 0 {
      assert ps[0].id in FavoriteIds(rows);
    }
  }

  /**
   * Offline, with the store answering, the feed shows the cache: `hasPosts`
   * holds exactly when the table has a row. A failing store shows nothing.
   */
  lemma HasPostsOffline(rows: Table, api: ApiOutcome, message: Option<string>)
    requires WellKeyed(rows)
    ensures HasData(FeedResult(rows, FeedCall(false, api, Completes))) <==> |rows| > 0
    ensures !HasData(FeedResult(rows, FeedCall(false, api, Throws(message))))
    ensures FeedResult(rows, FeedCall(false, api, Completes)) == Success(CachedPosts(rows))
  {
    GetPostsWithoutRefresh(rows, false, api, Completes);
    GetPostsWithoutRefresh(rows, false, api, Throws(message));
  }

  /**
   * After a successful toggle and the reload it triggers, the favourite ids
   * are the old ones with that post flipped, whatever the reload's network,
   * API and store do.
   */
  lemma ToggleThenReloadFlipsOneFavorite(rows: Table, postId: int, feed: FeedCall)
    requires WellKeyed(rows)
    requires ToggleOutcome(rows, postId, Completes).Success?
    ensures var t := ToggleTable(rows, postId, Completes);
            WellKeyed(t) &&
            FavoriteIds(FeedTable(t, feed)) ==
              if postId in FavoriteIds(rows) then FavoriteIds(rows) - {postId} else FavoriteIds(rows) + {postId}
  {
    var t := ToggleTable(rows, postId, Completes);
    ToggleTableWellKeyed(rows, postId, Completes);
    ToggleFlipsFavorite(rows, postId);
    GetPostsKeepsFavorites(t, feed.networkAvailable, feed.api, feed.store);
  }

  /** A store failure anywhere in the screen reads "Database error. Please try again.". */
  lemma StoreFailureMessage(rows: Table, query: string, message: Option<string>)
    requires WellKeyed(rows)
    ensures GetErrorMessage(FavoritesResult(rows, Throws(message))) == Some("Database error. Please try again.")
    ensures GetErrorMessage(SearchResult(rows, query, Throws(message))) == Some("Database error. Please try again.")
    ensures GetErrorMessage(FavoritesResult(rows, Completes)) == None
  {
  }
}

# Postly core in Dafny

Postly is an Android app. It combines an offline-first news feed with local
accounts. This project models its core:

- **Posts table and users table.** These are the Room tables (`posts` and
  `users`) and their DAOs. Each table is a map from primary key to row.
  - Every SELECT or COUNT query is a pure function of the table.
  - Every INSERT, UPDATE or DELETE is a method of the class that owns the table.
- **Post repository.**
  - The feed refresh merges the fetched articles into the cache and keeps
    every favourite.
  - Toggling a favourite and searching are also covered.
  - The mapping from failures to user-facing errors is modelled.
- **User repository.** Login and registration against the users table.
- **Error catalogue and validation.** The catalogue of `AppError` codes and
  messages, and the validation utilities: the email pattern, the password
  rules, the strength score and the requirements map.
- **View models.** The login, registration and post screens. Each one is a
  class whose fields are the screen's state flows.
  - Each method runs its coroutine to completion.
  - A ghost history records every value a state takes, so an intermediate
    `Loading` is visible.

**Inputs from the outside world.** Whatever the code asks of it becomes a
parameter:

- `networkAvailable`: the connectivity check.
- `ApiOutcome`: the news API's answer, or what it threw.
- `StoreCall`: whether the first database call of an operation completes or
  throws.
- `now`: the clock.

**Modules.** There is one module per source file:

| Module | Source |
|---|---|
| `AppErrors` | `AppError.kt` |
| `Validation` | `ValidationUtils.kt` |
| `Models` | the data classes and entities |
| `PostStore` | `PostDao.kt` |
| `PostRepo` | `PostRepository.kt` |
| `UserStore` | `UserDao.kt` |
| `UserRepo` | `UserRepository.kt` |
| `LoginVM` | `LoginViewModel.kt` |
| `RegisterVM` | `RegisterViewModel.kt` |
| `PostVM` | `PostViewModel.kt` |

Three supporting modules:

- `Text`: the Kotlin string operations the code relies on.
- `Tables`: the ascending key order of a table scan.
- `RoomAutoGenerate`: how Room stores a post whose id is 0 (see Findings).

## Model

| member | source | states |
|---|---|---|
| AppErrors.FromCode | app/src/main/java/com/example/postly/Utils/AppError.kt:76-89 | a listed code gives the named error with that code; every other code gives UnknownError; the result is always a named error |
| AppErrors.NamedErrorsComplete | app/src/main/java/com/example/postly/Utils/AppError.kt:9-67 | the catalogue lists exactly the ten named errors |
| AppErrors.NamedCodesDistinct | app/src/main/java/com/example/postly/Utils/AppError.kt:9-67 | different named errors have different codes |
| AppErrors.FromCodeRoundTrip | app/src/main/java/com/example/postly/Utils/AppError.kt:76-89 | `fromCode(e.code) == e` for every named error, UnknownError included |
| AppErrors.FromCodeIdempotent | app/src/main/java/com/example/postly/Utils/AppError.kt:76-89 | looking up the code of a looked-up error gives the same error |
| AppErrors.CustomErrorFields | app/src/main/java/com/example/postly/Utils/AppError.kt:69-73 | a CustomError returns the code and messages it was built with; the debug message defaults to null |
| Validation.IsValidEmail | app/src/main/java/com/example/postly/Utils/ValidationUtils.kt:9-11 | (predicate) the whole string matches Android's EMAIL_ADDRESS pattern; see LocalRun, LabelRun, ValidEmailNotBlank |
| Validation.LocalRun | app/src/main/java/com/example/postly/Utils/ValidationUtils.kt:9-11 | the longest prefix of local-part characters: every character before it qualifies, the one after does not |
| Validation.LabelRun | app/src/main/java/com/example/postly/Utils/ValidationUtils.kt:9-11 | the same for domain-label characters |
| Validation.ValidEmailNotBlank | app/src/main/java/com/example/postly/Utils/ValidationUtils.kt:9-11 | an address the pattern accepts is not blank |
| Validation.SampleEmailAccepted | app/src/main/java/com/example/postly/Utils/ValidationUtils.kt:9-11 | "a@b.com" is accepted |
| Validation.ValidateEmail | app/src/main/java/com/example/postly/Utils/ValidationUtils.kt:14-26 | valid iff the pattern matches; a blank email is EmptyFields, any other reject is InvalidEmailFormat |
| Validation.ValidatePassword | app/src/main/java/com/example/postly/Utils/ValidationUtils.kt:28-68 | valid iff at least 8 characters with an uppercase and a lowercase letter; the VAL_009 "too weak" error is never returned; a valid password is never WEAK. Each failing check gives its own error: a blank password gives EmptyFields, a short one VAL_004 with its length, one without an uppercase letter VAL_010, one without a lowercase letter VAL_011, each with the source's user, debug and field messages |
| Validation.StrongEnoughAfterBasicChecks | app/src/main/java/com/example/postly/Utils/ValidationUtils.kt:58-65 | length plus an uppercase and a lowercase letter already score at least 3, so the strength is MEDIUM or STRONG |
| Validation.ValidateConfirmPassword | app/src/main/java/com/example/postly/Utils/ValidationUtils.kt:70-82 | valid iff not blank and equal to the password; otherwise EmptyFields for a blank confirmation, PasswordMismatch for any other |
| Validation.ValidateRegistration | app/src/main/java/com/example/postly/Utils/ValidationUtils.kt:84-99 | valid iff all three checks pass; the first failing check's error is returned, in the order email, password, confirmation; with a valid email and password the result is the confirmation check's |
| Validation.ValidRegistrationMeaning | app/src/main/java/com/example/postly/Utils/ValidationUtils.kt:84-99 | a registration that validates has a well-formed email and two equal passwords that meet the password rules and are not WEAK |
| Validation.StrengthScore | app/src/main/java/com/example/postly/Utils/ValidationUtils.kt:110-118 | the score is at most 5 |
| Validation.StrengthScoreCountsRequirements | app/src/main/java/com/example/postly/Utils/ValidationUtils.kt:110-129 | the score equals the number of met entries in the requirements map |
| Validation.StrengthExtremes | app/src/main/java/com/example/postly/Utils/ValidationUtils.kt:101-108 | a password meeting every requirement is STRONG; the empty password is WEAK |
| Validation.RequirementsCount | app/src/main/java/com/example/postly/Utils/ValidationUtils.kt:121-129 | the requirements map has exactly the five labels, and one met entry per satisfied criterion |
| Validation.AllRequirementsMet | app/src/main/java/com/example/postly/Utils/ValidationUtils.kt:121-129 | every entry of a password's map is true iff the password has length, a digit, an uppercase letter, a lowercase letter and a special character |
| Validation.GetDescription | app/src/main/java/com/example/postly/Utils/ValidationUtils.kt:140-146 | each strength has its own description, in both directions |
| Validation.ValidateLoginPassword | app/src/main/java/com/example/postly/Utils/ValidationUtils.kt:157-165 | valid iff not blank |
| Validation.ValidateLogin | app/src/main/java/com/example/postly/Utils/ValidationUtils.kt:168-179 | valid iff the email is well formed and the password is not blank; an email error comes first; errors are EmptyFields or InvalidEmailFormat |
| Validation.RegistrationStricterThanLogin | app/src/main/java/com/example/postly/Utils/ValidationUtils.kt:84-179 | every registration that validates also passes login validation |
| Text.NatToStringRoundTrip | app/src/main/java/com/example/postly/Model/Repository/Repositories/PostRepositories/PostRepository.kt:122 | reading back the decimal rendering of a number used in a string template gives the number |
| Text.IntToStringInjective | app/src/main/java/com/example/postly/Model/Repository/Repositories/PostRepositories/PostRepository.kt:122 | different integers render as different strings |
| PostStore.GetAllPosts | app/src/main/java/com/example/postly/Model/DataSource/Local/DAO/PostDao.kt:39-40 | the answer holds every row of the table, each once, in ascending id order |
| PostStore.GetAllPostIds | app/src/main/java/com/example/postly/Model/DataSource/Local/DAO/PostDao.kt:42-43 | exactly the stored keys, each once, in ascending order |
| PostStore.GetPostById | app/src/main/java/com/example/postly/Model/DataSource/Local/DAO/PostDao.kt:54-55 | the row with that key, or null iff there is none |
| PostStore.PostExists | app/src/main/java/com/example/postly/Model/DataSource/Local/DAO/PostDao.kt:106-107 | true iff getPostById finds a row |
| PostStore.GetFavoritePosts | app/src/main/java/com/example/postly/Model/DataSource/Local/DAO/PostDao.kt:66-67 | exactly the favourite rows, in ascending id order |
| PostStore.GetNonFavoritePosts | app/src/main/java/com/example/postly/Model/DataSource/Local/DAO/PostDao.kt:70-71 | exactly the non-favourite rows, in ascending id order |
| PostStore.SearchPosts | app/src/main/java/com/example/postly/Model/DataSource/Local/DAO/PostDao.kt:98-99 | exactly the rows whose title or body contains the query, ignoring ASCII case, in ascending id order |
| PostStore.SearchEmptyReturnsAll | app/src/main/java/com/example/postly/Model/DataSource/Local/DAO/PostDao.kt:98-99 | the empty query returns the whole table |
| PostStore.SearchEmptyIffNoMatch | app/src/main/java/com/example/postly/Model/DataSource/Local/DAO/PostDao.kt:98-99 | the search returns nothing iff no row matches |
| PostStore.GetPostsByBody | app/src/main/java/com/example/postly/Model/DataSource/Local/DAO/PostDao.kt:62-63 | exactly the rows whose body contains the text, ignoring ASCII case, in ascending id order |
| PostStore.GetPostsByTitle | app/src/main/java/com/example/postly/Model/DataSource/Local/DAO/PostDao.kt:58-59 | sorted by title, holding exactly the rows whose title contains the text, each as often as in the table (a permutation of the filtered listing) |
| PostStore.GetAllPostsOrderedByTitle | app/src/main/java/com/example/postly/Model/DataSource/Local/DAO/PostDao.kt:50-51 | sorted by title, and a permutation of all rows |
| PostStore.SortByTitle | app/src/main/java/com/example/postly/Model/DataSource/Local/DAO/PostDao.kt:50-51 | the `ORDER BY title` sort: sorted, and the same multiset of rows |
| PostStore.Page | app/src/main/java/com/example/postly/Model/DataSource/Local/DAO/PostDao.kt:102-103 | the run that starts `offset` rows in (clamped) and is at most `limit` rows long; a negative limit means no limit |
| PostStore.PagesAdjacent | app/src/main/java/com/example/postly/Model/DataSource/Local/DAO/PostDao.kt:102-103 | two consecutive pages of size n together give the page of size 2n |
| PostStore.PageOfOrdered | app/src/main/java/com/example/postly/Model/DataSource/Local/DAO/PostDao.kt:102-103 | a page of an id-ordered answer is id-ordered and made of the answer's rows |
| PostStore.GetPostsWithPagination | app/src/main/java/com/example/postly/Model/DataSource/Local/DAO/PostDao.kt:102-103 | a page of getAllPosts: id-ordered, every row stored under its id |
| PostStore.GetPostsCount | app/src/main/java/com/example/postly/Model/DataSource/Local/DAO/PostDao.kt:82-83 | the number of rows getAllPosts returns |
| PostStore.GetFavoritePostsCount | app/src/main/java/com/example/postly/Model/DataSource/Local/DAO/PostDao.kt:86-87 | the number of rows getFavoritePosts returns |
| PostStore.SelectsCount | app/src/main/java/com/example/postly/Model/DataSource/Local/DAO/PostDao.kt:82-87 | a filtered answer has as many rows as the table has rows passing the filter |
| PostStore.InsertAll | app/src/main/java/com/example/postly/Model/DataSource/Local/DAO/PostDao.kt:19-20 | REPLACE inserts: the keys are the old keys plus the listed ones, and the table stays well keyed |
| PostStore.InsertAllAt | app/src/main/java/com/example/postly/Model/DataSource/Local/DAO/PostDao.kt:19-20 | a listed key holds the last listed row with it; other rows are unchanged |
| PostStore.LastWithIdDistinct | app/src/main/java/com/example/postly/Model/DataSource/Local/DAO/PostDao.kt:19-20 | with distinct keys, every listed row is the one stored |
| PostStore.UpdateAll | app/src/main/java/com/example/postly/Model/DataSource/Local/DAO/PostDao.kt:27-28 | updates never add or remove a key, and keep the table well keyed; what each key then holds is stated by UpdateAllAt |
| PostStore.UpdateAllAt | app/src/main/java/com/example/postly/Model/DataSource/Local/DAO/PostDao.kt:27-28 | a listed key already in the table holds the last listed row with it; every other row is unchanged (a listed key not in the table adds nothing, by UpdateAll) |
| PostStore.KeepListedOrFavorite | app/src/main/java/com/example/postly/Model/DataSource/Local/DAO/PostDao.kt:46-47 | a row survives iff it is listed or a favourite; survivors are unchanged |
| PostStore.Toggled | app/src/main/java/com/example/postly/Model/DataSource/Local/DAO/PostDao.kt:74-75 | only that row's flag flips; the keys and the other rows stay |
| PostStore.ToggleTwice | app/src/main/java/com/example/postly/Model/DataSource/Local/DAO/PostDao.kt:74-75 | toggling twice restores the table |
| PostStore.WithFavorite | app/src/main/java/com/example/postly/Model/DataSource/Local/DAO/PostDao.kt:78-79 | only that row's flag is set; the keys and the other rows stay |
| PostStore.SetFavoriteIdempotent | app/src/main/java/com/example/postly/Model/DataSource/Local/DAO/PostDao.kt:78-79 | setting the flag twice is the same as once |
| PostStore.PostDao.constructor | app/src/main/java/com/example/postly/Model/DataSource/Local/Entity/PostEntity.kt:7-13 | an empty, well-keyed posts table |
| PostStore.PostDao.InsertPost | app/src/main/java/com/example/postly/Model/DataSource/Local/DAO/PostDao.kt:15-16 | the row is stored under its key, replacing any row there; returns the key |
| PostStore.PostDao.InsertPosts | app/src/main/java/com/example/postly/Model/DataSource/Local/DAO/PostDao.kt:19-20 | the new table is InsertAll of the old; returns the keys in order |
| PostStore.PostDao.UpdatePost | app/src/main/java/com/example/postly/Model/DataSource/Local/DAO/PostDao.kt:23-24 | replaces an existing row; otherwise nothing changes; returns the number of rows changed |
| PostStore.PostDao.UpdatePosts | app/src/main/java/com/example/postly/Model/DataSource/Local/DAO/PostDao.kt:27-28 | the new table is UpdateAll of the old, so each stored listed key holds its last listed row and every other row stays (UpdateAllAt); returns how many listed rows existed |
| PostStore.PostDao.DeletePost | app/src/main/java/com/example/postly/Model/DataSource/Local/DAO/PostDao.kt:31-32 | removes that key; returns 1 if it was present, else 0 |
| PostStore.PostDao.DeletePosts | app/src/main/java/com/example/postly/Model/DataSource/Local/DAO/PostDao.kt:35-36 | removes the listed keys; returns how many were present |
| PostStore.PostDao.DeletePostsNotInListExceptFavorites | app/src/main/java/com/example/postly/Model/DataSource/Local/DAO/PostDao.kt:46-47 | keeps exactly the listed or favourite rows; returns how many rows went |
| PostStore.PostDao.ToggleFavorite | app/src/main/java/com/example/postly/Model/DataSource/Local/DAO/PostDao.kt:74-75 | the table becomes Toggled; returns 1 iff the row exists |
| PostStore.PostDao.SetFavorite | app/src/main/java/com/example/postly/Model/DataSource/Local/DAO/PostDao.kt:78-79 | the table becomes WithFavorite; returns 1 iff the row exists |
| PostStore.PostDao.DeleteAllPosts | app/src/main/java/com/example/postly/Model/DataSource/Local/DAO/PostDao.kt:90-91 | empties the table; returns its old size; both counts become 0 |
| PostStore.PostDao.DeletePostsByIds | app/src/main/java/com/example/postly/Model/DataSource/Local/DAO/PostDao.kt:94-95 | removes the listed keys; returns how many were present |
| PostRepo.MapToPosts | app/src/main/java/com/example/postly/Model/Repository/Repositories/PostRepositories/PostRepository.kt:137-146 | one post per row, in order, every field copied |
| PostRepo.MapToPostsRoundTrip | app/src/main/java/com/example/postly/Model/Repository/Repositories/PostRepositories/PostRepository.kt:137-146 | mapping each post back gives the original row |
| PostRepo.IsPostFavorite | app/src/main/java/com/example/postly/Model/Repository/Repositories/PostRepositories/PostRepository.kt:100-102 | true iff a row with that id exists and is a favourite |
| PostRepo.ArticleBody | app/src/main/java/com/example/postly/Model/Repository/Repositories/PostRepositories/PostRepository.kt:37 | the description, else the content, else the empty string |
| PostRepo.ToEntities | app/src/main/java/com/example/postly/Model/Repository/Repositories/PostRepositories/PostRepository.kt:33-40 | the article at index i becomes a row with id i, its title, its body and the flag stored for id i |
| PostRepo.ToEntitiesIds | app/src/main/java/com/example/postly/Model/Repository/Repositories/PostRepositories/PostRepository.kt:33-40 | the fetched ids are exactly 0 up to the number of articles |
| PostRepo.HandleApiError | app/src/main/java/com/example/postly/Model/Repository/Repositories/PostRepositories/PostRepository.kt:113-135 | no host or refused connection: Success with the cache; HTTP failure: HTTP_<code>; anything else: UNKNOWN_001 with the exception's message |
| PostRepo.HttpCodesDistinct | app/src/main/java/com/example/postly/Model/Repository/Repositories/PostRepositories/PostRepository.kt:120-126 | different HTTP status codes give different error codes |
| PostRepo.MarkFavoritesAt | app/src/main/java/com/example/postly/Model/Repository/Repositories/PostRepositories/PostRepository.kt:108-110 | after the loop, a listed row is flagged and any other row is as before |
| PostRepo.Merge | app/src/main/java/com/example/postly/Model/Repository/Repositories/PostRepositories/PostRepository.kt:104-111 | the merged table is well keyed |
| PostRepo.MergeSteps | app/src/main/java/com/example/postly/Model/Repository/Repositories/PostRepositories/PostRepository.kt:104-111 | the four statements, in order, compute Merge |
| PostRepo.MergeKeys | app/src/main/java/com/example/postly/Model/Repository/Repositories/PostRepositories/PostRepository.kt:104-111 | after the merge the keys are the new ids plus the old favourite ids |
| PostRepo.MergeNewRow | app/src/main/java/com/example/postly/Model/Repository/Repositories/PostRepositories/PostRepository.kt:104-111 | a new id holds the fetched title and body; it is a favourite iff it was one or the new row says so |
| PostRepo.MergeOldFavorite | app/src/main/java/com/example/postly/Model/Repository/Repositories/PostRepositories/PostRepository.kt:104-111 | an old favourite that was not fetched again is kept exactly |
| PostRepo.MergeKeepsFavorites | app/src/main/java/com/example/postly/Model/Repository/Repositories/PostRepositories/PostRepository.kt:104-111 | when no new row claims a new favourite, the favourite ids are exactly the old ones |
| PostRepo.RefreshKeepsFavorites | app/src/main/java/com/example/postly/Model/Repository/Repositories/PostRepositories/PostRepository.kt:33-42 | a refresh keeps exactly the favourite ids |
| PostRepo.RefreshStoredIds | app/src/main/java/com/example/postly/Model/Repository/Repositories/PostRepositories/PostRepository.kt:33-42 | after a refresh the keys are the article indices plus the old favourite ids |
| PostRepo.RefreshRow | app/src/main/java/com/example/postly/Model/Repository/Repositories/PostRepositories/PostRepository.kt:33-42 | after a refresh the row with id i holds the title and body of article i |
| PostRepo.RefreshEvicts | app/src/main/java/com/example/postly/Model/Repository/Repositories/PostRepositories/PostRepository.kt:33-42 | a refresh drops every non-favourite row whose id is not an article index |
| PostRepo.CachedPostsAreTable | app/src/main/java/com/example/postly/Model/Repository/Repositories/PostRepositories/PostRepository.kt:96-98 | the cached posts are the whole table, one per row, in ascending id order |
| PostRepo.GetPostsTable | app/src/main/java/com/example/postly/Model/Repository/Repositories/PostRepositories/PostRepository.kt:24-59 | the table after getPosts is well keyed |
| PostRepo.GetPostsWithoutRefresh | app/src/main/java/com/example/postly/Model/Repository/Repositories/PostRepositories/PostRepository.kt:24-59 | without a refresh the table is unchanged. Offline: the cache. Status not "ok": API_001. Raised failure: handleApiError with the cache. Failing store read: UNKNOWN_001 |
| PostRepo.GetPostsRefreshAnswers | app/src/main/java/com/example/postly/Model/Repository/Repositories/PostRepositories/PostRepository.kt:32-44 | a refresh answers with every post of the merged table, in id order |
| PostRepo.GetPostsKeepsFavorites | app/src/main/java/com/example/postly/Model/Repository/Repositories/PostRepositories/PostRepository.kt:24-59 | whatever the network, API and store do, getPosts keeps the set of favourite ids |
| PostRepo.GetPostsSettles | app/src/main/java/com/example/postly/Model/Repository/Repositories/PostRepositories/PostRepository.kt:24-59 | getPosts answers only Success or Error |
| PostRepo.ToggleOutcome | app/src/main/java/com/example/postly/Model/Repository/Repositories/PostRepositories/PostRepository.kt:71-85 | Success iff the store answers and the row exists; DB_003 for a missing row; DatabaseConnectionError when the store throws |
| PostRepo.ToggleFlipsFavorite | app/src/main/java/com/example/postly/Model/Repository/Repositories/PostRepositories/PostRepository.kt:71-85 | a successful toggle moves exactly that id in or out of the favourites; two toggles restore the table |
| PostRepo.PostRepository.GetCachedPosts | app/src/main/java/com/example/postly/Model/Repository/Repositories/PostRepositories/PostRepository.kt:96-98 | returns CachedPosts of the table |
| PostRepo.PostRepository.UpdateCacheWithFavoritePreservation | app/src/main/java/com/example/postly/Model/Repository/Repositories/PostRepositories/PostRepository.kt:104-111 | runs the four statements; the new table is Merge of the old |
| PostRepo.PostRepository.SetFavorites | app/src/main/java/com/example/postly/Model/Repository/Repositories/PostRepositories/PostRepository.kt:108-110 | the loop sets every listed id's flag |
| PostRepo.PostRepository.GetPosts | app/src/main/java/com/example/postly/Model/Repository/Repositories/PostRepositories/PostRepository.kt:24-59 | returns GetPostsOutcome of the old table and leaves GetPostsTable |
| PostRepo.PostRepository.GetFavoritePosts | app/src/main/java/com/example/postly/Model/Repository/Repositories/PostRepositories/PostRepository.kt:61-69 | the favourite posts in id order; DatabaseConnectionError iff the store throws |
| PostRepo.PostRepository.ToggleFavorite | app/src/main/java/com/example/postly/Model/Repository/Repositories/PostRepositories/PostRepository.kt:71-85 | returns ToggleOutcome and leaves ToggleTable |
| PostRepo.PostRepository.SearchPosts | app/src/main/java/com/example/postly/Model/Repository/Repositories/PostRepositories/PostRepository.kt:87-94 | the matching posts in id order; DatabaseConnectionError iff the store throws |
| UserStore.GetUserByEmail | app/src/main/java/com/example/postly/Model/DataSource/Local/DAO/UserDao.kt:16-17 | null iff no row has that exact email; otherwise the stored row with that email and the smallest key |
| UserStore.GetUserById | app/src/main/java/com/example/postly/Model/DataSource/Local/DAO/UserDao.kt:19-20 | the row with that key, or null iff there is none |
| UserStore.GetUserCount | app/src/main/java/com/example/postly/Model/DataSource/Local/DAO/UserDao.kt:25-26 | the number of rows |
| UserStore.GetFirstUser | app/src/main/java/com/example/postly/Model/DataSource/Local/DAO/UserDao.kt:28-29 | null iff the table is empty; otherwise the row with the smallest key |
| UserStore.UserDao.constructor | app/src/main/java/com/example/postly/Model/DataSource/Local/Entity/UserEntity.kt:7-14 | an empty users table whose AUTOINCREMENT counter is 0 |
| UserStore.UserDao.InsertUser | app/src/main/java/com/example/postly/Model/DataSource/Local/DAO/UserDao.kt:13-14 | stores the row (key 0 takes counter + 1) and returns its key; a key already present aborts and changes nothing |
| UserStore.UserDao.UpdateUser | app/src/main/java/com/example/postly/Model/DataSource/Local/DAO/UserDao.kt:22-23 | replaces the row with that key, if any; the counter stays |
| UserRepo.ToUserForgetsPassword | app/src/main/java/com/example/postly/Model/Repository/Repositories/UserRepositories/UserRepository.kt:82-89 | the password never reaches the User |
| UserRepo.ToUserDeterminesRow | app/src/main/java/com/example/postly/Model/Repository/Repositories/UserRepositories/UserRepository.kt:82-89 | rows giving the same User differ at most in the password |
| UserRepo.MessageTextIdentifies | app/src/main/java/com/example/postly/Model/Repository/Repositories/UserRepositories/UserRepository.kt:36 | two exception messages print alike only when equal, or when one is null and the other is the text "null" |
| UserRepo.FailureDebugMessages | app/src/main/java/com/example/postly/Model/Repository/Repositories/UserRepositories/UserRepository.kt:33-37 | a store failure in login or register shows its fixed user message; the debug message is "Login exception: " or "Registration exception: " followed by the exception message, or by "null" when there is none |
| UserRepo.RegisteredIsFound | app/src/main/java/com/example/postly/Model/Repository/Repositories/UserRepositories/UserRepository.kt:42-67 | a new email stored under a fresh key is what the email lookup then finds |
| UserRepo.FreshEmailKeepsDistinct | app/src/main/java/com/example/postly/Model/Repository/Repositories/UserRepositories/UserRepository.kt:44-46 | the duplicate check keeps emails distinct |
| UserRepo.LoginErrors | app/src/main/java/com/example/postly/Model/Repository/Repositories/UserRepositories/UserRepository.kt:18-40 | throwing store: DB_LOGIN_001; unknown email: UserNotFound; wrong password: InvalidPassword; a failed login writes nothing |
| UserRepo.LoginSuccess | app/src/main/java/com/example/postly/Model/Repository/Repositories/UserRepositories/UserRepository.kt:18-30 | success iff the store answers and the first row with that email has that password; the user returned is that row with last login `now`; only that row's last login changes |
| UserRepo.RegisterEffect | app/src/main/java/com/example/postly/Model/Repository/Repositories/UserRepositories/UserRepository.kt:42-67 | success iff the store answers and the email is new. On success exactly one row is added, under the next key, with that email and password, and returned without the password. Otherwise EmailAlreadyRegistered or DB_REG_001, and the table is unchanged |
| UserRepo.RegisterTwiceRefused | app/src/main/java/com/example/postly/Model/Repository/Repositories/UserRepositories/UserRepository.kt:44-46 | registering the same email again is EmailAlreadyRegistered and stores nothing |
| UserRepo.RegisterThenLogin | app/src/main/java/com/example/postly/Model/Repository/Repositories/UserRepositories/UserRepository.kt:18-67 | after registering, logging in with the same email and password succeeds |
| UserRepo.UserRepository.Login | app/src/main/java/com/example/postly/Model/Repository/Repositories/UserRepositories/UserRepository.kt:18-40 | returns LoginOutcome and leaves LoginTable; keeps emails distinct |
| UserRepo.UserRepository.Register | app/src/main/java/com/example/postly/Model/Repository/Repositories/UserRepositories/UserRepository.kt:42-67 | returns RegisterOutcome and leaves RegisterTable; the counter grows by one exactly on success; keeps emails distinct |
| UserRepo.UserRepository.Logout | app/src/main/java/com/example/postly/Model/Repository/Repositories/UserRepositories/UserRepository.kt:69-71 | changes nothing |
| UserRepo.UserRepository.IsLoggedIn | app/src/main/java/com/example/postly/Model/Repository/Repositories/UserRepositories/UserRepository.kt:73-75 | true iff some user row exists |
| UserRepo.UserRepository.GetCurrentUser | app/src/main/java/com/example/postly/Model/Repository/Repositories/UserRepositories/UserRepository.kt:77-79 | null iff the table is empty; otherwise the row with the smallest key, without its password |
| LoginVM.ErrorDetailsIdentifyNamed | app/src/main/java/com/example/postly/ViewModel/LoginViewModel.kt:74-77 | the code in the details of a named error gives back that error |
| LoginVM.DebugInfoParts | app/src/main/java/com/example/postly/ViewModel/LoginViewModel.kt:80-83 | the line starts with the code and ends with the debug message when there is one |
| LoginVM.LoginResultChecks | app/src/main/java/com/example/postly/ViewModel/LoginViewModel.kt:40-65 | blank fields: EmptyFields; a malformed email: InvalidEmailFormat; only well-formed input reaches the repository; the checks pass iff validateLogin passes |
| LoginVM.LoginCheckOrderDiffers | app/src/main/java/com/example/postly/ViewModel/LoginViewModel.kt:45-55 | on "ab" with a blank password the screen says EmptyFields while validateLogin says InvalidEmailFormat |
| LoginVM.LoginErrorsNotEmpty | app/src/main/java/com/example/postly/Model/Repository/Repositories/UserRepositories/UserRepository.kt:18-40 | the repository never answers EmptyFields |
| LoginVM.LoginViewModel.constructor | app/src/main/java/com/example/postly/ViewModel/LoginViewModel.kt:23-30 | Idle, empty email and password |
| LoginVM.LoginViewModel.OnEmailChanged | app/src/main/java/com/example/postly/ViewModel/LoginViewModel.kt:32-34 | sets the email and nothing else |
| LoginVM.LoginViewModel.OnPasswordChanged | app/src/main/java/com/example/postly/ViewModel/LoginViewModel.kt:36-38 | sets the password and nothing else |
| LoginVM.LoginViewModel.Login | app/src/main/java/com/example/postly/ViewModel/LoginViewModel.kt:40-65 | the state goes Loading, then LoginResult; the table changes only when the checks pass, and then as LoginTable |
| LoginVM.LoginViewModel.ClearError | app/src/main/java/com/example/postly/ViewModel/LoginViewModel.kt:67-71 | an Error state becomes Idle; any other state stays |
| RegisterVM.UpdatedErrors | app/src/main/java/com/example/postly/ViewModel/RegisterViewModel.kt:151-161 | an error records its field message; a valid result removes the field; other fields keep their entries |
| RegisterVM.UpdatedErrorsReports | app/src/main/java/com/example/postly/ViewModel/RegisterViewModel.kt:151-161 | after the update the field has an entry iff the result is an error, and that entry is the result's message |
| RegisterVM.NoErrorsCurrent | app/src/main/java/com/example/postly/ViewModel/RegisterViewModel.kt:44 | an empty error map is current for any form |
| RegisterVM.EmailChangeKeepsErrorsCurrent | app/src/main/java/com/example/postly/ViewModel/RegisterViewModel.kt:50-53 | after onEmailChanged every stored error is its field's current failure |
| RegisterVM.PasswordChangeKeepsErrorsCurrent | app/src/main/java/com/example/postly/ViewModel/RegisterViewModel.kt:55-61 | the same for onPasswordChanged, which revalidates the confirmation too |
| RegisterVM.ConfirmChangeKeepsErrorsCurrent | app/src/main/java/com/example/postly/ViewModel/RegisterViewModel.kt:76-79 | the same for onConfirmPasswordChanged |
| RegisterVM.PasswordAloneLeavesStaleError | app/src/main/java/com/example/postly/ViewModel/RegisterViewModel.kt:55-61 | revalidating only the password would leave a stale "Passwords do not match" |
| RegisterVM.EmptyPasswordIsWeak | app/src/main/java/com/example/postly/ViewModel/RegisterViewModel.kt:41 | the empty password scores 0 and is WEAK, matching the initial strength |
| RegisterVM.FormValidPassword | app/src/main/java/com/example/postly/ViewModel/RegisterViewModel.kt:63-74 | a form isFormValid accepts has a password meeting all five criteria, accepted by validatePassword, at STRONG strength; validateRegistration can then fail only on the email or the confirmation |
| RegisterVM.RegisterViewModel.constructor | app/src/main/java/com/example/postly/ViewModel/RegisterViewModel.kt:23-48 | Idle, empty fields, hidden passwords, WEAK, no errors, no requirements |
| RegisterVM.RegisterViewModel.IsFormValid | app/src/main/java/com/example/postly/ViewModel/RegisterViewModel.kt:63-69 | true iff there are no field errors, no field is blank, and every requirement is met |
| RegisterVM.RegisterViewModel.AreAllPasswordRequirementsMet | app/src/main/java/com/example/postly/ViewModel/RegisterViewModel.kt:72-74 | every entry of the requirements map is true |
| RegisterVM.RegisterViewModel.OnEmailChanged | app/src/main/java/com/example/postly/ViewModel/RegisterViewModel.kt:50-53 | sets the email and updates its error; the rest stays |
| RegisterVM.RegisterViewModel.ValidateEmailField | app/src/main/java/com/example/postly/ViewModel/RegisterViewModel.kt:136-139 | updates the email's entry with validateEmail |
| RegisterVM.RegisterViewModel.OnPasswordChanged | app/src/main/java/com/example/postly/ViewModel/RegisterViewModel.kt:55-61 | sets the password, its strength and its requirements, then updates the password and confirmation errors |
| RegisterVM.RegisterViewModel.ValidatePasswordField | app/src/main/java/com/example/postly/ViewModel/RegisterViewModel.kt:141-144 | updates the password's entry with validatePassword |
| RegisterVM.RegisterViewModel.ValidateConfirmPasswordField | app/src/main/java/com/example/postly/ViewModel/RegisterViewModel.kt:146-149 | updates the confirmation's entry with validateConfirmPassword |
| RegisterVM.RegisterViewModel.OnConfirmPasswordChanged | app/src/main/java/com/example/postly/ViewModel/RegisterViewModel.kt:76-79 | sets the confirmation and updates its error |
| RegisterVM.RegisterViewModel.TogglePasswordVisibility | app/src/main/java/com/example/postly/ViewModel/RegisterViewModel.kt:81-83 | flips the password's visibility and nothing else |
| RegisterVM.RegisterViewModel.ToggleConfirmPasswordVisibility | app/src/main/java/com/example/postly/ViewModel/RegisterViewModel.kt:85-87 | flips the confirmation's visibility and nothing else |
| RegisterVM.RegisterViewModel.Register | app/src/main/java/com/example/postly/ViewModel/RegisterViewModel.kt:89-116 | an invalid form changes nothing; a validation error becomes the state without touching the table; otherwise the state goes Loading, then RegisterOutcome, and the table becomes RegisterTable |
| RegisterVM.RegisterViewModel.Submit | app/src/main/java/com/example/postly/ViewModel/RegisterViewModel.kt:106-114 | Loading, then the repository's register answer for the form's request |
| RegisterVM.RegisterViewModel.ClearError | app/src/main/java/com/example/postly/ViewModel/RegisterViewModel.kt:119-124 | an Error state becomes Idle and every field error is cleared |
| RegisterVM.RegisterViewModel.ResetForm | app/src/main/java/com/example/postly/ViewModel/RegisterViewModel.kt:126-133 | empty fields, WEAK, no errors, Idle; the requirements and visibility stay |
| RegisterVM.ErrorDetailsIdentifyNamed | app/src/main/java/com/example/postly/ViewModel/RegisterViewModel.kt:164-171 | the details are null exactly outside an Error state; for a named error, the code they report gives that error back through fromCode |
| PostVM.FeedResult | app/src/main/java/com/example/postly/ViewModel/PostViewModel.kt:40-56 | what loadPosts shows is always Success or Error |
| PostVM.FavoritesResult | app/src/main/java/com/example/postly/ViewModel/PostViewModel.kt:58-72 | Success iff the store answers; otherwise DatabaseConnectionError |
| PostVM.SearchResult | app/src/main/java/com/example/postly/ViewModel/PostViewModel.kt:91-105 | Success iff the store answers; otherwise DatabaseConnectionError |
| PostVM.FavoritesAreTheFavoriteRows | app/src/main/java/com/example/postly/ViewModel/PostViewModel.kt:58-72 | the favourites screen lists exactly the favourite rows, each once, in id order |
| PostVM.HasPostsOffline | app/src/main/java/com/example/postly/ViewModel/PostViewModel.kt:127-130 | offline, hasPosts holds iff the table has a row; a failing store shows nothing |
| PostVM.ToggleThenReloadFlipsOneFavorite | app/src/main/java/com/example/postly/ViewModel/PostViewModel.kt:74-89 | after a successful toggle and the reload, the favourite ids are the old ones with that post flipped |
| PostVM.StoreFailureMessage | app/src/main/java/com/example/postly/ViewModel/PostViewModel.kt:118-124 | a store failure on the favourites or search screen reads "Database error. Please try again." |
| PostVM.PostViewModel.constructor | app/src/main/java/com/example/postly/ViewModel/PostViewModel.kt:35-38 | init loads the posts, then the favourites; the histories start at Idle |
| PostVM.PostViewModel.LoadPosts | app/src/main/java/com/example/postly/ViewModel/PostViewModel.kt:40-56 | loading on, Loading, then getPosts' answer, loading off; the other states stay |
| PostVM.PostViewModel.LoadFavoritePosts | app/src/main/java/com/example/postly/ViewModel/PostViewModel.kt:58-72 | Loading, then getFavoritePosts' answer; nothing else changes |
| PostVM.PostViewModel.ToggleFavorite | app/src/main/java/com/example/postly/ViewModel/PostViewModel.kt:74-89 | on success the posts and then the favourites are reloaded; on failure the error becomes the posts state |
| PostVM.PostViewModel.SearchPosts | app/src/main/java/com/example/postly/ViewModel/PostViewModel.kt:91-105 | Loading, then searchPosts' answer; nothing else changes |
| PostVM.PostViewModel.ClearSearch | app/src/main/java/com/example/postly/ViewModel/PostViewModel.kt:107-109 | the search state becomes Idle; nothing else changes |
| PostVM.PostViewModel.RefreshAllData | app/src/main/java/com/example/postly/ViewModel/PostViewModel.kt:111-115 | reloads the posts, then the favourites, then clears the search |
| PostVM.HasFavoritesIffFavoriteRow | app/src/main/java/com/example/postly/ViewModel/PostViewModel.kt:132-135 | after the favourites load, hasFavorites holds iff some row is a favourite; after a store failure it never holds |
| RoomAutoGenerate.RoomInsertAll | app/src/main/java/com/example/postly/Model/DataSource/Local/Entity/PostEntity.kt:9 | Room's REPLACE insert: the sequence never decreases and bounds every key; no old key disappears |
| RoomAutoGenerate.RoomInsertWithoutZero | app/src/main/java/com/example/postly/Model/DataSource/Local/Entity/PostEntity.kt:9 | without a zero id, Room's insert is the plain insert by key |
| RoomAutoGenerate.FirstRefreshLosesArticleZero | app/src/main/java/com/example/postly/Model/Repository/Repositories/PostRepositories/PostRepository.kt:33-42 | two articles into an empty cache as Room stores them: the first is lost, and id 1 holds the second; the plain insert keeps the first at id 0 |

## Left out

- I/O, coroutines, `StateFlow` and threads. Each view-model method runs to
  completion with no interleaving. `println` and `Log.d` calls are dropped.
- The network check (`NetworkManager`), the news API (`ApiService`), the clock
  and database exceptions are inputs, not modelled code.
- Only the first database call of an operation can throw (`StoreCall`). A
  failure in the middle of a multi-statement operation such as the cache merge
  is not modelled.
- Character classes are ASCII: `isUpperCase`, `isLowerCase`, `isDigit` and
  `isLetterOrDigit` accept only A-Z, a-z and 0-9. SQLite's `LOWER` folds only
  ASCII letters. `isBlank` uses Kotlin's full whitespace set.
- The LIKE queries treat the search text as a plain substring. A `%` or `_`
  inside the user's text is not read as a wildcard.
- PostStore.SortByTitle: the order among rows with equal titles is not
  specified. SQLite leaves it unspecified too.
- Kotlin `Int` and `Long` are unbounded integers here. Overflow of ids or of
  timestamps is not modelled.
- `Patterns.EMAIL_ADDRESS` is written out from Android's pattern. The
  platform class is not part of this model.
- `getUserByEmail` and `getFirstUser` use `LIMIT 1` without `ORDER BY`. They
  are read as returning the row with the smallest key, since a rowid table is
  scanned in key order. PostStore.GetAllPostIds (`SELECT id FROM posts`, also
  without `ORDER BY`) is read the same way and promises ascending ids; SQLite
  itself does not promise that order.
- Text lengths are counted in Unicode scalar values. Kotlin's `length` counts
  UTF-16 code units, so a character outside the Basic Multilingual Plane (an
  emoji) counts twice there and once here. For example, four emoji make a
  password of length 8 in Kotlin that passes the length check, and one of
  length 4 here that gets VAL_004. This affects the length checks of
  validatePassword (Utils/ValidationUtils.kt:34-41), the strength score
  (Utils/ValidationUtils.kt:112), getPasswordRequirements
  (Utils/ValidationUtils.kt:123) and the length bounds of the email pattern.
  Inputs made of BMP characters only are counted the same in both.
- UserRepo.UserRepository.IsLoggedIn, UserRepo.UserRepository.GetCurrentUser:
  `isLoggedIn` and `getCurrentUser` (UserRepositories/UserRepository.kt:73-79)
  have no `try`, so a database exception reaches their caller. The model takes
  no `StoreCall` for them and always answers.
- PostStore.PostDao.InsertPost, PostStore.PostDao.InsertPosts, PostStore.InsertAll:
  these are the plain REPLACE insert by key. For a row with id 0 this differs
  from Room's generated insert for an `autoGenerate` key, which stores such a
  row under the next sequence value (see Findings and RoomAutoGenerate). The
  repository's refresh lemmas (PostRepo.RefreshRow, PostRepo.RefreshStoredIds
  and the others about the cache merge) build on this plain insert. What they
  state about article 0 under id 0 is the intended behaviour, not what Room
  does. RoomAutoGenerate.RoomInsertWithoutZero shows the two inserts agree
  when no row has id 0.
- The repository contract's `page`/`pageSize` parameters
  (Model/Repository/Contracts/Post/IFPostRepository.kt) are declared but never
  used by the implementation.
- `PasswordStrength.getColor`: a UI colour, not part of this model.
- RegisterVM.RegisterViewModel: the fact that every stored field error is the
  field's current failure (`ErrorsCurrent`) is not a class invariant. Instead,
  the lemmas EmailChangeKeepsErrorsCurrent, PasswordChangeKeepsErrorsCurrent
  and ConfirmChangeKeepsErrorsCurrent prove it one method at a time, over the
  values each method computes.
- RegisterVM.RegisterViewModel.ResetForm keeps the old requirements map,
  because the source does not reset it. So `PasswordDerived` ties the
  requirements to the password only when the password is not empty.
- Validation.ValidatePassword: the VAL_009 "too weak" branch is modelled, but
  no input reaches it (StrongEnoughAfterBasicChecks).
- UserRepo.UserRepository.Register: the UserCreationFailed branch is kept, but no
  input reaches it. An insert with key 0 always gets a fresh key that reads back,
  so a row that cannot be re-read is not modelled.
- The Room schema, migrations, dependency injection and the Compose screens
  are not part of this model.

## Findings

| source | as written | input that shows it | evidently intended | confidence | as-written member | corrected member |
|---|---|---|---|---|---|---|
| app/src/main/java/com/example/postly/Model/DataSource/Local/Entity/PostEntity.kt:9 with app/src/main/java/com/example/postly/Model/Repository/Repositories/PostRepositories/PostRepository.kt:33-42 | The post key is `autoGenerate = true`, so Room stores an entity with id 0 under a fresh AUTOINCREMENT id. `getPosts` gives the article at index 0 the id 0. | A refresh of an empty cache with two articles. The first article is stored under id 1, and the second article (id 1) then replaces it, so the first article is lost. | The article at index i is stored under id i (RefreshRow). | not executed | RoomAutoGenerate.FirstRefreshLosesArticleZero | PostRepo.RefreshRow |

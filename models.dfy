/**
 * Data shapes of Model/DataModels/Models.kt and the two Room entities,
 * PostEntity.kt and UserEntity.kt.
 */
module Models {
  import opened Wrappers
  import opened AppErrors

  /**
   * The outcome channel of every repository and view-model state. The source
   * declares a non-generic `Result` and uses an unseen `AuthState`; both are
   * this one type (`AuthState` is `Result<User>`).
   */
  datatype Result<+T> = Idle | Loading | Success(data: T) | Error(error: AppError)

  type AuthState = Result<User>

  /** The user as the app sees it: no password. */
  datatype User = User(id: int, email: string, createdAt: int, lastLogin: Option<int>)

  datatype LoginRequest = LoginRequest(email: string, password: string)

  datatype RegisterRequest = RegisterRequest(email: string, password: string, confirmPassword: string)

  datatype Post = Post(id: int, title: string, body: string, isFavorite: bool)

  /** A row of the `posts` table. */
  datatype PostEntity = PostEntity(id: int, title: string, body: string, isFavorite: bool)

  /** A row of the `users` table; `createdAt` and `lastLogin` are epoch milliseconds. */
  datatype UserEntity = UserEntity(id: int, email: string, password: string, createdAt: int, lastLogin: Option<int>)

  /**
   * Whether the first database call of a repository operation completes or
   * throws; a throwing call changes nothing. `message` is the exception's
   * message, which may be null.
   */
  datatype StoreCall = Completes | Throws(message: Option<string>)
}

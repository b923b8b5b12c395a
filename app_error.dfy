/**
 * The closed error catalogue of Utils/AppError.kt: ten named errors, each
 * with a fixed code, user message and debug message, one open CustomError,
 * and the lookup `fromCode`.
 */
module AppErrors {
  import opened Wrappers

  datatype AppError =
    | UserNotFound
    | InvalidPassword
    | EmailAlreadyRegistered
    | DatabaseConnectionError
    | UserCreationFailed
    | EmptyFields
    | InvalidEmailFormat
    | PasswordMismatch
    | NetworkUnavailable
    | UnknownError
      /** An ad hoc error; its debug message defaults to null. */
    | CustomError(code: string, userMessage: string, debugMessage: Option<string> := None)
  {
    /** The error's stable code, `AppError.code`. */
    function Code(): string {
      match this
      case UserNotFound => "AUTH_001"
      case InvalidPassword => "AUTH_002"
      case EmailAlreadyRegistered => "AUTH_003"
      case DatabaseConnectionError => "DB_001"
      case UserCreationFailed => "DB_002"
      case EmptyFields => "VAL_001"
      case InvalidEmailFormat => "VAL_002"
      case PasswordMismatch => "VAL_003"
      case NetworkUnavailable => "NET_001"
      case UnknownError => "GEN_001"
      case CustomError(c, _, _) => c
    }

    /** The text shown to the user, `AppError.userMessage`. */
    function UserMessage(): string {
      match this
      case UserNotFound => "User account not found. Please check your email or register."
      case InvalidPassword => "Incorrect password. Please try again."
      case EmailAlreadyRegistered => "This email is already registered. Please login instead."
      case DatabaseConnectionError => "Database error. Please try again."
      case UserCreationFailed => "Failed to create account. Please try again."
      case EmptyFields => "Please fill in all required fields."
      case InvalidEmailFormat => "Please enter a valid email address."
      case PasswordMismatch => "Passwords do not match."
      case NetworkUnavailable => "No internet connection. Please check your network."
      case UnknownError => "An unexpected error occurred. Please try again."
      case CustomError(_, m, _) => m
    }

    /** The text meant for logs, `AppError.debugMessage`. */
    function DebugMessage(): Option<string> {
      match this
      case UserNotFound => Some("No user found with provided email")
      case InvalidPassword => Some("Password mismatch for existing user")
      case EmailAlreadyRegistered => Some("User attempted to register with existing email")
      case DatabaseConnectionError => Some("Failed to connect to database")
      case UserCreationFailed => Some("User entity insertion failed")
      case EmptyFields => Some("Required fields are empty")
      case InvalidEmailFormat => Some("Email format validation failed")
      case PasswordMismatch => Some("Password and confirm password don't match")
      case NetworkUnavailable => Some("Network connectivity issue")
      case UnknownError => Some("Unknown error occurred")
      case CustomError(_, _, d) => d
    }

    /** One of the ten objects of the catalogue. */
    predicate IsNamed() {
      !CustomError?
    }
  }

  /** The ten named errors, in declaration order. */
  const NamedErrors: seq<AppError> := [
    UserNotFound, InvalidPassword, EmailAlreadyRegistered, DatabaseConnectionError,
    UserCreationFailed, EmptyFields, InvalidEmailFormat, PasswordMismatch,
    NetworkUnavailable, UnknownError
  ]

  /** The codes `fromCode` recognises explicitly (every named code but GEN_001). */
  const ListedCodes: set<string> := {
    "AUTH_001", "AUTH_002", "AUTH_003", "DB_001", "DB_002",
    "VAL_001", "VAL_002", "VAL_003", "NET_001"
  }

  /** `AppError.fromCode`: the named error with that code, UnknownError otherwise. */
  function FromCode(code: string): (e: AppError)
    ensures e.IsNamed()
    ensures code in ListedCodes <==> e != UnknownError
    ensures e != UnknownError ==> e.Code() == code
  {
    match code
    case "AUTH_001" => UserNotFound
    case "AUTH_002" => InvalidPassword
    case "AUTH_003" => EmailAlreadyRegistered
    case "DB_001" => DatabaseConnectionError
    case "DB_002" => UserCreationFailed
    case "VAL_001" => EmptyFields
    case "VAL_002" => InvalidEmailFormat
    case "VAL_003" => PasswordMismatch
    case "NET_001" => NetworkUnavailable
    case _ => UnknownError
  }

  /** The list holds exactly the named errors, each once. */
  lemma NamedErrorsComplete(e: AppError)
    ensures e in NamedErrors <==> e.IsNamed()
  {
  }

  /** Distinct named errors have distinct codes. */
  lemma NamedCodesDistinct(e1: AppError, e2: AppError)
    requires e1.IsNamed() && e2.IsNamed() && e1 != e2
    ensures e1.Code() != e2.Code()
  {
  }

  /** `fromCode(e.code) == e` for every named error, UnknownError included. */
  lemma FromCodeRoundTrip(e: AppError)
    requires e.IsNamed()
    ensures FromCode(e.Code()) == e
  {
  }

  /** Reading a code back through `fromCode` is idempotent. */
  lemma FromCodeIdempotent(code: string)
    ensures FromCode(FromCode(code).Code()) == FromCode(code)
  {
    FromCodeRoundTrip(FromCode(code));
  }

  /** A CustomError hands back exactly the code and messages it was built with. */
  lemma CustomErrorFields(code: string, userMessage: string, debugMessage: Option<string>)
    ensures CustomError(code, userMessage).DebugMessage() == None
    ensures var e := CustomError(code, userMessage, debugMessage);
            e.Code() == code && e.UserMessage() == userMessage && e.DebugMessage() == debugMessage
  {
  }
}

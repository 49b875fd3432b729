/**
 * Turning errors into the localisation keys of user-facing messages, and
 * telling network errors apart (`ErrorHandler`, `AppError`). An error is
 * either an authentication error with its code or any other error, known
 * only by its `localizedDescription`.
 */
module ErrorHandling {
  import opened Ascii

  datatype AuthCode = NetworkError | UserNotFound | InvalidCredential | TooManyRequests | OtherAuthCode

  datatype Failure = AuthFailure(code: AuthCode) | OtherFailure(description: string)

  const ConnectionFailed: string := "connection_failed"
  const UnknownError: string := "unknown_error"
  const AuthenticationFailed: string := "authentication_failed"
  const TryAgainLater: string := "try_again_later"

  /** `handleAuthError` */
  function HandleAuthError(code: AuthCode): (key: string)
    ensures key == ConnectionFailed <==> code == NetworkError
    ensures key == TryAgainLater <==> code == TooManyRequests
    ensures key == AuthenticationFailed <==> code != NetworkError && code != TooManyRequests
  {
    match code
    case NetworkError => ConnectionFailed
    case UserNotFound | InvalidCredential => AuthenticationFailed
    case TooManyRequests => TryAgainLater
    case OtherAuthCode => AuthenticationFailed
  }

  /** The three words `userFriendlyMessage` looks for, case-sensitively. */
  predicate MentionsConnection(description: string)
  {
    Contains(description, "network") || Contains(description, "internet") || Contains(description, "connection")
  }

  /** `userFriendlyMessage(for:)` */
  function UserFriendlyMessage(f: Failure): (key: string)
    ensures f.OtherFailure? ==> (key == ConnectionFailed <==> MentionsConnection(f.description))
    ensures f.OtherFailure? ==> (key == UnknownError <==> !MentionsConnection(f.description))
  {
    match f
    case AuthFailure(code) => HandleAuthError(code)
    case OtherFailure(description) =>
      if MentionsConnection(description) then ConnectionFailed else UnknownError
  }

  /** `isNetworkError`: the auth code, or four words in the lower-cased description. */
  function IsNetworkError(f: Failure): (r: bool)
    ensures f.AuthFailure? ==> (r <==> f.code == NetworkError)
  {
    match f
    case AuthFailure(code) => code == NetworkError
    case OtherFailure(description) =>
      var lowered := Lower(description);
      Contains(lowered, "network") || Contains(lowered, "internet") ||
      Contains(lowered, "connection") || Contains(lowered, "offline")
  }

  /** An error shown as a connection failure is always treated as a network error. */
  lemma ConnectionFailedIsNetworkError(f: Failure)
    requires UserFriendlyMessage(f) == ConnectionFailed
    ensures IsNetworkError(f)
  {
    if f.OtherFailure? {
      var s := f.description;
      if Contains(s, "network") {
        ContainsLowered(s, "network");
      } else if Contains(s, "internet") {
        ContainsLowered(s, "internet");
      } else {
        ContainsLowered(s, "connection");
      }
    }
  }

  lemma ContainsItself(s: string)
    ensures Contains(s, s)
  {
    assert OccursAt(s, s, 0);
  }

  lemma NotContainsSameLength(s: string, w: string)
    requires |s| == |w| && s != w
    ensures !Contains(s, w)
  {
    assert s[0..|w|] == s;
  }

  lemma NotContainsLonger(s: string, w: string)
    requires |s| < |w|
    ensures !Contains(s, w)
  {
  }

  /**
   * The converse fails: "offline" is a network error shown as an unknown
   * error, and so is "Network" (the message test is case-sensitive).
   */
  lemma NetworkErrorNotShownAsConnectionFailure()
    ensures IsNetworkError(OtherFailure("offline")) && UserFriendlyMessage(OtherFailure("offline")) == UnknownError
    ensures IsNetworkError(OtherFailure("Network")) && UserFriendlyMessage(OtherFailure("Network")) == UnknownError
  {
    assert Lower("offline") == "offline";
    ContainsItself("offline");
    NotContainsSameLength("offline", "network");
    NotContainsLonger("offline", "internet");
    NotContainsLonger("offline", "connection");
    assert Lower("Network") == "network";
    ContainsItself("network");
    NotContainsSameLength("Network", "network");
    NotContainsLonger("Network", "internet");
    NotContainsLonger("Network", "connection");
  }

  /** The app's own errors (`AppError`). */
  datatype AppError =
    | NetworkUnavailable
    | GameSessionNotFound
    | InvalidGameCode
    | GameAlreadyStarted
    | InsufficientPlayers
    | Unauthorized

  /** `errorDescription` */
  function ErrorDescription(e: AppError): string
  {
    match e
    case NetworkUnavailable => "need_internet_connection"
    case GameSessionNotFound => "game_session_not_found"
    case InvalidGameCode => "game_session_not_found"
    case GameAlreadyStarted => "game_already_started"
    case InsufficientPlayers => "need_two_players"
    case Unauthorized => AuthenticationFailed
  }

  /**
   * Two app errors read the same exactly when they are the same error or
   * are the pair "session not found" / "invalid code"; an unauthorized
   * error reads like a failed sign-in.
   */
  lemma ErrorDescriptionsDistinct(a: AppError, b: AppError)
    ensures ErrorDescription(a) == ErrorDescription(b) <==>
      a == b || ({a, b} == {GameSessionNotFound, InvalidGameCode})
    ensures ErrorDescription(Unauthorized) == HandleAuthError(UserNotFound)
  {
    if a != b && ErrorDescription(a) == ErrorDescription(b) {
      assert {a, b} == {GameSessionNotFound, InvalidGameCode};
    }
    if {a, b} == {GameSessionNotFound, InvalidGameCode} {
      assert a in {GameSessionNotFound, InvalidGameCode} && b in {GameSessionNotFound, InvalidGameCode};
    }
  }
}

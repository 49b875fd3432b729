/** The signed-in person's profile record (`User`) and the sign-in state machine's states. */
module UserModel {
  import opened Wrappers
  import opened KeyValue

  /** `avatar`'s default, U+1F600 GRINNING FACE. */
  const DefaultAvatar: string := "\U{1F600}"

  datatype User = User(id: string, displayName: string, email: Option<string>, avatar: string, createdAt: int)

  datatype AuthenticationState =
    | Unauthenticated
    | Authenticating
    | Authenticated(user: User)
    | NeedsAvatar(user: User)

  /** `User(id:displayName:email:avatar:)`; `now` stands for `Date()`. */
  function NewUser(id: string, displayName: string, email: Option<string>, avatar: string, now: int): (u: User)
    ensures u.id == id && u.displayName == displayName && u.email == email && u.avatar == avatar
    ensures u.createdAt == now
  {
    User(id, displayName, email, avatar, now)
  }

  /** `User(id:displayName:)` with the defaulted parameters. */
  function NewUserWithDefaults(id: string, displayName: string, now: int): (u: User)
    ensures u.email == None && u.avatar == DefaultAvatar
    ensures u.id == id && u.displayName == displayName && u.createdAt == now
  {
    NewUser(id, displayName, None, DefaultAvatar, now)
  }

  /** `toDictionary()`: a missing email is stored as "". */
  function UserToDict(u: User): Dict
  {
    map[
      "id" := Str(u.id),
      "displayName" := Str(u.displayName),
      "email" := Str(u.email.GetOr("")),
      "avatar" := Str(u.avatar),
      "createdAt" := Num(u.createdAt)
    ]
  }

  /** `fromDictionary(_:)`: a stored "" email, a missing one and a non-string one all read as no email. */
  function UserFromDict(d: Dict): Option<User>
  {
    var id := GetStr(d, "id");
    var displayName := GetStr(d, "displayName");
    var avatar := GetStr(d, "avatar");
    var createdAt := GetNum(d, "createdAt");
    if id.None? || displayName.None? || avatar.None? || createdAt.None? then None
    else
      var email := GetStr(d, "email");
      var u := NewUser(id.value, displayName.value, if email == Some("") then None else email,
                       avatar.value, 0);
      Some(u.(createdAt := createdAt.value))
  }

  /** The four required fields survive a round trip; the email survives it unless it was "". */
  lemma UserRoundTrip(u: User)
    ensures UserFromDict(UserToDict(u)).Some?
    ensures var r := UserFromDict(UserToDict(u)).value;
      r.id == u.id && r.displayName == u.displayName && r.avatar == u.avatar && r.createdAt == u.createdAt
    ensures UserFromDict(UserToDict(u)).value.email ==
      if u.email == Some("") then None else u.email
  {
  }

  /** So `Some("")` does not round-trip: it comes back as no email. */
  lemma EmptyEmailIsLost(u: User)
    requires u.email == Some("")
    ensures UserFromDict(UserToDict(u)) != Some(u)
  {
  }

  /** Decoding fails exactly when a required field is missing or mistyped. */
  lemma UserDecodeFailure(d: Dict)
    ensures UserFromDict(d).None? <==>
      GetStr(d, "id").None? || GetStr(d, "displayName").None? ||
      GetStr(d, "avatar").None? || GetNum(d, "createdAt").None?
  {
  }

  /** A record without an email field is accepted, and has no email. */
  lemma MissingEmailAccepted(d: Dict)
    requires "email" !in d
    requires GetStr(d, "id").Some? && GetStr(d, "displayName").Some?
    requires GetStr(d, "avatar").Some? && GetNum(d, "createdAt").Some?
    ensures UserFromDict(d).Some? && UserFromDict(d).value.email.None?
  {
  }
}

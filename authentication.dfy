/**
 * Sign-in (`AuthenticationViewModel`): the nonce sent with a Sign in with
 * Apple request, the decision taken once a Firebase user is known, choosing
 * an avatar, and signing out. The Firebase user is a value the caller passes
 * in; Apple's and Firebase's authentication services are not modelled.
 */
module Authentication {
  import opened Wrappers
  import opened Ascii
  import opened KeyValue
  import opened DocumentStore
  import opened UserModel

  /** A byte from `SecRandomCopyBytes`. */
  type Byte = b: nat | b < 256

  /** The nonce alphabet: 64 characters, with no upper-case 'W' (written in two halves). */
  const Charset: string := "0123456789ABCDEFGHIJKLMNOPQRSTUV" + "XYZabcdefghijklmnopqrstuvwxyz-._"

  /** The length `randomNonceString` uses by default. */
  const NonceLength: nat := 32

  /** The random bytes, in the order the blocks of sixteen were drawn. */
  function Flatten(blocks: seq<seq<Byte>>): (bytes: seq<Byte>)
  {
    if blocks == [] then [] else Flatten(blocks[..|blocks| - 1]) + blocks[|blocks| - 1]
  }

  /** The characters rejection sampling keeps: `charset[b]` for every byte `b` below 64, in order. */
  function Accepted(bytes: seq<Byte>): (chars: string)
    ensures |chars| <= |bytes|
    ensures forall i :: 0 <= i < |chars| ==> chars[i] in Charset
  {
    if bytes == [] then []
    else
      var b := bytes[|bytes| - 1];
      Accepted(bytes[..|bytes| - 1]) + (if b < |Charset| then [Charset[b]] else [])
  }

  /** The nonce `randomNonceString(length:)` builds from `bytes`. */
  function NonceFrom(bytes: seq<Byte>, length: nat): string
  {
    Prefix(Accepted(bytes), length)
  }

  lemma CharsetSize()
    ensures |Charset| == 64
    ensures 'W' !in Charset
  {
  }

  /** Given enough accepted bytes, the nonce has the asked length and only charset characters, never 'W'. */
  lemma NonceShape(bytes: seq<Byte>, length: nat)
    requires |Accepted(bytes)| >= length
    ensures |NonceFrom(bytes, length)| == length
    ensures forall i :: 0 <= i < length ==> NonceFrom(bytes, length)[i] in Charset
    ensures 'W' !in NonceFrom(bytes, length)
  {
    var r := NonceFrom(bytes, length);
    forall i | 0 <= i < length ensures r[i] in Charset && r[i] != 'W' {
      assert r[i] == Accepted(bytes)[i];
    }
  }

  /** Bytes of 64 and above are skipped; others contribute their character. */
  lemma AcceptedSnoc(bytes: seq<Byte>, b: Byte)
    ensures Accepted(bytes + [b]) == Accepted(bytes) + (if b < 64 then [Charset[b]] else [])
  {
    assert (bytes + [b])[..|bytes|] == bytes;
  }

  /** One more byte leaves a full nonce as it is. */
  lemma NonceFullStaysFull(bytes: seq<Byte>, b: Byte, length: nat)
    requires |NonceFrom(bytes, length)| == length
    ensures NonceFrom(bytes + [b], length) == NonceFrom(bytes, length)
  {
    AcceptedSnoc(bytes, b);
    var acc := Accepted(bytes);
    assert (acc + Accepted(bytes + [b])[|acc|..])[..length] == acc[..length];
  }

  /** A byte of 64 or more leaves the nonce as it is. */
  lemma NonceSkipsByte(bytes: seq<Byte>, b: Byte, length: nat)
    requires b >= 64
    ensures NonceFrom(bytes + [b], length) == NonceFrom(bytes, length)
  {
    AcceptedSnoc(bytes, b);
  }

  /** A byte below 64 adds its character to a short nonce. */
  lemma NonceKeepsByte(bytes: seq<Byte>, b: Byte, length: nat)
    requires b < 64 && |NonceFrom(bytes, length)| < length
    ensures NonceFrom(bytes + [b], length) == NonceFrom(bytes, length) + [Charset[b]]
  {
    AcceptedSnoc(bytes, b);
  }

  /** A charset character's position, as the byte that yields it. */
  function ByteFor(c: char): (b: Byte)
    requires c in Charset
    ensures b < 64 && Charset[b] == c
  {
    CharsetSize();
    IndexOfChar(Charset, c)
  }

  /** Bytes that rejection sampling turns into `s`: each character's position in the charset. */
  function BytesFor(s: string): seq<Byte>
    requires forall i :: 0 <= i < |s| ==> s[i] in Charset
  {
    if s == [] then [] else BytesFor(s[..|s| - 1]) + [ByteFor(s[|s| - 1])]
  }

  /** Every string over the charset is the nonce of some sequence of bytes. */
  lemma {:induction false} EveryNonceReachable(s: string)
    requires forall i :: 0 <= i < |s| ==> s[i] in Charset
    ensures Accepted(BytesFor(s)) == s
  {
    if s != [] {
      var init := s[..|s| - 1];
      var c := s[|s| - 1];
      assert init + [c] == s;
      assert forall i :: 0 <= i < |init| ==> init[i] == s[i];
      EveryNonceReachable(init);
      AcceptedSnoc(BytesFor(init), ByteFor(c));
    }
  }

  lemma {:induction false} FlattenPrefix(blocks: seq<seq<Byte>>, k: nat)
    requires k <= |blocks|
    ensures Flatten(blocks[..k]) <= Flatten(blocks)
    decreases |blocks|
  {
    if k < |blocks| {
      var init := blocks[..|blocks| - 1];
      assert init[..k] == blocks[..k];
      FlattenPrefix(init, k);
    } else {
      assert blocks[..k] == blocks;
    }
  }

  lemma {:induction false} AcceptedPrefix(a: seq<Byte>, b: seq<Byte>)
    requires a <= b
    ensures Accepted(a) <= Accepted(b)
    decreases |b|
  {
    if |a| < |b| {
      var init := b[..|b| - 1];
      assert a <= init;
      AcceptedPrefix(a, init);
    } else {
      assert a == b;
    }
  }

  /**
   * The `randoms.forEach` step of `randomNonceString`: keeps the characters of
   * one block's bytes below 64 until `length` characters are kept.
   */
  method KeepFromBlock(block: seq<Byte>, ghost drawn: seq<Byte>, length: nat, nonce0: string, remaining0: nat)
    returns (nonce: string, remaining: nat)
    requires nonce0 == NonceFrom(drawn, length) && remaining0 == length - |nonce0|
    ensures nonce == NonceFrom(drawn + block, length) && remaining == length - |nonce|
  {
    nonce, remaining := nonce0, remaining0;
    assert drawn + block[..0] == drawn;
    for j := 0 to |block|
      invariant remaining == length - |nonce|
      invariant nonce == NonceFrom(drawn + block[..j], length)
    {
      assert drawn + block[..j + 1] == (drawn + block[..j]) + [block[j]];
      if remaining == 0 {
        // `forEach` goes on over the block without keeping anything.
        NonceFullStaysFull(drawn + block[..j], block[j], length);
      } else if block[j] < 64 {  // `charset.count`
        NonceKeepsByte(drawn + block[..j], block[j], length);
        nonce := nonce + [Charset[block[j]]];
        remaining := remaining - 1;
      } else {
        NonceSkipsByte(drawn + block[..j], block[j], length);
      }
    }
    assert block[..|block|] == block;
  }

  /**
   * `randomNonceString(length:)`: draws blocks of sixteen random bytes until
   * `length` characters have been kept. The blocks are the entropy source;
   * they must hold enough bytes below 64, as the endless draw guarantees.
   */
  method RandomNonceString(length: nat, blocks: seq<seq<Byte>>) returns (nonce: string)
    requires length > 0
    requires forall k :: 0 <= k < |blocks| ==> |blocks[k]| == 16
    requires |Accepted(Flatten(blocks))| >= length
    ensures nonce == NonceFrom(Flatten(blocks), length)
    ensures |nonce| == length
    ensures forall i :: 0 <= i < |nonce| ==> nonce[i] in Charset
  {
    nonce := "";
    var remaining := length;
    var k := 0;
    while remaining > 0
      invariant 0 <= k <= |blocks|
      invariant remaining == length - |nonce|
      invariant nonce == NonceFrom(Flatten(blocks[..k]), length)
      decreases |blocks| - k
    {
      assert k < |blocks| by {
        if k == |blocks| {
          assert blocks[..k] == blocks;
          NonceShape(Flatten(blocks), length);
        }
      }
      nonce, remaining := KeepFromBlock(blocks[k], Flatten(blocks[..k]), length, nonce, remaining);
      assert blocks[..k + 1][..k] == blocks[..k];
      k := k + 1;
    }
    FlattenPrefix(blocks, k);
    AcceptedPrefix(Flatten(blocks[..k]), Flatten(blocks));
    NonceShape(Flatten(blocks), length);
  }

  /** What Firebase Auth knows about the signed-in user. */
  datatype FirebaseUser = FirebaseUser(uid: string, displayName: Option<string>, email: Option<string>)

  /** `users/{uid}` */
  function UserPath(uid: string): (p: Path)
    ensures |p| == 2 && p[0] == "users" && p[1] == uid
  {
    ["users", uid]
  }

  /** The Firebase display name, else the e-mail text before the first "@", else "User". */
  function FallbackDisplayName(fu: FirebaseUser): (name: string)
    ensures fu.displayName.Some? ==> name == fu.displayName.value
    ensures fu.displayName.None? && fu.email.Some? ==>
      name <= fu.email.value && '@' !in name && (|name| < |fu.email.value| ==> fu.email.value[|name|] == '@')
    ensures fu.displayName.None? && fu.email.None? ==> name == "User"
  {
    match fu.displayName
    case Some(n) => n
    case None =>
      match fu.email
      case Some(e) => BeforeFirst(e, '@')
      case None => "User"
  }

  /** The profile made when none is stored; `now` stands for `Date()`. */
  function NewProfile(fu: FirebaseUser, now: int): (u: User)
    ensures u.id == fu.uid && u.displayName == FallbackDisplayName(fu) && u.email == fu.email
    ensures u.avatar == DefaultAvatar && u.createdAt == now
  {
    NewUser(fu.uid, FallbackDisplayName(fu), fu.email, DefaultAvatar, now)
  }

  /** The state `loadUserProfile` settles in once `users/{uid}` has been read as `record`. */
  function ProfileDecision(fu: FirebaseUser, record: Option<Value>, now: int): (s: AuthenticationState)
    ensures s.NeedsAvatar? || s.Authenticated?
    ensures s.Authenticated? ==> s.user.avatar != ""
    ensures (record.Some? && record.value.Map? && UserFromDict(record.value.entries).Some?) ==>
      s.user == UserFromDict(record.value.entries).value
    ensures (record.Some? && record.value.Map? && UserFromDict(record.value.entries).Some?) ==>
      s == (if UserFromDict(record.value.entries).value.avatar == "" then NeedsAvatar(UserFromDict(record.value.entries).value)
            else Authenticated(UserFromDict(record.value.entries).value))
    ensures !(record.Some? && record.value.Map? && UserFromDict(record.value.entries).Some?) ==>
      s == NeedsAvatar(NewProfile(fu, now))
  {
    if record.Some? && record.value.Map? && UserFromDict(record.value.entries).Some? then
      var user := UserFromDict(record.value.entries).value;
      if user.avatar == "" then NeedsAvatar(user) else Authenticated(user)
    else
      NeedsAvatar(NewProfile(fu, now))
  }

  /** A stored profile is restored as it was saved, except that an empty e-mail comes back as none. */
  lemma StoredProfileRestored(fu: FirebaseUser, u: User, now: int)
    ensures var restored := u.(email := if u.email == Some("") then None else u.email);
      ProfileDecision(fu, Some(Map(UserToDict(u))), now) ==
        (if u.avatar == "" then NeedsAvatar(restored) else Authenticated(restored))
  {
    UserRoundTrip(u);
  }

  /** After a successful avatar save, loading the profile again signs the user straight in. */
  lemma SavedAvatarSignsIn(root: Dict, fu: FirebaseUser, u: User, emoji: string, now: int)
    requires emoji != "" && u.email != Some("")
    ensures ProfileDecision(fu, Get(Put(root, UserPath(u.id), Map(UserToDict(u.(avatar := emoji)))), UserPath(u.id)), now) ==
      Authenticated(u.(avatar := emoji))
  {
    GetAfterPut(root, UserPath(u.id), Map(UserToDict(u.(avatar := emoji))));
    StoredProfileRestored(fu, u.(avatar := emoji), now);
  }

  class AuthenticationViewModel {
    var authenticationState: AuthenticationState
    var errorMessage: string
    var currentNonce: Option<string>
    const store: Store

    constructor (store: Store)
      ensures authenticationState == Unauthenticated && errorMessage == "" && currentNonce == None
      ensures this.store == store
    {
      authenticationState := Unauthenticated;
      errorMessage := "";
      currentNonce := None;
      this.store := store;
    }

    /** `loadUserProfile(for:)`; `cancel` is the error `withCancel` reports, if the read fails. */
    method LoadUserProfile(fu: FirebaseUser, now: int, cancel: Option<string>)
      modifies this`authenticationState
      ensures cancel.Some? ==> authenticationState == NeedsAvatar(NewProfile(fu, now))
      ensures cancel.None? ==> authenticationState == ProfileDecision(fu, store.Read(UserPath(fu.uid)), now)
    {
      if cancel.Some? {
        authenticationState := NeedsAvatar(NewProfile(fu, now));
      } else {
        var record := store.Read(UserPath(fu.uid));
        authenticationState := ProfileDecision(fu, record, now);
      }
    }

    /** The `addStateDidChangeListener` callback: `user` is who Firebase reports as signed in. */
    method OnAuthStateChanged(user: Option<FirebaseUser>, now: int, cancel: Option<string>)
      modifies this`authenticationState
      ensures user.None? ==> authenticationState == Unauthenticated
      ensures user.Some? && cancel.Some? ==> authenticationState == NeedsAvatar(NewProfile(user.value, now))
      ensures user.Some? && cancel.None? ==>
        authenticationState == ProfileDecision(user.value, store.Read(UserPath(user.value.uid)), now)
    {
      if user.Some? {
        LoadUserProfile(user.value, now, cancel);
      } else {
        authenticationState := Unauthenticated;
      }
    }

    /** `signInWithApple` up to sending the request: clears the error and remembers a fresh nonce. */
    method SignInWithApple(blocks: seq<seq<Byte>>)
      requires forall k :: 0 <= k < |blocks| ==> |blocks[k]| == 16
      requires |Accepted(Flatten(blocks))| >= NonceLength
      modifies this`errorMessage, this`currentNonce
      ensures errorMessage == ""
      ensures currentNonce == Some(NonceFrom(Flatten(blocks), NonceLength))
    {
      errorMessage := "";
      var nonce := RandomNonceString(NonceLength, blocks);
      currentNonce := Some(nonce);
    }

    /**
     * `saveAvatar(_:)`: only while an avatar is needed; the profile is written
     * to `users/{id}` and the user is signed in whether or not the write fails.
     */
    method SaveAvatar(emoji: string, failure: Option<string>)
      modifies this`authenticationState, store
      ensures !old(authenticationState).NeedsAvatar? ==>
        authenticationState == old(authenticationState) && unchanged(store)
      ensures old(authenticationState).NeedsAvatar? ==>
        var user := old(authenticationState).user.(avatar := emoji);
        authenticationState == Authenticated(user) &&
        store.log == old(store.log) + [SetAt(UserPath(user.id), Map(UserToDict(user)))] &&
        store.root == Commit(old(store.root), SetAt(UserPath(user.id), Map(UserToDict(user))), failure)
    {
      if authenticationState.NeedsAvatar? {
        var user := authenticationState.user.(avatar := emoji);
        authenticationState := Authenticating;
        store.Set(UserPath(user.id), Map(UserToDict(user)), failure);
        authenticationState := Authenticated(user);
      }
    }

    /** `signOut()`; `failure` is the error `Auth.auth().signOut()` throws, if any. */
    method SignOut(failure: Option<string>)
      modifies this`authenticationState, this`errorMessage
      ensures failure.None? ==> authenticationState == Unauthenticated && errorMessage == old(errorMessage)
      ensures failure.Some? ==>
        authenticationState == old(authenticationState) && errorMessage == "Failed to sign out: " + failure.value
    {
      if failure.None? {
        authenticationState := Unauthenticated;
      } else {
        errorMessage := "Failed to sign out: " + failure.value;
      }
    }
  }
}

/**
 * The Join Game screen's view model (`JoinGameViewModel`): the code typed by
 * the player is normalised by a publisher pipeline that feeds back into
 * `gameCode`, and join errors become alerts.
 */
module JoinGame {
  import opened Wrappers
  import opened Ascii
  import opened ErrorHandling
  import LobbyController

  /** `map { String($0.uppercased().filter { isLetter || isNumber }.prefix(6)) }` */
  function NormalizeCode(code: string): string
  {
    Prefix(KeepLettersAndDigits(Upper(code)), LobbyController.CodeLength)
  }

  /** No lower-case letters, only letters and digits, at most six of them. */
  lemma NormalizedCodeShape(code: string)
    ensures |NormalizeCode(code)| <= LobbyController.CodeLength
    ensures forall i :: 0 <= i < |NormalizeCode(code)| ==> IsUpper(NormalizeCode(code)[i]) || IsDigit(NormalizeCode(code)[i])
    ensures NormalizeCode(code) <= KeepLettersAndDigits(Upper(code))
  {
    var upper := Upper(code);
    var r := NormalizeCode(code);
    forall i | 0 <= i < |r| ensures IsUpper(r[i]) || IsDigit(r[i]) {
      assert r[i] == KeepLettersAndDigits(upper)[i];
      assert r[i] in upper;
      var j :| 0 <= j < |upper| && upper[j] == r[i];
      assert !IsLower(UpperChar(code[j]));
    }
  }

  /**
   * The characters typed after the first six letters and digits do not
   * matter, and the filter keeps the order of the ones it keeps.
   */
  lemma NormalizeIgnoresTail(code: string, tail: string)
    requires |KeepLettersAndDigits(Upper(code))| >= LobbyController.CodeLength
    ensures NormalizeCode(code + tail) == NormalizeCode(code)
  {
    assert Upper(code + tail) == Upper(code) + Upper(tail);
    KeepAppend(Upper(code), Upper(tail));
    var kept := KeepLettersAndDigits(Upper(code));
    assert (kept + KeepLettersAndDigits(Upper(tail)))[..LobbyController.CodeLength] == kept[..LobbyController.CodeLength];
  }

  /** A normalised code is a fixed point of the normalisation, which stops the feedback loop. */
  lemma NormalizeIdempotent(code: string)
    ensures NormalizeCode(NormalizeCode(code)) == NormalizeCode(code)
  {
    var r := NormalizeCode(code);
    NormalizedCodeShape(code);
    UpperWithoutLower(r);
    KeepAllLettersAndDigits(r);
  }

  /** A code the lobby generates passes the normalisation unchanged and is valid. */
  lemma GeneratedCodeIsNormal(draws: seq<nat>)
    ensures NormalizeCode(LobbyController.GameCode(draws)) == LobbyController.GameCode(draws)
    ensures IsValidGameCode(LobbyController.GameCode(draws))
  {
    CodeShapeIsNormal(LobbyController.GameCode(draws));
  }

  /** Six upper-case letters and digits pass the normalisation unchanged. */
  lemma CodeShapeIsNormal(c: string)
    requires |c| == LobbyController.CodeLength
    requires forall i :: 0 <= i < |c| ==> IsUpper(c[i]) || IsDigit(c[i])
    ensures NormalizeCode(c) == c
  {
    UpperWithoutLower(c);
    KeepAllLettersAndDigits(c);
  }

  /** `isValidGameCode` */
  function IsValidGameCode(code: string): (r: bool)
    ensures r <==> |code| == 6
  {
    |code| == LobbyController.CodeLength
  }

  /** A normalised code is valid exactly when the input held at least six letters and digits. */
  lemma NormalizedValidity(code: string)
    ensures IsValidGameCode(NormalizeCode(code)) <==> |KeepLettersAndDigits(Upper(code))| >= 6
  {
  }

  /**
   * What `gameCode` holds once an edit to `raw` has gone through the pipeline,
   * when `previous` was shown before. `removeDuplicates` drops the normalised
   * value when it equals the previous emission, and the raw edit then stays.
   */
  function AfterEdit(previous: string, raw: string): string
  {
    if NormalizeCode(raw) == NormalizeCode(previous) then raw else NormalizeCode(raw)
  }

  /** Whatever is shown, its normalisation is that of the last edit. */
  lemma AfterEditNormalizesAlike(previous: string, raw: string)
    ensures NormalizeCode(AfterEdit(previous, raw)) == NormalizeCode(raw)
    ensures AfterEdit(previous, raw) != NormalizeCode(raw) ==> AfterEdit(previous, raw) == raw && NormalizeCode(raw) == NormalizeCode(previous)
  {
    NormalizeIdempotent(raw);
  }

  /** Typing a seventh character after a full code leaves the raw seven characters shown. */
  lemma SeventhCharacterStays()
    ensures AfterEdit("ABCDEF", "ABCDEFG") == "ABCDEFG"
    ensures !IsValidGameCode(AfterEdit("ABCDEF", "ABCDEFG"))
  {
    var seven := "ABCDEFG";
    assert seven[..6] == "ABCDEF";
    assert forall i :: 0 <= i < |seven| ==> IsUpper(seven[i]);
    SeventhUpperStays(seven);
  }

  /** After six upper-case letters, a seventh one stays shown as typed. */
  lemma SeventhUpperStays(seven: string)
    requires |seven| == LobbyController.CodeLength + 1
    requires forall i :: 0 <= i < |seven| ==> IsUpper(seven[i])
    ensures AfterEdit(seven[..LobbyController.CodeLength], seven) == seven
  {
    var six := seven[..LobbyController.CodeLength];
    NormalizeUpperCode(seven);
    NormalizeUpperCode(six);
  }

  lemma NormalizeUpperCode(code: string)
    requires forall i :: 0 <= i < |code| ==> IsUpper(code[i])
    ensures NormalizeCode(code) == Prefix(code, LobbyController.CodeLength)
  {
    UpperWithoutLower(code);
    KeepAllLettersAndDigits(code);
  }

  /** `ErrorAlert`: a plain alert, or one offering to retry. */
  datatype ErrorAlert = Standard(message: string) | WithRetry(message: string)

  /** The alert `handleGameJoinError` raises for `f`. */
  function JoinErrorAlert(f: Failure): (a: ErrorAlert)
    ensures a.WithRetry? <==> IsNetworkError(f)
    ensures a.message == UserFriendlyMessage(f)
  {
    var message := UserFriendlyMessage(f);
    if IsNetworkError(f) then WithRetry(message) else Standard(message)
  }

  /** A failure shown as a connection failure always offers a retry. */
  lemma ConnectionFailureOffersRetry(f: Failure)
    requires UserFriendlyMessage(f) == ConnectionFailed
    ensures JoinErrorAlert(f).WithRetry?
  {
    ConnectionFailedIsNetworkError(f);
  }

  class JoinGameViewModel {
    var errorAlert: Option<ErrorAlert>
    var gameCode: string
    /** The last value `removeDuplicates` let through. */
    var lastEmitted: string

    /** The pipeline's state agrees with what is shown. */
    predicate Valid()
      reads this
    {
      lastEmitted == NormalizeCode(gameCode)
    }

    /** `init`: the subscription receives the initial empty code at once. */
    constructor()
      ensures Valid()
      ensures gameCode == "" && lastEmitted == "" && errorAlert == None
    {
      errorAlert := None;
      gameCode := "";
      lastEmitted := "";
    }

    /** The player edits `gameCode` to `raw`; the pipeline reacts on the same turn. */
    method Edit(raw: string)
      requires Valid()
      modifies this`gameCode, this`lastEmitted
      ensures Valid()
      ensures gameCode == AfterEdit(old(gameCode), raw)
      ensures lastEmitted == NormalizeCode(raw)
    {
      gameCode := raw;
      var normalized := NormalizeCode(raw);
      if normalized != lastEmitted {
        lastEmitted := normalized;
        gameCode := normalized;
        // The assignment re-enters the pipeline, whose output is now a duplicate.
        NormalizeIdempotent(raw);
        assert NormalizeCode(gameCode) == lastEmitted;
      }
    }

    /** `isValidGameCode` */
    function IsValidCode(): (r: bool)
      reads this
      ensures r <==> |gameCode| == LobbyController.CodeLength
    {
      IsValidGameCode(gameCode)
    }

    /** `showOfflineError` */
    method ShowOfflineError()
      modifies this`errorAlert
      ensures errorAlert == Some(Standard(ErrorDescription(NetworkUnavailable)))
    {
      errorAlert := Some(Standard("need_internet_connection"));
    }

    /** `handleGameJoinError` */
    method HandleGameJoinError(f: Failure)
      modifies this`errorAlert
      ensures errorAlert.Some? && (errorAlert.value.WithRetry? <==> IsNetworkError(f))
      ensures errorAlert == Some(JoinErrorAlert(f))
    {
      var message := UserFriendlyMessage(f);
      if IsNetworkError(f) {
        errorAlert := Some(WithRetry(message));
      } else {
        errorAlert := Some(Standard(message));
      }
    }
  }
}

/**
 * The few `String` operations the game relies on (`uppercased`, `lowercased`,
 * `trimmingCharacters(in: .whitespacesAndNewlines)`, `contains`, `prefix`,
 * `isLetter || isNumber`), stated over ASCII: characters outside ASCII are
 * left alone by case mapping and are neither letters, digits nor whitespace.
 */
module Ascii {

  predicate IsUpper(c: char) { 'A' <= c <= 'Z' }
  predicate IsLower(c: char) { 'a' <= c <= 'z' }
  predicate IsDigit(c: char) { '0' <= c <= '9' }

  /** `isLetter || isNumber` */
  predicate IsLetterOrDigit(c: char) { IsUpper(c) || IsLower(c) || IsDigit(c) }

  /** Member of `CharacterSet.whitespacesAndNewlines` (ASCII part). */
  predicate IsWhitespace(c: char) {
    c == ' ' || c == '\t' || c == '\n' || c == '\r' || c == '\U{B}' || c == '\U{C}'
  }

  predicate AllWhitespace(s: string) {
    forall i :: 0 <= i < |s| ==> IsWhitespace(s[i])
  }

  function LowerChar(c: char): (d: char)
    ensures !IsUpper(d)
    ensures IsUpper(c) ==> IsLower(d)
    ensures !IsUpper(c) ==> d == c
  {
    if IsUpper(c) then (c as int + 32) as char else c
  }

  function UpperChar(c: char): (d: char)
    ensures !IsLower(d)
    ensures IsLower(c) ==> IsUpper(d)
    ensures !IsLower(c) ==> d == c
  {
    if IsLower(c) then (c as int - 32) as char else c
  }

  /** `lowercased()` */
  function Lower(s: string): (r: string)
    ensures |r| == |s|
  {
    seq(|s|, i requires 0 <= i < |s| => LowerChar(s[i]))
  }

  /** `uppercased()` */
  function Upper(s: string): (r: string)
    ensures |r| == |s|
  {
    seq(|s|, i requires 0 <= i < |s| => UpperChar(s[i]))
  }

  /** Removes leading whitespace. */
  function TrimStart(s: string): string
  {
    if |s| > 0 && IsWhitespace(s[0]) then TrimStart(s[1..]) else s
  }

  /** Removes trailing whitespace. */
  function TrimEnd(s: string): string
  {
    if |s| > 0 && IsWhitespace(s[|s| - 1]) then TrimEnd(s[..|s| - 1]) else s
  }

  /** `trimmingCharacters(in: .whitespacesAndNewlines)` */
  function Trim(s: string): string
  {
    TrimEnd(TrimStart(s))
  }

  /** `filter { $0.isLetter || $0.isNumber }` */
  function KeepLettersAndDigits(s: string): (r: string)
    ensures |r| <= |s|
    ensures forall i :: 0 <= i < |r| ==> IsLetterOrDigit(r[i])
    ensures forall i :: 0 <= i < |r| ==> r[i] in s
  {
    if s == [] then []
    else if IsLetterOrDigit(s[0]) then [s[0]] + KeepLettersAndDigits(s[1..])
    else KeepLettersAndDigits(s[1..])
  }

  /** `String(s.prefix(n))` */
  function Prefix(s: string, n: nat): (r: string)
    ensures |r| == if |s| < n then |s| else n
    ensures r <= s
  {
    if |s| <= n then s else s[..n]
  }

  /** `components(separatedBy: "@").first!`: the text before the first '@' (all of it when there is none). */
  function BeforeFirst(s: string, sep: char): (r: string)
    ensures r <= s
    ensures sep !in r
    ensures |r| < |s| ==> s[|r|] == sep
  {
    if s == [] then []
    else if s[0] == sep then []
    else [s[0]] + BeforeFirst(s[1..], sep)
  }

  /** `w` occurs in `s` starting at index `i`. */
  predicate OccursAt(s: string, w: string, i: int)
  {
    0 <= i && i + |w| <= |s| && s[i..i + |w|] == w
  }

  /** Substring search, `s.contains(w)`. */
  function Contains(s: string, w: string): (r: bool)
    decreases |s|
    ensures r <==> exists i :: OccursAt(s, w, i)
  {
    if |s| < |w| then false
    else if s[..|w|] == w then assert OccursAt(s, w, 0); true
    else
      var r := Contains(s[1..], w);
      assert forall i :: OccursAt(s, w, i) && i > 0 ==> OccursAt(s[1..], w, i - 1);
      assert forall j :: OccursAt(s[1..], w, j) ==> OccursAt(s, w, j + 1);
      assert !OccursAt(s, w, 0);
      r
  }

  // ----- lemmas -----

  lemma LowerAppend(a: string, b: string)
    ensures Lower(a + b) == Lower(a) + Lower(b)
  {
    assert forall i :: 0 <= i < |a + b| ==> Lower(a + b)[i] == (Lower(a) + Lower(b))[i];
  }

  lemma LowerOfWhitespace(s: string)
    requires AllWhitespace(s)
    ensures Lower(s) == s
  {
  }

  lemma LowerUpper(s: string)
    ensures Lower(Upper(s)) == Lower(s)
  {
    assert forall i :: 0 <= i < |s| ==> LowerChar(UpperChar(s[i])) == LowerChar(s[i]);
  }

  lemma UpperLower(s: string)
    ensures Upper(Lower(s)) == Upper(s)
  {
    assert forall i :: 0 <= i < |s| ==> UpperChar(LowerChar(s[i])) == UpperChar(s[i]);
  }

  lemma LowerSlice(s: string, i: nat, j: nat)
    requires i <= j <= |s|
    ensures Lower(s)[i..j] == Lower(s[i..j])
  {
  }

  lemma {:induction false} TrimStartWhitespacePrefix(ws: string, s: string)
    requires AllWhitespace(ws)
    ensures TrimStart(ws + s) == TrimStart(s)
  {
    if ws != [] {
      assert (ws + s)[1..] == ws[1..] + s;
      TrimStartWhitespacePrefix(ws[1..], s);
    } else {
      assert ws + s == s;
    }
  }

  lemma {:induction false} TrimEndWhitespaceSuffix(s: string, ws: string)
    requires AllWhitespace(ws)
    ensures TrimEnd(s + ws) == TrimEnd(s)
  {
    if ws != [] {
      var n := |s + ws|;
      assert (s + ws)[..n - 1] == s + ws[..|ws| - 1];
      TrimEndWhitespaceSuffix(s, ws[..|ws| - 1]);
    } else {
      assert s + ws == s;
    }
  }

  lemma {:induction false} TrimStartAllWhitespace(s: string)
    requires AllWhitespace(s)
    ensures TrimStart(s) == []
  {
    if s != [] {
      TrimStartAllWhitespace(s[1..]);
    }
  }

  lemma {:induction false} TrimStartExtend(s: string, t: string)
    requires !AllWhitespace(s)
    ensures TrimStart(s + t) == TrimStart(s) + t
  {
    if IsWhitespace(s[0]) {
      assert (s + t)[1..] == s[1..] + t;
      TrimStartExtend(s[1..], t);
    }
  }

  /** Surrounding whitespace does not survive trimming. */
  lemma TrimIgnoresSurroundingWhitespace(ws1: string, s: string, ws2: string)
    requires AllWhitespace(ws1) && AllWhitespace(ws2)
    ensures Trim(ws1 + s + ws2) == Trim(s)
  {
    assert ws1 + s + ws2 == ws1 + (s + ws2);
    TrimStartWhitespacePrefix(ws1, s + ws2);
    if AllWhitespace(s) {
      assert AllWhitespace(s + ws2);
      TrimStartAllWhitespace(s + ws2);
      TrimStartAllWhitespace(s);
    } else {
      TrimStartExtend(s, ws2);
      TrimEndWhitespaceSuffix(TrimStart(s), ws2);
    }
  }

  /** A needle without upper-case letters found in `s` is also found in `lowercased(s)`. */
  lemma ContainsLowered(s: string, w: string)
    requires forall i :: 0 <= i < |w| ==> !IsUpper(w[i])
    requires Contains(s, w)
    ensures Contains(Lower(s), w)
  {
    var i :| OccursAt(s, w, i);
    var j := i + |w|;
    assert s[i..j] == w;
    LowerSlice(s, i, j);
    assert Lower(w) == w by {
      forall k | 0 <= k < |w| ensures Lower(w)[k] == w[k] {}
    }
    assert Lower(s)[i..j] == w;
    assert OccursAt(Lower(s), w, i);
  }

  /** Upper-casing leaves a string without lower-case letters alone. */
  lemma UpperWithoutLower(s: string)
    requires forall i :: 0 <= i < |s| ==> !IsLower(s[i])
    ensures Upper(s) == s
  {
  }

  /** The filter keeps a string made of letters and digits as it is. */
  lemma {:induction false} KeepAllLettersAndDigits(s: string)
    requires forall i :: 0 <= i < |s| ==> IsLetterOrDigit(s[i])
    ensures KeepLettersAndDigits(s) == s
  {
    if s != [] {
      KeepAllLettersAndDigits(s[1..]);
      assert [s[0]] + s[1..] == s;
    }
  }

  /** The filter keeps the order of what it keeps: it distributes over concatenation. */
  lemma {:induction false} KeepAppend(a: string, b: string)
    ensures KeepLettersAndDigits(a + b) == KeepLettersAndDigits(a) + KeepLettersAndDigits(b)
  {
    if a == [] {
      assert a + b == b;
    } else {
      assert (a + b)[0] == a[0];
      assert (a + b)[1..] == a[1..] + b;
      KeepAppend(a[1..], b);
    }
  }

  /** The first position of `c` in `s`. */
  function IndexOfChar(s: string, c: char): (i: nat)
    requires c in s
    ensures i < |s| && s[i] == c
  {
    if s[0] == c then 0 else 1 + IndexOfChar(s[1..], c)
  }
}

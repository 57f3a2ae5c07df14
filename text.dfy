/** Normalisation of a typed guess: the ASCII part of JavaScript's
    `String.prototype.trim()` and `String.prototype.toLowerCase()`, as the
    game applies them to the pending input before comparing it with the target. */
module Text {

  /** The ASCII characters `trim()` removes: tab, line feed, vertical tab,
      form feed, carriage return and space. */
  predicate IsSpace(c: char) {
    c == ' ' || c == '\t' || c == '\n' || c == '\r' || c == '\U{B}' || c == '\U{C}'
  }

  predicate IsUpper(c: char) {
    'A' <= c <= 'Z'
  }

  /** `toLowerCase()` on one ASCII character: upper-case letters move to
      their lower-case partner, every other character is left alone. */
  function LowerChar(c: char): (r: char)
    ensures !IsUpper(r)
    ensures IsUpper(c) ==> r as int == c as int + 32
    ensures !IsUpper(c) ==> r == c
  {
    if IsUpper(c) then (c as int + 32) as char else c
  }

  /** `s.toLowerCase()`: the same length, character by character, and no
      upper-case letter is left. */
  function ToLower(s: string): (r: string)
    ensures |r| == |s|
    ensures forall k :: 0 <= k < |s| ==> r[k] == LowerChar(s[k])
    ensures forall k :: 0 <= k < |r| ==> !IsUpper(r[k])
  {
    if s == [] then [] else [LowerChar(s[0])] + ToLower(s[1..])
  }

  /** Drops the leading whitespace. */
  function TrimStart(s: string): (r: string)
    ensures |r| <= |s|
  {
    if |s| > 0 && IsSpace(s[0]) then TrimStart(s[1..]) else s
  }

  /** Drops the trailing whitespace. */
  function TrimEnd(s: string): (r: string)
    ensures |r| <= |s|
  {
    if |s| > 0 && IsSpace(s[|s| - 1]) then TrimEnd(s[..|s| - 1]) else s
  }

  /** Neither starts nor ends with whitespace. */
  predicate IsTrimmed(s: string) {
    s == [] || (!IsSpace(s[0]) && !IsSpace(s[|s| - 1]))
  }

  /** How many leading characters `trim()` drops from `s`. */
  function TrimOffset(s: string): (i: nat)
    ensures i <= |s|
  {
    |s| - |TrimStart(s)|
  }

  /** `s.trim()`. */
  function Trim(s: string): (r: string)
    ensures |r| <= |s|
  {
    TrimEnd(TrimStart(s))
  }

  /** `TrimStart(s)` is a suffix of `s`, what it dropped is all whitespace,
      and it does not start with any. */
  lemma {:induction false} TrimStartSpec(s: string)
    ensures var r := TrimStart(s);
      r == s[|s| - |r|..] &&
      (forall k :: 0 <= k < |s| - |r| ==> IsSpace(s[k])) &&
      (r == [] || !IsSpace(r[0]))
  {
    if |s| > 0 && IsSpace(s[0]) {
      TrimStartSpec(s[1..]);
      var r := TrimStart(s);
      forall k | 0 <= k < |s| - |r|
        ensures IsSpace(s[k])
      {
        if k > 0 {
          assert s[k] == s[1..][k - 1];
        }
      }
    }
  }

  /** `TrimEnd(s)` is a prefix of `s`, what it dropped is all whitespace,
      and it does not end with any. */
  lemma {:induction false} TrimEndSpec(s: string)
    ensures var r := TrimEnd(s);
      r == s[..|r|] &&
      (forall k :: |r| <= k < |s| ==> IsSpace(s[k])) &&
      (r == [] || !IsSpace(r[|r| - 1]))
  {
    if |s| > 0 && IsSpace(s[|s| - 1]) {
      var p := s[..|s| - 1];
      TrimEndSpec(p);
      var r := TrimEnd(s);
      forall k | |r| <= k < |s|
        ensures IsSpace(s[k])
      {
        if k < |s| - 1 {
          assert s[k] == p[k];
        }
      }
    }
  }

  /** `s.trim()` is the slice of `s` that starts at `TrimOffset(s)`. */
  lemma TrimIsSlice(s: string)
    ensures TrimOffset(s) + |Trim(s)| <= |s|
    ensures Trim(s) == s[TrimOffset(s)..TrimOffset(s) + |Trim(s)|]
  {
    var u := TrimStart(s);
    TrimStartSpec(s);
    TrimEndSpec(u);
    assert u == s[TrimOffset(s)..];
  }

  /** `s.trim()` neither starts nor ends with whitespace. */
  lemma TrimIsTrimmed(s: string)
    ensures IsTrimmed(Trim(s))
  {
    var u := TrimStart(s);
    TrimStartSpec(s);
    TrimEndSpec(u);
    var r := Trim(s);
    if r != [] {
      assert r[0] == u[0];
    }
  }

  /** What `s.trim()` drops, on either side, is whitespace. */
  lemma TrimDropsOnlySpace(s: string)
    ensures forall k :: 0 <= k < TrimOffset(s) ==> IsSpace(s[k])
    ensures forall k :: TrimOffset(s) + |Trim(s)| <= k < |s| ==> IsSpace(s[k])
  {
    var u := TrimStart(s);
    var i := TrimOffset(s);
    TrimStartSpec(s);
    TrimEndSpec(u);
    forall k | i + |Trim(s)| <= k < |s|
      ensures IsSpace(s[k])
    {
      assert s[k] == u[k - i];
    }
  }

  /** The guess as the game stores it: `currentGuess.toLowerCase().trim()`. */
  function Normalise(s: string): string {
    Trim(ToLower(s))
  }

  /** A word that can appear in the guess history: non-empty, trimmed and
      free of upper-case letters. */
  predicate IsGuessWord(g: string) {
    g != [] && IsTrimmed(g) && forall k :: 0 <= k < |g| ==> !IsUpper(g[k])
  }

  lemma {:induction false} TrimStartAllSpace(s: string)
    ensures TrimStart(s) == [] <==> forall k :: 0 <= k < |s| ==> IsSpace(s[k])
  {
    if |s| > 0 && IsSpace(s[0]) {
      TrimStartAllSpace(s[1..]);
      if forall k :: 0 <= k < |s[1..]| ==> IsSpace(s[1..][k]) {
        forall k | 0 <= k < |s| ensures IsSpace(s[k]) {
          if k > 0 { assert s[k] == s[1..][k - 1]; }
        }
      }
    }
  }

  /** `trim()` yields the empty string exactly when the input is all whitespace. */
  lemma TrimEmptyIffBlank(s: string)
    ensures Trim(s) == [] <==> forall k :: 0 <= k < |s| ==> IsSpace(s[k])
  {
    var u := TrimStart(s);
    TrimStartAllSpace(s);
    TrimStartSpec(s);
    TrimEndSpec(u);
  }

  lemma LowerCharKeepsSpace(c: char)
    ensures IsSpace(LowerChar(c)) <==> IsSpace(c)
  {
  }

  /** Trimming a trimmed string changes nothing. */
  lemma TrimOfTrimmed(s: string)
    requires IsTrimmed(s)
    ensures Trim(s) == s
  {
    assert TrimStart(s) == s;
  }

  /** Lower-casing a string that has no upper-case letter changes nothing. */
  lemma {:induction false} ToLowerOfLower(s: string)
    requires forall k :: 0 <= k < |s| ==> !IsUpper(s[k])
    ensures ToLower(s) == s
  {
    if s != [] {
      ToLowerOfLower(s[1..]);
    }
  }

  /** The emptiness test the game applies to the raw input (`trim()` only)
      agrees with the emptiness of the normalised guess. */
  lemma NormaliseEmptyIffTrimEmpty(s: string)
    ensures Normalise(s) == [] <==> Trim(s) == []
  {
    var l := ToLower(s);
    TrimEmptyIffBlank(s);
    TrimEmptyIffBlank(l);
    forall k | 0 <= k < |s| ensures IsSpace(l[k]) <==> IsSpace(s[k]) {
      LowerCharKeepsSpace(s[k]);
    }
  }

  /** Trimming keeps a string free of upper-case letters. */
  lemma TrimKeepsLower(l: string)
    requires forall k :: 0 <= k < |l| ==> !IsUpper(l[k])
    ensures forall k :: 0 <= k < |Trim(l)| ==> !IsUpper(Trim(l)[k])
  {
    var t, i := Trim(l), TrimOffset(l);
    TrimIsSlice(l);
    forall k | 0 <= k < |t| ensures !IsUpper(t[k]) {
      assert t[k] == l[i + k];
    }
  }

  /** A guess word is its own normal form. */
  lemma GuessWordIsNormal(g: string)
    requires IsGuessWord(g)
    ensures Normalise(g) == g
  {
    ToLowerOfLower(g);
    TrimOfTrimmed(g);
  }

  /** Whatever the player typed, once it is not blank its normalised form is
      a guess word. */
  lemma NormaliseGivesGuessWord(s: string)
    requires Trim(s) != []
    ensures IsGuessWord(Normalise(s))
  {
    NormaliseEmptyIffTrimEmpty(s);
    TrimIsTrimmed(ToLower(s));
    TrimKeepsLower(ToLower(s));
  }

  /** Normalising twice is normalising once. */
  lemma NormaliseIdempotent(s: string)
    ensures Normalise(Normalise(s)) == Normalise(s)
  {
    var t := Normalise(s);
    TrimIsTrimmed(ToLower(s));
    TrimKeepsLower(ToLower(s));
    ToLowerOfLower(t);
    TrimOfTrimmed(t);
  }
}

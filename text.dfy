/** The string operations the user and currency code relies on: Java's
    toLowerCase, trim and equalsIgnoreCase, restricted to ASCII letters. */
module Text {

  predicate IsUpper(c: char) {
    'A' <= c <= 'Z'
  }

  /** Java's String.trim removes every leading and trailing character whose
      code is at most that of the space character. */
  predicate IsBlank(c: char) {
    c <= ' '
  }

  function ToLowerChar(c: char): (r: char)
    ensures !IsUpper(r)
    ensures IsBlank(r) <==> IsBlank(c)
    ensures !IsUpper(c) ==> r == c
  {
    if IsUpper(c) then (c as int + 32) as char else c
  }

  function ToLower(s: string): (r: string)
    ensures |r| == |s|
    ensures forall i :: 0 <= i < |s| ==> r[i] == ToLowerChar(s[i])
  {
    seq(|s|, i requires 0 <= i < |s| => ToLowerChar(s[i]))
  }

  /** Lower-casing a lower-cased string changes nothing. */
  lemma ToLowerIdempotent(s: string)
    ensures ToLower(ToLower(s)) == ToLower(s)
  {
  }

  /** The lower-case form of a slice is the slice of the lower-case form. */
  lemma ToLowerSlice(s: string, i: nat, j: nat)
    requires i <= j <= |s|
    ensures ToLower(s)[i..j] == ToLower(s[i..j])
  {
  }

  /** The part of `s` after its leading blanks. */
  function TrimStart(s: string): (r: string)
    ensures |r| <= |s| && r == s[|s| - |r|..]
    ensures forall i :: 0 <= i < |s| - |r| ==> IsBlank(s[i])
    ensures r == [] || !IsBlank(r[0])
  {
    if s != [] && IsBlank(s[0]) then TrimStart(s[1..]) else s
  }

  /** The part of `s` before its trailing blanks. */
  function TrimEnd(s: string): (r: string)
    ensures |r| <= |s| && r == s[..|r|]
    ensures forall i :: |r| <= i < |s| ==> IsBlank(s[i])
    ensures r == [] || !IsBlank(r[|r| - 1])
  {
    if s != [] && IsBlank(s[|s| - 1]) then TrimEnd(s[..|s| - 1]) else s
  }

  /** Java's String.trim: the longest slice of `s` that neither starts nor
      ends with a blank, everything outside it being blank. */
  function Trim(s: string): (r: string)
    ensures exists i, j ::
              && 0 <= i <= j <= |s| && r == s[i..j]
              && (forall k :: 0 <= k < i ==> IsBlank(s[k]))
              && (forall k :: j <= k < |s| ==> IsBlank(s[k]))
    ensures r == [] || (!IsBlank(r[0]) && !IsBlank(r[|r| - 1]))
  {
    var t := TrimStart(s);
    var r := TrimEnd(t);
    var i := |s| - |t|;
    assert r == s[i..i + |r|];
    r
  }

  /** Trimming a trimmed string changes nothing. */
  lemma TrimIdempotent(s: string)
    ensures Trim(Trim(s)) == Trim(s)
  {
    var r := Trim(s);
    if r != [] {
      assert TrimStart(r) == r;
      assert TrimEnd(r) == r;
    }
  }

  lemma {:induction false} TrimStartToLower(s: string)
    ensures TrimStart(ToLower(s)) == ToLower(TrimStart(s))
    decreases |s|
  {
    if s != [] && IsBlank(s[0]) {
      assert ToLower(s)[1..] == ToLower(s[1..]);
      TrimStartToLower(s[1..]);
    }
  }

  lemma {:induction false} TrimEndToLower(s: string)
    ensures TrimEnd(ToLower(s)) == ToLower(TrimEnd(s))
    decreases |s|
  {
    if s != [] && IsBlank(s[|s| - 1]) {
      assert ToLower(s)[..|s| - 1] == ToLower(s[..|s| - 1]);
      TrimEndToLower(s[..|s| - 1]);
    }
  }

  /** Lower-casing and trimming can be done in either order. */
  lemma TrimToLowerCommute(s: string)
    ensures Trim(ToLower(s)) == ToLower(Trim(s))
  {
    TrimStartToLower(s);
    TrimEndToLower(TrimStart(s));
  }

  /** A trailing blank after an unpadded string is trimmed away. */
  lemma NormalizeTrailingBlank(s: string)
    requires s != [] && !IsBlank(s[0]) && !IsBlank(s[|s| - 1])
    ensures Normalize(s + " ") == ToLower(s)
  {
    var l := ToLower(s);
    var padded := l + " ";
    assert ToLower(s + " ") == padded;
    assert TrimStart(padded) == padded;
    assert padded[..|padded| - 1] == l;
    assert TrimEnd(padded) == TrimEnd(l) == l;
  }

  /** Trimming a string without upper-case letters leaves none. */
  lemma TrimNoUpper(s: string)
    requires forall k :: 0 <= k < |s| ==> !IsUpper(s[k])
    ensures forall k :: 0 <= k < |Trim(s)| ==> !IsUpper(Trim(s)[k])
  {
    var t := TrimStart(s);
    var r := TrimEnd(t);
    assert Trim(s) == r;
    NoUpperSlice(s, |s| - |t|, |s|);
    NoUpperSlice(t, 0, |r|);
  }

  lemma NoUpperSlice(s: string, i: nat, j: nat)
    requires i <= j <= |s|
    requires forall k :: 0 <= k < |s| ==> !IsUpper(s[k])
    ensures forall k :: 0 <= k < j - i ==> !IsUpper(s[i..j][k])
  {
    forall k | 0 <= k < j - i
      ensures !IsUpper(s[i..j][k])
    {
      assert s[i..j][k] == s[i + k];
    }
  }

  /** The normal form of user names and e-mail addresses:
      `s.toLowerCase().trim()`. */
  function Normalize(s: string): (r: string)
    ensures |r| <= |s|
    ensures forall i :: 0 <= i < |r| ==> !IsUpper(r[i])
    ensures r == [] || (!IsBlank(r[0]) && !IsBlank(r[|r| - 1]))
  {
    TrimNoUpper(ToLower(s));
    Trim(ToLower(s))
  }

  /** A string that neither starts nor ends with a blank normalises to its
      lower-case form: there is nothing to trim. */
  lemma NormalizeUnpadded(s: string)
    requires s != [] ==> !IsBlank(s[0]) && !IsBlank(s[|s| - 1])
    ensures Normalize(s) == ToLower(s)
  {
    var l := ToLower(s);
    assert TrimStart(l) == l;
    assert TrimEnd(l) == l;
  }

  /** Normalising a normalised string changes nothing, so a stored name
      and its normalised lookup key agree. */
  lemma NormalizeIdempotent(s: string)
    ensures Normalize(Normalize(s)) == Normalize(s)
  {
    var l := ToLower(s);
    TrimToLowerCommute(Trim(l));
    ToLowerIdempotent(s);
    TrimIdempotent(l);
  }

  /** Java's equalsIgnoreCase over ASCII: same length, and the characters
      at every position agree once lower-cased. */
  predicate EqualsIgnoreCase(a: string, b: string) {
    |a| == |b| && forall i :: 0 <= i < |a| ==> ToLowerChar(a[i]) == ToLowerChar(b[i])
  }

  /** Two strings are equal ignoring case exactly when their lower-case
      forms are equal. */
  lemma EqualsIgnoreCaseIffLower(a: string, b: string)
    ensures EqualsIgnoreCase(a, b) <==> ToLower(a) == ToLower(b)
  {
    if ToLower(a) == ToLower(b) {
      forall i | 0 <= i < |a|
        ensures ToLowerChar(a[i]) == ToLowerChar(b[i])
      {
        assert ToLower(a)[i] == ToLower(b)[i];
      }
    }
  }
}

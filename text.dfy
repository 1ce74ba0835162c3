/** Whitespace trimming as done by JavaScript's String.prototype.trim, which the
    text handler applies to every incoming message before using it. */
module JsText {

  /** The code points ECMAScript counts as WhiteSpace or LineTerminator: tab,
      line feed, vertical tab, form feed, carriage return, the byte order mark,
      the line and paragraph separators and the space separators (category Zs). */
  predicate IsWhiteSpace(c: char) {
    || c == '\t' || c == '\n' || c == '\U{000B}' || c == '\U{000C}' || c == '\r'
    || c == ' ' || c == '\U{00A0}' || c == '\U{1680}'
    || ('\U{2000}' <= c <= '\U{200A}')
    || c == '\U{2028}' || c == '\U{2029}' || c == '\U{202F}' || c == '\U{205F}'
    || c == '\U{3000}' || c == '\U{FEFF}'
  }

  /** Neither starts nor ends with whitespace. */
  predicate IsTrimmed(s: string) {
    s == [] || (!IsWhiteSpace(s[0]) && !IsWhiteSpace(s[|s| - 1]))
  }

  /** Drops the leading whitespace. */
  function TrimStart(s: string): string {
    if |s| > 0 && IsWhiteSpace(s[0]) then TrimStart(s[1..]) else s
  }

  /** Drops the trailing whitespace. */
  function TrimEnd(s: string): string {
    if |s| > 0 && IsWhiteSpace(s[|s| - 1]) then TrimEnd(s[..|s| - 1]) else s
  }

  /** String.prototype.trim: the result starts and ends with no whitespace. */
  function Trim(s: string): (r: string)
    ensures IsTrimmed(r) && |r| <= |s|
  {
    TrimStartSuffix(s);
    TrimEndPrefix(TrimStart(s));
    var t := TrimStart(s);
    var r := TrimEnd(t);
    assert r != [] ==> r[0] == t[0];
    r
  }

  /** TrimStart gives the suffix of `s` that starts at its first
      non-whitespace character. */
  lemma {:induction false} TrimStartSuffix(s: string)
    ensures var r := TrimStart(s);
      && |r| <= |s| && r == s[|s| - |r|..]
      && (forall i :: 0 <= i < |s| - |r| ==> IsWhiteSpace(s[i]))
      && (r == [] || !IsWhiteSpace(r[0]))
  {
    if |s| > 0 && IsWhiteSpace(s[0]) {
      TrimStartSuffix(s[1..]);
      var r := TrimStart(s);
      forall i | 0 < i < |s| - |r| ensures IsWhiteSpace(s[i]) {
        assert s[i] == s[1..][i - 1];
      }
    }
  }

  /** TrimEnd gives the prefix of `s` that ends at its last non-whitespace
      character. */
  lemma {:induction false} TrimEndPrefix(s: string)
    ensures var r := TrimEnd(s);
      && |r| <= |s| && r == s[..|r|]
      && (forall i :: |r| <= i < |s| ==> IsWhiteSpace(s[i]))
      && (r == [] || !IsWhiteSpace(r[|r| - 1]))
  {
    if |s| > 0 && IsWhiteSpace(s[|s| - 1]) {
      TrimEndPrefix(s[..|s| - 1]);
      var r := TrimEnd(s);
      forall i | |r| <= i < |s| - 1 ensures IsWhiteSpace(s[i]) {
        assert s[i] == s[..|s| - 1][i];
      }
    }
  }

  /** `s[i..j]` has no whitespace at its ends and only whitespace around it. */
  ghost predicate TrimmedAt(s: string, i: int, j: int) {
    && 0 <= i <= j <= |s|
    && IsTrimmed(s[i..j])
    && (forall k :: 0 <= k < i ==> IsWhiteSpace(s[k]))
    && (forall k :: j <= k < |s| ==> IsWhiteSpace(s[k]))
  }

  /** `r` is `s` with some whitespace removed at both ends and none left there:
      a declarative description of trimming, independent of how Trim computes it. */
  ghost predicate IsTrimOf(r: string, s: string) {
    exists i, j :: TrimmedAt(s, i, j) && r == s[i..j]
  }

  /** Trim removes only whitespace, only at the ends, and all of it there. */
  lemma TrimIsTrimOf(s: string)
    ensures IsTrimOf(Trim(s), s)
  {
    TrimStartSuffix(s);
    var t := TrimStart(s);
    TrimEndPrefix(t);
    var i := |s| - |t|;
    var j := i + |Trim(s)|;
    assert Trim(s) == t[..|Trim(s)|] == s[i..j];
    forall k | j <= k < |s| ensures IsWhiteSpace(s[k]) {
      assert s[k] == t[k - i];
    }
    assert TrimmedAt(s, i, j);
  }

  /** Where some trim of `s` is non-empty, its position in `s` is fixed. */
  lemma TrimmedAtUnique(s: string, i1: int, j1: int, i2: int, j2: int)
    requires TrimmedAt(s, i1, j1) && TrimmedAt(s, i2, j2) && i1 < j1
    ensures i1 == i2 && j1 == j2
  {
    assert s[i1..j1][0] == s[i1] && s[i1..j1][j1 - i1 - 1] == s[j1 - 1];
    assert !IsWhiteSpace(s[i1]) && !IsWhiteSpace(s[j1 - 1]);
    assert i2 <= i1 && j1 <= j2;
    assert s[i2..j2][0] == s[i2] && s[i2..j2][j2 - i2 - 1] == s[j2 - 1];
    assert !IsWhiteSpace(s[i2]) && !IsWhiteSpace(s[j2 - 1]);
  }

  /** Two trims of the same string are the same string. */
  lemma TrimOfUnique(r1: string, r2: string, s: string)
    requires IsTrimOf(r1, s) && IsTrimOf(r2, s)
    ensures r1 == r2
  {
    var i1, j1 :| TrimmedAt(s, i1, j1) && r1 == s[i1..j1];
    var i2, j2 :| TrimmedAt(s, i2, j2) && r2 == s[i2..j2];
    if i1 < j1 {
      TrimmedAtUnique(s, i1, j1, i2, j2);
    } else if i2 < j2 {
      TrimmedAtUnique(s, i2, j2, i1, j1);
    }
  }

  /** Trim is exactly the declarative trim: both directions. */
  lemma TrimCharacterized(r: string, s: string)
    ensures IsTrimOf(r, s) <==> r == Trim(s)
  {
    TrimIsTrimOf(s);
    if IsTrimOf(r, s) {
      TrimOfUnique(r, Trim(s), s);
    }
  }

  /** Trimming a string that has no whitespace at its ends changes nothing;
      in particular trimming twice is trimming once. */
  lemma TrimIdempotent(s: string)
    ensures IsTrimmed(s) ==> Trim(s) == s
    ensures Trim(Trim(s)) == Trim(s)
  {
    var t := Trim(s);
    assert t == t[0..|t|] && TrimmedAt(t, 0, |t|);
    TrimCharacterized(t, t);
    if IsTrimmed(s) {
      assert s == s[0..|s|] && TrimmedAt(s, 0, |s|);
      TrimCharacterized(s, s);
    }
  }
}

/**
 * The two string operations the program applies to every phrase it reads:
 * Python's `str.strip()` (with no argument) and `str.lower()`.
 *
 * `Strip` removes exactly the characters Python's `str.isspace` accepts.
 * `Lower` maps the ASCII and Latin-1 upper-case letters to lower case, which covers
 * every phrase in the command, synonym and city-alias tables (including "méxico").
 */
module Text {

  /** The characters Python 3's `str.isspace` accepts. */
  predicate IsSpace(c: char) {
    c == ' ' || ('\t' <= c <= '\r') || ('\U{1C}' <= c <= '\U{1F}')
    || c == '\U{85}' || c == '\U{A0}' || c == '\U{1680}'
    || ('\U{2000}' <= c <= '\U{200A}') || c == '\U{2028}' || c == '\U{2029}'
    || c == '\U{202F}' || c == '\U{205F}' || c == '\U{3000}'
  }

  /** ASCII and Latin-1 upper-case letters (the multiplication sign U+00D7 is not a letter). */
  predicate IsUpper(c: char) {
    ('A' <= c <= 'Z') || ('\U{C0}' <= c <= '\U{DE}' && c != '\U{D7}')
  }

  function LowerChar(c: char): (d: char)
    ensures !IsUpper(d)
    ensures IsUpper(c) || d == c
    ensures IsSpace(d) == IsSpace(c)
  {
    if IsUpper(c) then (c as int + 32) as char else c
  }

  /** `s.lower()`: the same characters, each mapped on its own. */
  function Lower(s: string): string {
    seq(|s|, i requires 0 <= i < |s| => LowerChar(s[i]))
  }

  /** `s.lstrip()`: drops the longest all-space prefix. */
  function TrimLeft(s: string): string
    decreases |s|
  {
    if |s| > 0 && IsSpace(s[0]) then TrimLeft(s[1..]) else s
  }

  /** `s.rstrip()`: drops the longest all-space suffix. */
  function TrimRight(s: string): string
    decreases |s|
  {
    if |s| > 0 && IsSpace(s[|s| - 1]) then TrimRight(s[..|s| - 1]) else s
  }

  /** `s.strip()` */
  function Strip(s: string): string {
    TrimRight(TrimLeft(s))
  }

  /** What `lstrip` leaves is a suffix that starts with a non-space; everything before it is space. */
  lemma {:induction false} TrimLeftShape(s: string)
    ensures var t := TrimLeft(s);
      |t| <= |s| && t == s[|s| - |t|..] && (t != [] ==> !IsSpace(t[0]))
      && (forall i :: 0 <= i < |s| - |t| ==> IsSpace(s[i]))
    decreases |s|
  {
    if |s| > 0 && IsSpace(s[0]) {
      TrimLeftShape(s[1..]);
    }
  }

  /** What `rstrip` leaves is a prefix that ends with a non-space; everything after it is space. */
  lemma {:induction false} TrimRightShape(s: string)
    ensures var t := TrimRight(s);
      |t| <= |s| && t == s[..|t|] && (t != [] ==> !IsSpace(t[|t| - 1]))
      && (forall i :: |t| <= i < |s| ==> IsSpace(s[i]))
    decreases |s|
  {
    if |s| > 0 && IsSpace(s[|s| - 1]) {
      TrimRightShape(s[..|s| - 1]);
    }
  }

  /**
   * `s.strip()` is the slice of `s` left after removing the spaces at both ends;
   * it starts and ends with a non-space character, and everything cut off is space.
   */
  lemma StripShape(s: string)
    ensures var t := Strip(s);
      t == [] || (!IsSpace(t[0]) && !IsSpace(t[|t| - 1]))
    ensures |TrimLeft(s)| <= |s|
    ensures var t, k := Strip(s), |s| - |TrimLeft(s)|;
      k + |t| <= |s| && t == s[k..k + |t|]
      && (forall i :: 0 <= i < k ==> IsSpace(s[i]))
      && (forall i :: k + |t| <= i < |s| ==> IsSpace(s[i]))
  {
    var l := TrimLeft(s);
    TrimLeftShape(s);
    TrimRightShape(l);
    var t := TrimRight(l);
    var k := |s| - |l|;
    if t != [] {
      assert t[0] == l[0];
    }
    assert t == s[k..k + |t|];
    forall i | k + |t| <= i < |s| ensures IsSpace(s[i]) {
      assert s[i] == l[i - k];
    }
  }

  /** `s.strip().lower()`, the form in which every phrase is compared. */
  function StripLower(s: string): string {
    Lower(Strip(s))
  }

  predicate NoUpper(s: string) {
    forall c | c in s :: !IsUpper(c)
  }

  predicate EndsNotSpace(s: string) {
    s == [] || (!IsSpace(s[0]) && !IsSpace(s[|s| - 1]))
  }

  /** A phrase that `strip().lower()` leaves as it is. */
  predicate IsNormalForm(s: string) {
    NoUpper(s) && EndsNotSpace(s)
  }

  lemma StripKeepsTrimmed(s: string)
    requires EndsNotSpace(s)
    ensures Strip(s) == s
  {
    if s != [] {
      assert TrimLeft(s) == s;
    }
  }

  /** Stripping twice is the same as stripping once. */
  lemma StripIdempotent(s: string)
    ensures Strip(Strip(s)) == Strip(s)
  {
    StripShape(s);
    StripKeepsTrimmed(Strip(s));
  }

  lemma LowerKeepsLowered(s: string)
    requires NoUpper(s)
    ensures Lower(s) == s
  {
    forall i | 0 <= i < |s| ensures Lower(s)[i] == s[i] {
      assert s[i] in s;
    }
  }

  /** A phrase is in normal form exactly when `strip().lower()` does not change it. */
  lemma NormalFormIsFixedPoint(s: string)
    ensures IsNormalForm(s) <==> StripLower(s) == s
  {
    if IsNormalForm(s) {
      StripKeepsTrimmed(s);
      LowerKeepsLowered(s);
    }
    if StripLower(s) == s {
      var t := Strip(s);
      StripShape(s);
      forall c | c in s ensures !IsUpper(c) {
        var i :| 0 <= i < |s| && s[i] == c;
        assert c == LowerChar(t[i]);
      }
      if s != [] {
        assert s[0] == LowerChar(t[0]);
        assert s[|s| - 1] == LowerChar(t[|t| - 1]);
      }
    }
  }

  /** Whatever `strip().lower()` returns is in normal form. */
  lemma StripLowerIsNormal(s: string)
    ensures IsNormalForm(StripLower(s))
  {
    var t := Strip(s);
    StripShape(s);
    var r := Lower(t);
    forall c | c in r ensures !IsUpper(c) {
      var i :| 0 <= i < |r| && r[i] == c;
    }
    if r != [] {
      assert r[0] == LowerChar(t[0]);
      assert r[|r| - 1] == LowerChar(t[|t| - 1]);
    }
  }

  /** Applying `strip().lower()` twice is the same as applying it once. */
  lemma StripLowerIdempotent(s: string)
    ensures StripLower(StripLower(s)) == StripLower(s)
  {
    StripLowerIsNormal(s);
    NormalFormIsFixedPoint(StripLower(s));
  }

  /** Only `""` and all-space input strip to the empty phrase. */
  lemma StripEmptyIffAllSpace(s: string)
    ensures Strip(s) == [] <==> forall i :: 0 <= i < |s| ==> IsSpace(s[i])
  {
    StripShape(s);
    if forall i :: 0 <= i < |s| ==> IsSpace(s[i]) {
      if Strip(s) != [] {
        var k := |s| - |TrimLeft(s)|;
        assert Strip(s)[0] == s[k];
      }
    }
  }
}

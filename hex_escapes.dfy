/**
 * The pre-decoding clean-up of a raw log line: every occurrence of a
 * backslash, an `x` and two upper-case hexadecimal digits is replaced by a
 * single `?` (the pattern `\\x[0-9A-F]{2}`), scanning left to right and
 * never overlapping matches, as a regular-expression ReplaceAll does.
 */
module HexEscapes {

  predicate IsUpperHex(c: char) {
    '0' <= c <= '9' || 'A' <= c <= 'F'
  }

  /** An escape sequence starts at index `i` of `s`. */
  predicate EscapeAt(s: string, i: int) {
    0 <= i && i + 4 <= |s| &&
    s[i] == '\\' && s[i + 1] == 'x' && IsUpperHex(s[i + 2]) && IsUpperHex(s[i + 3])
  }

  predicate HasEscape(s: string) {
    exists i :: 0 <= i < |s| && EscapeAt(s, i)
  }

  function NormaliseHex(s: string): (r: string)
    ensures |r| <= |s|
    decreases |s|
  {
    if EscapeAt(s, 0) then "?" + NormaliseHex(s[4..])
    else if s == [] then []
    else [s[0]] + NormaliseHex(s[1..])
  }

  /** The first character of a normalised text is either the replacement of a leading escape or the leading character itself. */
  lemma FirstChar(s: string)
    ensures NormaliseHex(s) != [] ==>
      (EscapeAt(s, 0) && NormaliseHex(s)[0] == '?') ||
      (!EscapeAt(s, 0) && s != [] && NormaliseHex(s) == [s[0]] + NormaliseHex(s[1..]))
  {
  }

  /** The replacement cannot complete an escape sequence with the characters around it. */
  lemma NoEscapeAtStart(s: string)
    ensures !EscapeAt(NormaliseHex(s), 0)
  {
    if |s| >= 4 {
      FirstChar(s);
      FirstChar(s[1..]);
      assert s[1..][1..] == s[2..];
      FirstChar(s[2..]);
      assert s[2..][1..] == s[3..];
      FirstChar(s[3..]);
    }
  }

  /** The result holds no escape sequence: the replacement never creates a new match. */
  lemma {:induction false} NoEscapeLeft(s: string)
    ensures !HasEscape(NormaliseHex(s))
    decreases |s|
  {
    var r := NormaliseHex(s);
    if EscapeAt(s, 0) {
      var rest := NormaliseHex(s[4..]);
      NoEscapeLeft(s[4..]);
      forall i | EscapeAt(r, i) ensures false {
        assert i > 0 && EscapeAt(rest, i - 1);
      }
    } else if s != [] {
      var rest := NormaliseHex(s[1..]);
      NoEscapeLeft(s[1..]);
      forall i | EscapeAt(r, i) ensures false {
        if i == 0 {
          NoEscapeAtStart(s);
        } else {
          assert EscapeAt(rest, i - 1);
        }
      }
    }
  }

  /** Text without any escape sequence is returned unchanged. */
  lemma {:induction false} NoEscapeUnchanged(s: string)
    requires !HasEscape(s)
    ensures NormaliseHex(s) == s
    decreases |s|
  {
    assert !EscapeAt(s, 0);
    if s != [] {
      forall i | EscapeAt(s[1..], i) ensures false {
        assert EscapeAt(s, i + 1);
      }
      NoEscapeUnchanged(s[1..]);
    }
  }

  /** Normalising twice is normalising once. */
  lemma Idempotent(s: string)
    ensures NormaliseHex(NormaliseHex(s)) == NormaliseHex(s)
  {
    NoEscapeLeft(s);
    NoEscapeUnchanged(NormaliseHex(s));
  }

  /** A sequence is replaced exactly when both digits are upper-case hexadecimal. */
  lemma LowerCaseDigitsNotMatched(h1: char, h2: char)
    ensures NormaliseHex(['\\', 'x', h1, h2]) == if IsUpperHex(h1) && IsUpperHex(h2) then "?" else ['\\', 'x', h1, h2]
  {
    var s := ['\\', 'x', h1, h2];
    if !(IsUpperHex(h1) && IsUpperHex(h2)) {
      assert !EscapeAt(s, 0);
      NoEscapeUnchanged(s);
    } else {
      assert EscapeAt(s, 0);
      assert s[4..] == [];
    }
  }
}

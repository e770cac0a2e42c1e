/** Text primitives the crawlers use: Python's `in` on strings, `str.lower()`, `str.startswith`,
    and the character classes behind the regex escapes `\d`, `\w` and `\s`.

    Characters are modelled within Latin-1 (U+0000..U+00FF), which covers Portuguese text;
    outside that range `Lower` leaves a character unchanged and `IsWordChar` rejects it. */
module Strings {

  /** Python's `s.startswith(prefix)`. */
  predicate StartsWith(s: string, prefix: string)
  {
    |prefix| <= |s| && s[..|prefix|] == prefix
  }

  /** `sub` occurs in `s` starting at index `i`. */
  predicate OccursAt(s: string, sub: string, i: nat)
  {
    i + |sub| <= |s| && s[i..i + |sub|] == sub
  }

  /** Python's `sub in s`. */
  predicate Contains(s: string, sub: string)
  {
    exists i: nat | i <= |s| :: OccursAt(s, sub, i)
  }

  /** Python's `any(w in s for w in words)`, word by word. */
  predicate ContainsAny(s: string, words: seq<string>)
  {
    words != [] && (Contains(s, words[0]) || ContainsAny(s, words[1..]))
  }

  /** `any` holds exactly when some word is contained. */
  lemma {:induction false} ContainsAnyIff(s: string, words: seq<string>)
    ensures ContainsAny(s, words) <==> exists w | w in words :: Contains(s, w)
  {
    if words != [] {
      ContainsAnyIff(s, words[1..]);
      assert forall w | w in words[1..] :: w in words;
      assert words == [words[0]] + words[1..];
    }
  }

  /** Python's `sum(1 for w in words if w in s)`. */
  function CountContained(s: string, words: seq<string>): (n: nat)
    ensures n <= |words|
    ensures n > 0 <==> ContainsAny(s, words)
  {
    if words == [] then 0
    else
      (if Contains(s, words[0]) then 1 else 0) + CountContained(s, words[1..])
  }

  /** A string contains itself at every position where it is a prefix. */
  lemma PrefixContained(s: string, prefix: string)
    requires StartsWith(s, prefix)
    ensures Contains(s, prefix)
  {
    assert OccursAt(s, prefix, 0);
  }

  /** Every character of a contained string occurs in the containing one. */
  lemma ContainedChars(s: string, sub: string)
    requires Contains(s, sub)
    ensures forall c | c in sub :: c in s
  {
    var i: nat :| i <= |s| && OccursAt(s, sub, i);
    forall c | c in sub ensures c in s {
      var k :| 0 <= k < |sub| && sub[k] == c;
      assert s[i + k] == c;
    }
  }

  /** What occurs in a prefix of `s` also occurs in `s`. */
  lemma ContainsInPrefix(s: string, n: nat, sub: string)
    requires n <= |s| && Contains(s[..n], sub)
    ensures Contains(s, sub)
  {
    var i: nat :| i <= n && OccursAt(s[..n], sub, i);
    assert s[i..i + |sub|] == s[..n][i..i + |sub|];
    assert OccursAt(s, sub, i);
  }

  // ---- character classes (Python `str` regex semantics, Latin-1 range) ----

  /** `[0-9]`; within Latin-1 this is also exactly Python's `\d`. */
  predicate IsDigit(c: char)
  {
    '0' <= c <= '9'
  }

  /** `[A-Z]`. */
  predicate IsUpper(c: char)
  {
    'A' <= c <= 'Z'
  }

  /** `[a-z]`. */
  predicate IsLowerAscii(c: char)
  {
    'a' <= c <= 'z'
  }

  /** Python's `\s`: the characters for which `str.isspace()` holds. */
  predicate IsSpace(c: char)
  {
    c == '\t' || c == '\n' || c == '\U{B}' || c == '\U{C}' || c == '\r'
    || ('\U{1C}' <= c <= '\U{1F}') || c == ' ' || c == '\U{85}' || c == '\U{A0}'
  }

  /** Python's `\w`: `str.isalnum()` or the underscore. */
  predicate IsWordChar(c: char)
  {
    IsDigit(c) || IsUpper(c) || IsLowerAscii(c) || c == '_'
    || c == 'ª' || c == '²' || c == '³' || c == 'µ' || c == '¹'
    || c == 'º' || ('¼' <= c <= '¾')
    || ('À' <= c <= 'Ö') || ('Ø' <= c <= 'ö') || ('ø' <= c <= 'ÿ')
  }

  /** Python's `str.lower()` on one character. */
  function LowerChar(c: char): (d: char)
    ensures IsWordChar(d) == IsWordChar(c)
    ensures IsSpace(d) == IsSpace(c)
    ensures !IsUpper(d)
  {
    if IsUpper(c) || ('À' <= c <= 'Þ' && c != '×') then (c as int + 32) as char else c
  }

  /** Python's `s.lower()`. */
  function Lower(s: string): (r: string)
    ensures |r| == |s|
  {
    seq(|s|, i requires 0 <= i < |s| => LowerChar(s[i]))
  }

  /** A character that `lower()` leaves unchanged. */
  predicate IsLowerCase(c: char)
  {
    LowerChar(c) == c
  }

  /** Lower-casing twice is lower-casing once. */
  lemma LowerCharIdempotent(c: char)
    ensures IsLowerCase(LowerChar(c))
  {
  }

  /** Every character of a lower-cased string is lower case. */
  lemma LowerIsLowerCase(s: string)
    ensures forall i | 0 <= i < |s| :: IsLowerCase(Lower(s)[i])
  {
    forall i | 0 <= i < |s| ensures IsLowerCase(Lower(s)[i]) {
      LowerCharIdempotent(s[i]);
    }
  }

  /** Truncating then lower-casing equals lower-casing then truncating: `s[:n].lower() ==
      s.lower()[:n]`, because Latin-1 lower-casing never changes the length. */
  lemma LowerTake(s: string, n: nat)
    ensures Lower(if |s| <= n then s else s[..n]) == (if |s| <= n then Lower(s) else Lower(s)[..n])
  {
  }
}

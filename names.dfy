/** Name normalisation for graus_sep.py: percent-decoding of hrefs (`urllib.parse.unquote`),
    `sanitize_name`, and `str.split()`.

    Percent-decoding is modelled for escapes of ASCII characters and for two-byte UTF-8
    sequences, which together cover every character below U+0800 and so all Latin-1 letters
    of Portuguese names. */
module Names {
  import opened Seqs
  import opened Strings

  // ---- percent-decoding ----

  predicate IsHex(c: char)
  {
    '0' <= c <= '9' || 'a' <= c <= 'f' || 'A' <= c <= 'F'
  }

  function HexValue(c: char): (n: nat)
    requires IsHex(c)
    ensures n < 16
  {
    if '0' <= c <= '9' then c as int - '0' as int
    else if 'a' <= c <= 'f' then c as int - 'a' as int + 10
    else c as int - 'A' as int + 10
  }

  /** The upper-case hex digit of `n`. */
  function HexDigit(n: nat): (c: char)
    requires n < 16
    ensures IsHex(c) && HexValue(c) == n
  {
    if n < 10 then ('0' as int + n) as char else ('A' as int + n - 10) as char
  }

  /** A `%XX` escape starts at index `i`. */
  predicate EscapeAt(s: string, i: nat)
  {
    i + 3 <= |s| && s[i] == '%' && IsHex(s[i + 1]) && IsHex(s[i + 2])
  }

  /** The byte a `%XX` escape stands for. */
  function EscapedByte(s: string, i: nat): (b: nat)
    requires EscapeAt(s, i)
    ensures b < 256
  {
    16 * HexValue(s[i + 1]) + HexValue(s[i + 2])
  }

  /** A two-byte UTF-8 sequence, lead byte then continuation byte, starts at index `i`. */
  predicate TwoByteAt(s: string, i: nat)
  {
    EscapeAt(s, i) && EscapeAt(s, i + 3)
    && 0xC2 <= EscapedByte(s, i) <= 0xDF && 0x80 <= EscapedByte(s, i + 3) <= 0xBF
  }

  /** `unquote(s)`: an escaped ASCII byte becomes its character, an escaped two-byte UTF-8
      sequence becomes the character it encodes, and every other character is kept. */
  function Unquote(s: string): (r: string)
    ensures |r| <= |s|
    decreases |s|
  {
    if s == [] then []
    else if EscapeAt(s, 0) && EscapedByte(s, 0) < 0x80 then [EscapedByte(s, 0) as char] + Unquote(s[3..])
    else if TwoByteAt(s, 0) then
      [((EscapedByte(s, 0) - 0xC0) * 64 + (EscapedByte(s, 3) - 0x80)) as char] + Unquote(s[6..])
    else [s[0]] + Unquote(s[1..])
  }

  /** Without a '%' there is nothing to decode. */
  lemma {:induction false} UnquotePlain(s: string)
    requires '%' !in s
    ensures Unquote(s) == s
    decreases |s|
  {
    if s != [] {
      assert s[0] != '%';
      assert '%' !in s[1..] by {
        assert forall c | c in s[1..] :: c in s;
      }
      UnquotePlain(s[1..]);
    }
  }

  /** How a character below U+0800 appears in a MediaWiki href: an ASCII character other
      than '%' as itself, '%' as "%25", and any other character as its two UTF-8 bytes,
      escaped. */
  function EncodeChar(c: char): (e: string)
    requires c as int < 0x800
  {
    if c == '%' then "%25"
    else if c as int < 0x80 then [c]
    else
      var lead := 0xC0 + c as int / 64;
      var cont := 0x80 + c as int % 64;
      ['%', HexDigit(lead / 16), HexDigit(lead % 16), '%', HexDigit(cont / 16), HexDigit(cont % 16)]
  }

  function PercentEncode(s: string): string
    requires forall i | 0 <= i < |s| :: s[i] as int < 0x800
  {
    if s == [] then [] else EncodeChar(s[0]) + PercentEncode(s[1..])
  }

  /** The two hex digits of a byte read back as that byte. */
  lemma HexPair(b: nat)
    requires b < 256
    ensures 16 * HexValue(HexDigit(b / 16)) + HexValue(HexDigit(b % 16)) == b
  {
  }

  /** Decoding an encoded character gives the character back and goes on with the rest. */
  lemma UnquoteEncodedChar(c: char, rest: string)
    requires c as int < 0x800
    ensures Unquote(EncodeChar(c) + rest) == [c] + Unquote(rest)
  {
    var t := EncodeChar(c) + rest;
    if c == '%' {
      assert EscapeAt(t, 0) && EscapedByte(t, 0) == 0x25;
      assert t[3..] == rest;
    } else if c as int < 0x80 {
      assert t[1..] == rest;
    } else {
      var n := c as int;
      var lead := 0xC0 + n / 64;
      var cont := 0x80 + n % 64;
      HexPair(lead);
      HexPair(cont);
      assert EscapeAt(t, 0) && EscapedByte(t, 0) == lead;
      assert EscapeAt(t, 3) && EscapedByte(t, 3) == cont;
      assert (lead - 0xC0) * 64 + (cont - 0x80) == n;
      assert t[6..] == rest;
    }
  }

  /** Decoding undoes the href encoding of any text below U+0800, '%' included. */
  lemma {:induction false} UnquoteEncode(s: string)
    requires forall i | 0 <= i < |s| :: s[i] as int < 0x800
    ensures Unquote(PercentEncode(s)) == s
    decreases |s|
  {
    if s != [] {
      UnquoteEncode(s[1..]);
      UnquoteEncodedChar(s[0], PercentEncode(s[1..]));
    }
  }

  // ---- sanitize_name ----

  /** The accented letters `sanitize_name` lists next to `\w` and `\s`. */
  const ACCENTED: string := "áàâãéèêíìîóòôõúùûç"

  /** The listed accented letters are all word characters already. */
  lemma AccentedAreWordChars()
    ensures forall c | c in ACCENTED :: IsWordChar(c)
  {
  }

  /** `[\w\sáàâãéèêíìîóòôõúùûç]`: the characters `sanitize_name` keeps. */
  predicate Kept(c: char)
  {
    IsWordChar(c) || IsSpace(c) || c in ACCENTED
  }

  /** `s` with its leading whitespace removed. */
  function DropSpaces(s: string): (r: string)
    ensures |r| <= |s| && r == s[|s| - |r|..]
    ensures r == [] || !IsSpace(r[0])
    decreases |s|
  {
    if s != [] && IsSpace(s[0]) then DropSpaces(s[1..]) else s
  }

  /** `s` with its trailing whitespace removed. */
  function DropTrailingSpaces(s: string): (r: string)
    ensures |r| <= |s| && r == s[..|r|]
    ensures r == [] || !IsSpace(r[|r| - 1])
    decreases |s|
  {
    if s != [] && IsSpace(s[|s| - 1]) then DropTrailingSpaces(s[..|s| - 1]) else s
  }

  /** `s.strip()`. */
  function Strip(s: string): string
  {
    DropTrailingSpaces(DropSpaces(s))
  }

  /** `re.sub(r'\s+', ' ', s)`: every run of whitespace becomes one space. */
  function Collapse(s: string): (r: string)
    decreases |s|
  {
    if s == [] then []
    else if IsSpace(s[0]) then [' '] + Collapse(DropSpaces(s[1..]))
    else [s[0]] + Collapse(s[1..])
  }

  /** `sanitize_name`: decode a name that holds a '%', lower-case it, strip it, drop every
      character outside `\w`, `\s` and the accented letters, then turn each run of
      whitespace into one space. */
  function Sanitize(name: string): string
  {
    Normalize(if '%' in name then Unquote(name) else name)
  }

  /** `sanitize_name` after the decoding step. */
  function Normalize(decoded: string): string
  {
    Collapse(Filter(Strip(Lower(decoded)), Kept))
  }

  /** A collapsed string is empty exactly when the input is, and starts with a space
      exactly when the input does. */
  lemma CollapseStart(s: string)
    ensures var r := Collapse(s);
            (r != [] <==> s != []) && (r != [] ==> (r[0] == ' ' <==> IsSpace(s[0])))
  {
  }

  /** A collapsed string keeps the non-space characters and has only ' ' for whitespace. */
  lemma {:induction false} CollapseChars(s: string)
    ensures forall c | c in Collapse(s) :: c == ' ' || (c in s && !IsSpace(c))
    decreases |s|
  {
    if s != [] {
      if IsSpace(s[0]) {
        var t := DropSpaces(s[1..]);
        CollapseChars(t);
        assert forall c | c in t :: c in s by {
          assert t == s[|s| - |t|..];
        }
      } else {
        CollapseChars(s[1..]);
        assert forall c | c in s[1..] :: c in s;
      }
    }
  }

  /** A collapsed string never has two spaces in a row. */
  lemma {:induction false} CollapseSingleSpaces(s: string)
    ensures var r := Collapse(s);
            forall i | 0 <= i < |r| - 1 :: !(r[i] == ' ' && r[i + 1] == ' ')
    decreases |s|
  {
    if s != [] {
      var r := Collapse(s);
      var t := if IsSpace(s[0]) then DropSpaces(s[1..]) else s[1..];
      CollapseSingleSpaces(t);
      CollapseStart(t);
      CollapseChars(t);
      assert r == [r[0]] + Collapse(t);
      forall i | 0 <= i < |r| - 1 ensures !(r[i] == ' ' && r[i + 1] == ' ') {
        if i > 0 {
          assert r[i] == Collapse(t)[i - 1] && r[i + 1] == Collapse(t)[i];
        }
      }
    }
  }

  /** Every character of a stripped string comes from the string. */
  lemma StripFrom(s: string)
    ensures forall c | c in Strip(s) :: c in s
  {
    var d := DropSpaces(s);
    assert forall c | c in d :: c in s by {
      assert d == s[|s| - |d|..];
    }
    var t := DropTrailingSpaces(d);
    assert forall c | c in t :: c in d by {
      assert t == d[..|t|];
    }
  }

  /** Every character of a lower-cased string is lower case. */
  lemma LowerChars(s: string)
    ensures forall c | c in Lower(s) :: IsLowerCase(c)
  {
    LowerIsLowerCase(s);
  }

  /** A kept character that is not whitespace is a word character. */
  lemma KeptWordChar(c: char)
    requires Kept(c) && !IsSpace(c)
    ensures IsWordChar(c)
  {
    AccentedAreWordChars();
  }

  /** Every character the removal keeps from a lower-cased, stripped string is a lower-case
      character that the removal accepts. */
  lemma KeptLowerChars(decoded: string)
    ensures forall c | c in Filter(Strip(Lower(decoded)), Kept) :: IsLowerCase(c) && Kept(c)
  {
    LowerChars(decoded);
    StripFrom(Lower(decoded));
  }

  /** The characters of a normalised name. */
  lemma NormalizeChars(decoded: string)
    ensures forall c | c in Normalize(decoded) :: c == ' ' || (IsWordChar(c) && IsLowerCase(c))
  {
    var kept := Filter(Strip(Lower(decoded)), Kept);
    KeptLowerChars(decoded);
    CollapseChars(kept);
    forall c | c in Collapse(kept) ensures c == ' ' || (IsWordChar(c) && IsLowerCase(c)) {
      if c != ' ' {
        assert c in kept && !IsSpace(c);
        KeptWordChar(c);
      }
    }
  }

  /** A sanitised name holds only lower-case word characters and single spaces. */
  lemma SanitizeSpec(name: string)
    ensures var r := Sanitize(name);
            (forall c | c in r :: c == ' ' || (IsWordChar(c) && IsLowerCase(c)))
            && (forall i | 0 <= i < |r| - 1 :: !(r[i] == ' ' && r[i + 1] == ' '))
  {
    var decoded := if '%' in name then Unquote(name) else name;
    var kept := Filter(Strip(Lower(decoded)), Kept);
    NormalizeChars(decoded);
    CollapseSingleSpaces(kept);
    assert Sanitize(name) == Collapse(kept);
  }

  /** Stripping comes before the removal, so a name whose removed characters follow a space
      keeps that space at its end. */
  lemma SanitizeKeepsEdgeSpace()
    ensures Sanitize("a !") == "a "
  {
    var name := "a !";
    assert '%' !in name;
    LowerExample();
    StripExample();
    FilterExample();
    CollapseExample();
  }

  lemma LowerExample()
    ensures Lower("a !") == "a !"
  {
    assert LowerChar('a') == 'a' && LowerChar(' ') == ' ' && LowerChar('!') == '!';
  }

  lemma StripExample()
    ensures Strip("a !") == "a !"
  {
    assert DropSpaces("a !") == "a !";
    assert DropTrailingSpaces("a !") == "a !";
  }

  lemma FilterExample()
    ensures Filter("a !", Kept) == "a "
  {
    assert !Kept('!') by {
      assert '!' !in ACCENTED;
    }
    assert "a !"[1..] == " !" && " !"[1..] == "!" && "!"[1..] == [];
    assert Filter("!", Kept) == [];
    assert Filter(" !", Kept) == " ";
  }

  lemma CollapseExample()
    ensures Collapse("a ") == "a "
  {
    var sp: string := [' '];
    assert IsSpace(' ') && !IsSpace('a');
    assert sp[1..] == [];
    assert DropSpaces([]) == [];
    assert Collapse([]) == [];
    assert Collapse(sp) == [' '] + Collapse(DropSpaces(sp[1..]));
    assert "a "[1..] == sp;
    assert Collapse("a ") == ['a'] + Collapse(sp);
  }

  // ---- str.split() ----

  /** The leading run of non-space characters. */
  function WordPrefix(s: string): (w: string)
    ensures |w| <= |s| && w == s[..|w|]
    ensures s != [] && !IsSpace(s[0]) ==> |w| > 0
    ensures forall c | c in w :: !IsSpace(c)
    decreases |s|
  {
    if s == [] || IsSpace(s[0]) then [] else [s[0]] + WordPrefix(s[1..])
  }

  /** `s.split()`: the maximal runs of non-space characters, in order. */
  function Words(s: string): (ws: seq<string>)
    ensures forall w | w in ws :: w != [] && forall c | c in w :: !IsSpace(c)
    decreases |s|
  {
    var t := DropSpaces(s);
    if t == [] then []
    else
      var w := WordPrefix(t);
      [w] + Words(t[|w|..])
  }
}

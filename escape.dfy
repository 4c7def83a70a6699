/** XML character escaping of `put_escaped_char` / `put_escaped_str`
    (src/dtatwCommon.h). The copies in src/dtatw-txml2wxml.c and
    src/xml-rm-namespaces.c are the same code and use this module. */
module XmlEscape {
  import opened CStr
  import opened FlatMaps

  /** The seven bytes that `put_escaped_char` replaces by an entity. */
  predicate IsSpecial(c: char)
  {
    c == '&' || c == '"' || c == '\'' || c == '>' || c == '<' || c == '\n' || c == '\r'
  }

  /** A byte that would end an attribute value, open or close markup, or
      break a line. */
  predicate IsMarkup(c: char)
  {
    c == '<' || c == '>' || c == '"' || c == '\'' || c == '\n' || c == '\r'
  }

  /** No byte that would end an attribute value, open or close markup, or
      break a line. (`&` may appear: it starts an entity reference.) */
  predicate NoMarkup(s: seq<char>)
  {
    forall k :: 0 <= k < |s| ==> !IsMarkup(s[k])
  }

  /** The bytes `put_escaped_char` writes for `c`. */
  function EscapeChar(c: char): seq<char>
  {
    if c == '&' then "&amp;"
    else if c == '"' then "&quot;"
    else if c == '\'' then "&apos;"
    else if c == '>' then "&gt;"
    else if c == '<' then "&lt;"
    else if c == '\n' then "&#10;"
    else if c == '\r' then "&#13;"
    else [c]
  }

  /** Ordinary bytes are written unchanged; each special byte becomes an
      entity reference `&...;`. */
  lemma EscapeCharShape(c: char)
    ensures NoMarkup(EscapeChar(c))
    ensures !IsSpecial(c) <==> EscapeChar(c) == [c]
    ensures IsSpecial(c) ==> |EscapeChar(c)| >= 4 && EscapeChar(c)[0] == '&'
                             && EscapeChar(c)[|EscapeChar(c)| - 1] == ';'
  {
  }

  /** Escaping byte by byte, left to right. */
  function Escaped(s: seq<char>): seq<char>
  {
    FlatMap(EscapeChar, s)
  }

  /** The byte an entity reference at the start of `s` stands for, and the
      reference's length; length 0 when `s` does not start with one of the
      seven references `put_escaped_char` writes (section 4.6 of the XML 1.0
      recommendation defines them). */
  function EntityAt(s: seq<char>): (char, nat)
  {
    if |s| < 4 || s[0] != '&' then (NUL, 0)
    else if s[1] == 'g' && s[2] == 't' && s[3] == ';' then ('>', 4)
    else if s[1] == 'l' && s[2] == 't' && s[3] == ';' then ('<', 4)
    else if |s| < 5 then (NUL, 0)
    else if s[1] == 'a' && s[2] == 'm' && s[3] == 'p' && s[4] == ';' then ('&', 5)
    else if s[1] == '#' && s[2] == '1' && s[3] == '0' && s[4] == ';' then ('\n', 5)
    else if s[1] == '#' && s[2] == '1' && s[3] == '3' && s[4] == ';' then ('\r', 5)
    else if |s| < 6 then (NUL, 0)
    else if s[1] == 'q' && s[2] == 'u' && s[3] == 'o' && s[4] == 't' && s[5] == ';' then ('"', 6)
    else if s[1] == 'a' && s[2] == 'p' && s[3] == 'o' && s[4] == 's' && s[5] == ';' then ('\'', 6)
    else (NUL, 0)
  }

  /** Reference decoder: each entity reference becomes its byte, every
      other byte stands for itself. */
  function Unescape(s: seq<char>): seq<char>
    decreases |s|
  {
    if s == [] then []
    else
      var (c, n) := EntityAt(s);
      if 0 < n <= |s| then [c] + Unescape(s[n..]) else [s[0]] + Unescape(s[1..])
  }

  /** Escaping a concatenation gives the concatenation of the escapes. */
  lemma EscapedAppend(a: seq<char>, b: seq<char>)
    ensures Escaped(a + b) == Escaped(a) + Escaped(b)
  {
    FlatMapAppend(EscapeChar, a, b);
  }

  /** The escaped form never holds a raw `<`, `>`, `"`, `'`, CR or LF. */
  lemma EscapedNoMarkup(s: seq<char>)
    ensures NoMarkup(Escaped(s))
  {
    forall c: char ensures NoMarkup(EscapeChar(c)) {
      EscapeCharShape(c);
    }
    FlatMapAvoids(EscapeChar, s, IsMarkup);
  }

  /** One escaped byte in front of any text decodes back to that byte. */
  lemma UnescapeEscapeChar(c: char, rest: seq<char>)
    ensures Unescape(EscapeChar(c) + rest) == [c] + Unescape(rest)
  {
    var e := EscapeChar(c) + rest;
    var n := |EscapeChar(c)|;
    assert e[..n] == EscapeChar(c) && e[n..] == rest;
    if IsSpecial(c) {
      assert EntityAt(e) == (c, n);
    } else {
      assert EscapeChar(c) == [c];
      assert EntityAt(e).1 == 0;
    }
  }

  /** Escaping loses nothing: the reference decoder gives the input back. */
  lemma {:induction false} UnescapeEscaped(s: seq<char>)
    ensures Unescape(Escaped(s)) == s
    decreases |s|
  {
    if s != [] {
      EscapedAppend([s[0]], s[1..]);
      assert [s[0]] + s[1..] == s;
      assert Escaped([s[0]]) == EscapeChar(s[0]) by {
        FlatMapSnoc(EscapeChar, [], s[0]);
      assert [] + [s[0]] == [s[0]];
      }
      UnescapeEscapeChar(s[0], Escaped(s[1..]));
      UnescapeEscaped(s[1..]);
    }
  }

  /** `put_escaped_str(f, str, len)`: the bytes written for `str`, which
      stop at its first NUL, or after `len` bytes when `len >= 0`. */
  method PutEscapedStr(str: seq<char>, len: int) returns (written: seq<char>)
    ensures written == Escaped(CPrefix(str, len))
    ensures NoMarkup(written)
    ensures Unescape(written) == CPrefix(str, len)
  {
    written := [];
    var i := 0;
    ghost var n := CEnd(str, len);
    while i < |str| && str[i] != NUL && (len < 0 || i < len)
      invariant 0 <= i <= n
      invariant written == Escaped(str[..i])
    {
      assert str[..i + 1] == str[..i] + [str[i]];
      FlatMapSnoc(EscapeChar, str[..i], str[i]);
      written := written + EscapeChar(str[i]);
      i := i + 1;
    }
    assert i == n;
    EscapedNoMarkup(str[..n]);
    UnescapeEscaped(str[..n]);
  }
}

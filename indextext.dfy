/** `index_text`, the escaping of free text in the TAB-separated index
    files written by the tools under mkindex-c/ (mkindex2, textindex,
    lschars and mkindex carry identical copies). */
module IndexEscape {
  import opened CStr
  import opened FlatMaps

  /** Size of the static buffer `index_txtbuf` that `index_text` fills. */
  const CTBUFSIZE: nat := 256

  predicate NeedsIndexEscape(c: char)
  {
    c == '\\' || c == '\t' || c == '\n'
  }

  /** The bytes `index_text` stores for one input byte. */
  function IndexEscapeChar(c: char): (e: seq<char>)
    ensures 1 <= |e| <= 2 && (|e| == 1 <==> !NeedsIndexEscape(c))
    ensures |e| == 1 ==> e == [c]
  {
    if c == '\\' then ['\\', '\\']
    else if c == '\t' then ['\\', 't']
    else if c == '\n' then ['\\', 'n']
    else [c]
  }

  function IndexEscaped(s: seq<char>): seq<char>
  {
    FlatMap(IndexEscapeChar, s)
  }

  /** How many bytes of `s` take a two-byte escape. */
  function EscapeCount(s: seq<char>): nat
  {
    if s == [] then 0
    else EscapeCount(s[..|s| - 1]) + (if NeedsIndexEscape(s[|s| - 1]) then 1 else 0)
  }

  /** The escaped text holds no raw TAB or LF, so it stays inside its
      field and its line; its length is the input's plus one per escape. */
  lemma {:induction false} IndexEscapedShape(s: seq<char>)
    ensures NoTabNewline(IndexEscaped(s))
    ensures |IndexEscaped(s)| == |s| + EscapeCount(s)
    decreases |s|
  {
    if s != [] {
      var p := s[..|s| - 1];
      IndexEscapedShape(p);
      assert s == p + [s[|s| - 1]];
      FlatMapSnoc(IndexEscapeChar, p, s[|s| - 1]);
    }
  }

  /** Reference decoder: a backslash followed by `\`, `t` or `n` stands for
      backslash, TAB or LF; every other byte stands for itself. */
  function IndexUnescape(s: seq<char>): seq<char>
    decreases |s|
  {
    if s == [] then []
    else if |s| >= 2 && s[0] == '\\' && s[1] == '\\' then ['\\'] + IndexUnescape(s[2..])
    else if |s| >= 2 && s[0] == '\\' && s[1] == 't' then ['\t'] + IndexUnescape(s[2..])
    else if |s| >= 2 && s[0] == '\\' && s[1] == 'n' then ['\n'] + IndexUnescape(s[2..])
    else [s[0]] + IndexUnescape(s[1..])
  }

  /** Index escaping loses nothing: the reference decoder inverts it. */
  lemma {:induction false} IndexUnescapeEscaped(s: seq<char>)
    ensures IndexUnescape(IndexEscaped(s)) == s
    decreases |s|
  {
    if s != [] {
      var c := s[0];
      FlatMapAppend(IndexEscapeChar, [c], s[1..]);
      assert [c] + s[1..] == s;
      FlatMapSnoc(IndexEscapeChar, [], c);
      assert [] + [c] == [c];
      var e := IndexEscapeChar(c) + IndexEscaped(s[1..]);
      var n := |IndexEscapeChar(c)|;
      assert e[n..] == IndexEscaped(s[1..]);
      IndexUnescapeEscaped(s[1..]);
    }
  }

  /** One branch of the `switch` in `index_text`: stores the escape of
      `c` at `out[j..]` and returns the index after it. */
  method PutIndexEscape(out: array<char>, j: nat, c: char) returns (j': nat)
    requires j + |IndexEscapeChar(c)| <= out.Length
    modifies out
    ensures j' == j + |IndexEscapeChar(c)|
    ensures out[..j'] == old(out[..j]) + IndexEscapeChar(c)
  {
    if c == '\\' {
      out[j] := '\\';
      out[j + 1] := '\\';
      j' := j + 2;
    } else if c == '\t' {
      out[j] := '\\';
      out[j + 1] := 't';
      j' := j + 2;
    } else if c == '\n' {
      out[j] := '\\';
      out[j + 1] := 'n';
      j' := j + 2;
    } else {
      out[j] := c;
      j' := j + 1;
    }
  }

  /** `index_text(buf, len)` with an output buffer large enough for any
      input: `2 * n + 1` bytes for `n` input bytes. The text stored in
      front of the terminating NUL is returned. */
  method IndexText(buf: seq<char>, len: int) returns (txt: seq<char>)
    ensures txt == IndexEscaped(CPrefix(buf, len))
    ensures NoTabNewline(txt)
  {
    var n := CEnd(buf, len);
    var out := new char[2 * n + 1];
    var i, j := 0, 0;
    while (len < 0 || i < len) && i < |buf| && buf[i] != NUL
      invariant 0 <= i <= n && j <= 2 * i
      invariant j == |IndexEscaped(buf[..i])|
      invariant out[..j] == IndexEscaped(buf[..i])
    {
      assert buf[..i + 1] == buf[..i] + [buf[i]];
      FlatMapSnoc(IndexEscapeChar, buf[..i], buf[i]);
      j := PutIndexEscape(out, j, buf[i]);
      i := i + 1;
    }
    assert i == n;
    out[j] := NUL;
    txt := out[..j];
    IndexEscapedShape(CPrefix(buf, len));
  }

  /** `index_text(buf, len)` as written: the output goes to the static
      `CTBUFSIZE`-byte buffer `index_txtbuf`. `overflow` reports that the
      loop reaches a write at index `CTBUFSIZE` or beyond; the C code does
      not check this and writes past the buffer. Otherwise `txt` is the
      text stored in front of the NUL. */
  method IndexTextStatic(buf: seq<char>, len: int) returns (overflow: bool, txt: seq<char>)
    ensures overflow <==> |IndexEscaped(CPrefix(buf, len))| + 1 > CTBUFSIZE
    ensures !overflow ==> txt == IndexEscaped(CPrefix(buf, len))
  {
    var n := CEnd(buf, len);
    var out := new char[CTBUFSIZE];
    var i, j := 0, 0;
    overflow := false;
    while (len < 0 || i < len) && i < |buf| && buf[i] != NUL
      invariant 0 <= i <= n
      invariant j == |IndexEscaped(buf[..i])| && j < CTBUFSIZE
      invariant out[..j] == IndexEscaped(buf[..i])
    {
      assert buf[..i + 1] == buf[..i] + [buf[i]];
      FlatMapSnoc(IndexEscapeChar, buf[..i], buf[i]);
      if j + |IndexEscapeChar(buf[i])| >= CTBUFSIZE {
        // the next write, or the NUL after it, lands at index CTBUFSIZE or beyond
        EscapedPrefixGrows(buf[..n], i + 1);
        assert buf[..n][..i + 1] == buf[..i + 1];
        return true, [];
      }
      j := PutIndexEscape(out, j, buf[i]);
      i := i + 1;
    }
    assert i == n;
    out[j] := NUL;
    txt := out[..j];
  }

  /** Escaping a longer prefix never gives a shorter text. */
  lemma EscapedPrefixGrows(s: seq<char>, i: nat)
    requires i <= |s|
    ensures |IndexEscaped(s[..i])| <= |IndexEscaped(s)|
  {
    FlatMapAppend(IndexEscapeChar, s[..i], s[i..]);
    assert s[..i] + s[i..] == s;
  }

  /** An input the fixed buffer cannot hold: 256 plain bytes need 257
      bytes with the terminating NUL. An attribute value that long reaches
      `index_text` with `len == -1` from the `$ATTR$` records. */
  lemma IndexTextOverflowInput()
    ensures var s := seq(CTBUFSIZE, _ => 'a');
            |IndexEscaped(CPrefix(s, -1))| + 1 > CTBUFSIZE
  {
    var s := seq(CTBUFSIZE, _ => 'a');
    CPrefixWhole(s, -1);
    IndexEscapedShape(s);
  }
}

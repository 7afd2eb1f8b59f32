/**
 * Absolute file-system paths as sequences of components, the way `PathBuf`
 * stores them: `push` appends a component, `to_str` succeeds only when every
 * component is valid UTF-8, and `{:?}` writes the path quoted and escaped.
 */
module Paths {
  import opened Wrappers
  import opened Text

  /**
   * One piece of a byte string as `Utf8Chunks` splits it: a run of valid
   * UTF-8, as text, then bytes that are not valid UTF-8.
   */
  datatype Chunk = Chunk(valid: string, invalid: seq<bv8>)

  /** No `/` in the valid run; the invalid bytes are never ASCII, so never `/` either. */
  predicate ChunkOk(c: Chunk)
  {
    '/' !in c.valid && forall j :: 0 <= j < |c.invalid| ==> c.invalid[j] >= 0x80
  }

  /**
   * One component of an OS path: `Utf8(text)` is a component whose bytes are
   * valid UTF-8; `NonUtf8(chunks)` stands for one whose bytes are not,
   * given as the chunks `Utf8Chunks` yields for them.
   */
  datatype Segment = Utf8(text: string) | NonUtf8(chunks: seq<Chunk>)

  /**
   * What `Path::components` can yield between separators: never empty,
   * never `.`, never holding `/`. A component that is not UTF-8 has invalid
   * bytes in its first chunk, and every chunk but the last ends in some.
   */
  predicate WellFormed(s: Segment)
  {
    match s
    case Utf8(t) => t != [] && t != "." && '/' !in t
    case NonUtf8(cs) => ChunksOk(cs)
  }

  predicate ChunksOk(cs: seq<Chunk>)
  {
    && cs != [] && cs[0].invalid != []
    && (forall i :: 0 <= i < |cs| ==> ChunkOk(cs[i]))
    && (forall i :: 0 <= i < |cs| - 1 ==> cs[i].invalid != [])
  }

  type Component = s: Segment | WellFormed(s) witness Utf8("_")

  /** An absolute path `/c0/c1/...`; the empty sequence is the root `/`. */
  type Path = seq<Component>

  predicate IsUtf8(p: Path)
  {
    forall i :: 0 <= i < |p| ==> p[i].Utf8?
  }

  type Utf8Path = p: Path | IsUtf8(p) witness []

  function Slashed(p: Utf8Path): string
  {
    if p == [] then "" else "/" + (p[0].text + Slashed(p[1..]))
  }

  /** The text form of a UTF-8 path, as `Path::to_str` gives it. */
  function Display(p: Utf8Path): string
  {
    if p == [] then "/" else Slashed(p)
  }

  /** `Path::to_str`: the text of the path, or `None` when a component is not UTF-8. */
  function ToStr(p: Path): (r: Option<string>)
    ensures r.Some? <==> IsUtf8(p)
  {
    if IsUtf8(p) then Some(Display(p)) else None
  }

  /** Splits text at every `/`. */
  function SplitSlash(t: string): (r: seq<string>)
    ensures |r| >= 1
    ensures forall i :: 0 <= i < |r| ==> '/' !in r[i]
  {
    if t == [] then [""]
    else
      var r := SplitSlash(t[1..]);
      if t[0] == '/' then [""] + r else [[t[0]] + r[0]] + r[1..]
  }

  /** The components named by the pieces of a path text; empty pieces and `.` name none. */
  function Components(pieces: seq<string>): Utf8Path
    requires forall i :: 0 <= i < |pieces| ==> '/' !in pieces[i]
  {
    if pieces == [] then []
    else if pieces[0] == "" || pieces[0] == "." then Components(pieces[1..])
    else [Utf8(pieces[0])] + Components(pieces[1..])
  }

  /** `PathBuf::from` on an absolute path text; relative text is refused. */
  function ParsePathText(t: string): Option<Utf8Path>
  {
    if t != [] && t[0] == '/' then Some(Components(SplitSlash(t[1..]))) else None
  }

  function Texts(p: Utf8Path): (r: seq<string>)
    ensures |r| == |p|
    ensures forall i :: 0 <= i < |r| ==> r[i] == p[i].text
  {
    if p == [] then [] else [p[0].text] + Texts(p[1..])
  }

  lemma SplitWithoutSlash(x: string)
    requires '/' !in x
    ensures SplitSlash(x) == [x]
  {
    if x != [] {
      SplitWithoutSlash(x[1..]);
      assert [x[0]] + x[1..] == x;
    }
  }

  lemma {:induction false} SplitAtSlash(x: string, y: string)
    requires '/' !in x
    ensures SplitSlash(x + ("/" + y)) == [x] + SplitSlash(y)
    decreases |x|
  {
    if x == [] {
      assert x + ("/" + y) == "/" + y;
    } else {
      var t := x + ("/" + y);
      assert t[0] == x[0] && t[1..] == x[1..] + ("/" + y);
      SplitAtSlash(x[1..], y);
      assert [x[0]] + x[1..] == x;
    }
  }

  lemma {:induction false} SplitSlashed(p: Utf8Path)
    requires p != []
    ensures SplitSlash(Slashed(p)[1..]) == Texts(p)
    decreases |p|
  {
    var t := Slashed(p);
    assert t[1..] == p[0].text + Slashed(p[1..]);
    if p[1..] == [] {
      assert t[1..] == p[0].text;
      SplitWithoutSlash(p[0].text);
    } else {
      var u := Slashed(p[1..]);
      assert u == "/" + u[1..];
      SplitAtSlash(p[0].text, u[1..]);
      SplitSlashed(p[1..]);
    }
  }

  lemma {:induction false} ComponentsOfTexts(p: Utf8Path)
    ensures Components(Texts(p)) == p
  {
    if p != [] {
      ComponentsOfTexts(p[1..]);
      assert Texts(p)[1..] == Texts(p[1..]);
      assert [p[0]] + p[1..] == p;
    }
  }

  /** Writing a path as text and reading it back gives the same path. */
  lemma DisplayRoundTrip(p: Utf8Path)
    ensures ParsePathText(Display(p)) == Some(p)
  {
    if p == [] {
      assert Display(p)[1..] == "";
      assert SplitSlash("") == [""];
      assert Components([""]) == Components([]);
    } else {
      SplitSlashed(p);
      ComponentsOfTexts(p);
    }
  }

  function HexDigit(n: int): char
    requires 0 <= n < 16
  {
    if n < 10 then ('0' as int + n) as char else ('A' as int + n - 10) as char
  }

  /** Bytes that are not UTF-8, as `\xNN` escapes. */
  function ByteEscapes(b: seq<bv8>): string
  {
    if b == [] then ""
    else "\\x" + [HexDigit((b[0] >> 4) as int), HexDigit((b[0] & 0xF) as int)] + ByteEscapes(b[1..])
  }

  /**
   * The escape `{:?}` writes for one character of a path. Paths go through
   * `char::escape_debug`, which, unlike the `Debug` of a string, also
   * escapes the single quote.
   */
  function PathEscapeChar(c: char): string
  {
    if c == '\'' then "\\'" else EscapeChar(c)
  }

  function PathEscape(s: string): string
  {
    if s == [] then [] else PathEscapeChar(s[0]) + PathEscape(s[1..])
  }

  /** The text of a path between double quotes, escaped as `{:?}` escapes a path. */
  function PathQuote(s: string): string
  {
    ['"'] + (PathEscape(s) + ['"'])
  }

  lemma {:induction false} PathEscapeAppend(a: string, b: string)
    ensures PathEscape(a + b) == PathEscape(a) + PathEscape(b)
  {
    if a == [] {
      assert a + b == b;
    } else {
      assert (a + b)[0] == a[0];
      assert (a + b)[1..] == a[1..] + b;
      PathEscapeAppend(a[1..], b);
    }
  }

  /** A text without single quotes is escaped the same way in a path and in a string. */
  lemma {:induction false} PathEscapeNoQuote(s: string)
    requires '\'' !in s
    ensures PathEscape(s) == Escape(s)
  {
    if s != [] {
      assert s[0] != '\'';
      PathEscapeNoQuote(s[1..]);
    }
  }

  function DebugComponent(c: Component): string
  {
    match c
    case Utf8(t) => PathEscape(t)
    case NonUtf8(cs) => DebugChunks(cs)
  }

  /** `Utf8Chunks::debug`: each valid run escaped as path text, each invalid byte as `\xNN`. */
  function DebugChunks(cs: seq<Chunk>): string
  {
    if cs == [] then "" else PathEscape(cs[0].valid) + (ByteEscapes(cs[0].invalid) + DebugChunks(cs[1..]))
  }

  function DebugSlashed(p: Path): string
  {
    if p == [] then "" else "/" + (DebugComponent(p[0]) + DebugSlashed(p[1..]))
  }

  /** A path formatted with `{:?}` (or `{:#?}`): its text, escaped, in double quotes. */
  function DebugQuoted(p: Path): string
  {
    ['"'] + ((if p == [] then "/" else DebugSlashed(p)) + ['"'])
  }

  lemma {:induction false} DebugSlashedUtf8(p: Utf8Path)
    ensures DebugSlashed(p) == PathEscape(Slashed(p))
  {
    if p != [] {
      DebugSlashedUtf8(p[1..]);
      PathEscapeAppend(p[0].text, Slashed(p[1..]));
      PathEscapeAppend("/", p[0].text + Slashed(p[1..]));
    }
  }

  /**
   * For a UTF-8 path, `{:?}` is exactly the quoted, escaped text of the
   * path; without single quotes it is the text quoted as a string is.
   */
  lemma DebugQuotedUtf8(p: Utf8Path)
    ensures DebugQuoted(p) == PathQuote(Display(p))
    ensures '\'' !in Display(p) ==> DebugQuoted(p) == Quote(Display(p))
  {
    if p == [] {
      assert PathEscape("/") == "/";
    } else {
      DebugSlashedUtf8(p);
    }
    if '\'' !in Display(p) {
      PathEscapeNoQuote(Display(p));
    }
  }

  const AThenFF: Component := NonUtf8([Chunk("a", [0xFF])])

  /** `/a` followed by the byte `0xFF` is written `"/a\\xFF"`: only the invalid byte is hex-escaped. */
  lemma DebugQuotedInvalidByte()
    ensures DebugQuoted([AThenFF]) == "\"/a\\xFF\""
  {
    assert "a"[1..] == "" && PathEscape("a") == "a";
    assert ByteEscapes([0xFF]) == "\\xFF";
    assert DebugChunks([Chunk("a", [0xFF])]) == "a" + ("\\xFF" + "");
    assert [AThenFF][1..] == [];
    assert DebugSlashed([AThenFF]) == "/" + (DebugChunks([Chunk("a", [0xFF])]) + "");
  }

  const OQuoteX: Component := Utf8("o'x")

  /** `/o'x` is written `"/o\'x"`: the single quote is escaped. */
  lemma DebugQuotedApostrophe()
    ensures DebugQuoted([OQuoteX]) == "\"/o\\'x\""
  {
    assert "o'x"[1..] == "'x" && "'x"[1..] == "x" && "x"[1..] == "";
    assert PathEscape("x") == "x";
    assert PathEscape("'x") == "\\'" + "x";
    assert PathEscape("o'x") == "o" + ("\\'" + "x");
    assert [OQuoteX][1..] == [];
    assert DebugSlashed([OQuoteX]) == "/" + (PathEscape("o'x") + "");
  }
}

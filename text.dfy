/**
 * Quoted strings as Rust's `{:?}` formatting writes them, and the reader that
 * takes them back. The same quoting is used for the string fields of the
 * persisted records (see module Ron).
 */
module Text {
  import opened Wrappers

  /** The escape sequence Rust's `Debug` writes for one character of a string. */
  function EscapeChar(c: char): string
  {
    if c == '\0' then "\\0"
    else if c == '\t' then "\\t"
    else if c == '\r' then "\\r"
    else if c == '\n' then "\\n"
    else if c == '"' then "\\\""
    else if c == '\\' then "\\\\"
    else [c]
  }

  function Escape(s: string): string
  {
    if s == [] then [] else EscapeChar(s[0]) + Escape(s[1..])
  }

  /** `s` between double quotes, escaped. */
  function Quote(s: string): string
  {
    ['"'] + (Escape(s) + ['"'])
  }

  /** The character an escape sequence `\c` stands for. */
  function Unescaped(c: char): Option<char>
  {
    if c == '0' then Some('\0')
    else if c == 't' then Some('\t')
    else if c == 'r' then Some('\r')
    else if c == 'n' then Some('\n')
    else if c == '"' then Some('"')
    else if c == '\\' then Some('\\')
    else None
  }

  /** Reads the body of a quoted string up to (and past) its closing quote. */
  function ParseBody(t: string): Option<(string, string)>
    decreases |t|
  {
    if t == [] then None
    else if t[0] == '"' then Some(([], t[1..]))
    else if t[0] == '\\' then
      if |t| < 2 then None
      else match Unescaped(t[1])
        case None => None
        case Some(c) =>
          match ParseBody(t[2..])
          case None => None
          case Some((s, rest)) => Some(([c] + s, rest))
    else
      match ParseBody(t[1..])
      case None => None
      case Some((s, rest)) => Some(([t[0]] + s, rest))
  }

  /** Reads a quoted string at the front of `t`; returns it and what follows. */
  function ParseQuoted(t: string): Option<(string, string)>
  {
    if t != [] && t[0] == '"' then ParseBody(t[1..]) else None
  }

  /** Consumes the literal `lit` at the front of `t`. */
  function Expect(lit: string, t: string): (r: Option<string>)
    ensures r.Some? <==> lit <= t
    ensures r.Some? ==> t == lit + r.value
  {
    if lit <= t then Some(t[|lit|..]) else None
  }

  lemma ExpectLiteral(lit: string, rest: string)
    ensures Expect(lit, lit + rest) == Some(rest)
  {
    assert lit <= lit + rest;
    assert (lit + rest)[|lit|..] == rest;
  }

  lemma EscapeAppend(a: string, b: string)
    ensures Escape(a + b) == Escape(a) + Escape(b)
  {
    if a == [] {
      assert a + b == b;
    } else {
      assert (a + b)[0] == a[0];
      assert (a + b)[1..] == a[1..] + b;
      EscapeAppend(a[1..], b);
    }
  }

  /** Reading back an escaped body stops exactly at the closing quote. */
  lemma {:induction false} ParseEscapedBody(s: string, rest: string)
    ensures ParseBody(Escape(s) + (['"'] + rest)) == Some((s, rest))
    decreases |s|
  {
    var t := Escape(s) + (['"'] + rest);
    if s == [] {
      assert t == ['"'] + rest;
    } else {
      var tail := Escape(s[1..]) + (['"'] + rest);
      assert t == EscapeChar(s[0]) + tail;
      ParseEscapedBody(s[1..], rest);
      var c := s[0];
      if c == '\0' || c == '\t' || c == '\r' || c == '\n' || c == '"' || c == '\\' {
        assert t[0] == '\\' && Unescaped(t[1]) == Some(c);
        assert t[2..] == tail;
      } else {
        assert t[0] == c && t[1..] == tail;
      }
      assert [s[0]] + s[1..] == s;
    }
  }

  /** Round trip of the quoted form: reading `Quote(s)` gives `s` back and leaves what follows. */
  lemma QuotedRoundTrip(s: string, rest: string)
    ensures ParseQuoted(Quote(s) + rest) == Some((s, rest))
  {
    var t := Quote(s) + rest;
    assert t == ['"'] + (Escape(s) + (['"'] + rest));
    assert t[1..] == Escape(s) + (['"'] + rest);
    ParseEscapedBody(s, rest);
  }
}

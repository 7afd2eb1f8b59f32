/**
 * The text form the persisted records are written in: a parenthesised list
 * of `field:value` pairs in declaration order, strings and paths quoted,
 * booleans as `true`/`false`, optional values as `None` or `Some(...)`.
 * These are the value readers and writers the record formats of config.rs,
 * viewer.rs and show.rs are built from, each with its round trip.
 */
module Ron {
  import opened Wrappers
  import opened Text
  import opened Paths

  function BoolText(b: bool): string
  {
    if b then "true" else "false"
  }

  function ParseBool(t: string): Option<(bool, string)>
  {
    match Expect("true", t)
    case Some(rest) => Some((true, rest))
    case None =>
      match Expect("false", t)
      case Some(rest) => Some((false, rest))
      case None => None
  }

  /** A path is written as its quoted text; only a UTF-8 path has one. */
  function PathText(p: Utf8Path): string
  {
    Quote(Display(p))
  }

  function ParsePath(t: string): Option<(Utf8Path, string)>
  {
    var (s, rest) :- ParseQuoted(t);
    var p :- ParsePathText(s);
    Some((p, rest))
  }

  function OptPathText(p: Option<Utf8Path>): string
  {
    match p
    case None => "None"
    case Some(q) => "Some(" + (PathText(q) + ")")
  }

  function ParseOptPath(t: string): Option<(Option<Utf8Path>, string)>
  {
    match Expect("None", t)
    case Some(rest) => Some((None, rest))
    case None =>
      var t1 :- Expect("Some(", t);
      var (p, t2) :- ParsePath(t1);
      var rest :- Expect(")", t2);
      Some((Some(p), rest))
  }

  lemma BoolRoundTrip(b: bool, rest: string)
    ensures ParseBool(BoolText(b) + rest) == Some((b, rest))
  {
    if b {
      ExpectLiteral("true", rest);
    } else {
      assert !("true" <= "false" + rest) by {
        assert ("false" + rest)[0] == 'f';
      }
      ExpectLiteral("false", rest);
    }
  }

  lemma PathRoundTrip(p: Utf8Path, rest: string)
    ensures ParsePath(PathText(p) + rest) == Some((p, rest))
  {
    QuotedRoundTrip(Display(p), rest);
    DisplayRoundTrip(p);
  }

  lemma OptPathRoundTrip(p: Option<Utf8Path>, rest: string)
    ensures ParseOptPath(OptPathText(p) + rest) == Some((p, rest))
  {
    if p.None? {
      ExpectLiteral("None", rest);
    } else {
      var q := p.value;
      assert OptPathText(p) + rest == "Some(" + (PathText(q) + (")" + rest));
      SomePathRoundTrip(q, rest);
    }
  }

  lemma SomePathRoundTrip(q: Utf8Path, rest: string)
    ensures ParseOptPath("Some(" + (PathText(q) + (")" + rest))) == Some((Some(q), rest))
  {
    var t := "Some(" + (PathText(q) + (")" + rest));
    assert !("None" <= t) by {
      assert t[1] == 'o' && "None"[1] == 'o' && t[0] == 'S';
    }
    ExpectLiteral("Some(", PathText(q) + (")" + rest));
    PathRoundTrip(q, ")" + rest);
    ExpectLiteral(")", rest);
  }
}

/** A reader for the string literals the query compiler emits. It is the
    reference against which the compiler's output is checked: reading a
    compiled `IN (...)` list gives back the caller's values, in order and with
    duplicates, as long as no value ends in a backslash. */
module JqlReader {
  import opened Common
  import opened Jql

  /** Reads the body of a string literal whose opening quote is already
      consumed: a backslash before a double quote stands for the quote, every
      other character for itself, and the first bare double quote closes the
      literal. Gives the value and the text after the closing quote. */
  function ReadLiteral(t: string): (r: Option<(string, string)>)
    ensures r.Some? ==> |r.value.1| < |t|
  {
    if |t| == 0 then None
    else if t[0] == '"' then Some(("", t[1..]))
    else if |t| >= 2 && t[0] == '\\' && t[1] == '"' then
      match ReadLiteral(t[2..])
      case None => None
      case Some((v, rest)) => Some(("\"" + v, rest))
    else
      match ReadLiteral(t[1..])
      case None => None
      case Some((v, rest)) => Some(([t[0]] + v, rest))
  }

  /** Reads a comma-separated list of string literals. */
  function ReadList(t: string): Option<seq<string>>
    decreases |t|
  {
    if |t| == 0 || t[0] != '"' then None
    else
      match ReadLiteral(t[1..])
      case None => None
      case Some((v, rest)) =>
        if rest == "" then Some([v])
        else if rest[0] == ',' then
          match ReadList(rest[1..])
          case None => None
          case Some(vs) => Some([v] + vs)
        else None
  }

  predicate EndsWithBackslash(s: string)
  {
    |s| > 0 && s[|s| - 1] == '\\'
  }

  /** An escaped value followed by a closing quote reads back as the value. */
  lemma {:induction false} ReadLiteralEscaped(x: string, rest: string)
    requires !EndsWithBackslash(x)
    ensures ReadLiteral(Escape(x) + "\"" + rest) == Some((x, rest))
  {
    if |x| == 0 {
      var t := Escape(x) + "\"" + rest;
      assert t == "\"" + rest;
      assert t[1..] == rest;
    } else {
      assert !EndsWithBackslash(x[1..]);
      ReadLiteralEscaped(x[1..], rest);
      if x[0] == '"' {
        QuoteStep(x, rest);
      } else {
        PlainStep(x, rest);
      }
    }
  }

  /** Reading past an escaped leading quote. */
  lemma QuoteStep(x: string, rest: string)
    requires |x| > 0 && x[0] == '"'
    requires ReadLiteral(Escape(x[1..]) + "\"" + rest) == Some((x[1..], rest))
    ensures ReadLiteral(Escape(x) + "\"" + rest) == Some((x, rest))
  {
    var tail := Escape(x[1..]) + "\"" + rest;
    var t := Escape(x) + "\"" + rest;
    assert t == "\\\"" + tail;
    assert t[2..] == tail;
    assert x == "\"" + x[1..];
  }

  /** Reading past a leading character other than a quote. */
  lemma PlainStep(x: string, rest: string)
    requires |x| > 0 && x[0] != '"' && !EndsWithBackslash(x)
    requires ReadLiteral(Escape(x[1..]) + "\"" + rest) == Some((x[1..], rest))
    ensures ReadLiteral(Escape(x) + "\"" + rest) == Some((x, rest))
  {
    var e := Escape(x[1..]);
    var tail := e + "\"" + rest;
    var t := Escape(x) + "\"" + rest;
    assert t == [x[0]] + tail;
    assert t[1..] == tail;
    if x[0] == '\\' {
      assert |x| >= 2;
      assert t[1] == e[0];
    }
    assert !(|t| >= 2 && t[0] == '\\' && t[1] == '"');
    assert ReadLiteral(t) == Some(([x[0]] + x[1..], rest));
    assert x == [x[0]] + x[1..];
  }

  /** A compiled `IN (...)` list reads back as exactly the caller's values. */
  lemma {:induction false} ReadListInList(xs: seq<string>)
    requires |xs| > 0
    requires forall i :: 0 <= i < |xs| ==> !EndsWithBackslash(xs[i])
    ensures ReadList(InList(xs)) == Some(xs)
  {
    InListSplit(xs);
    if |xs| == 1 {
      assert InList(xs) == "\"" + (Escape(xs[0]) + "\"" + "");
      ReadLiteralEscaped(xs[0], "");
      assert InList(xs)[1..] == Escape(xs[0]) + "\"" + "";
      assert xs == [xs[0]];
    } else {
      var later := InList(xs[1..]);
      var t := InList(xs);
      assert t == "\"" + (Escape(xs[0]) + "\"" + ("," + later));
      assert t[1..] == Escape(xs[0]) + "\"" + ("," + later);
      ReadLiteralEscaped(xs[0], "," + later);
      assert ("," + later)[1..] == later;
      ReadListInList(xs[1..]);
      assert xs == [xs[0]] + xs[1..];
    }
  }

  /** An escaped value that ends in a backslash, followed by the closing
      quote, never closes: the value's last backslash escapes the quote. */
  lemma {:induction false} TrailingBackslashEscapesQuote(x: string)
    requires EndsWithBackslash(x)
    ensures ReadLiteral(Escape(x) + "\"") == None
  {
    var t := Escape(x) + "\"";
    if |x| == 1 {
      assert x == "\\";
      assert t == "\\\"";
      assert t[2..] == "";
    } else {
      var tail := Escape(x[1..]) + "\"";
      assert EndsWithBackslash(x[1..]);
      TrailingBackslashEscapesQuote(x[1..]);
      if x[0] == '"' {
        assert t == "\\\"" + tail;
        assert t[2..] == tail;
      } else {
        assert t == [x[0]] + tail;
        assert t[1..] == tail;
        assert t[1] == Escape(x[1..])[0];
      }
    }
  }

  /** A value that ends in a backslash does not survive a one-value list: its
      backslash escapes the closing quote and the list does not read at all. */
  lemma TrailingBackslashBreaksList(x: string)
    requires EndsWithBackslash(x)
    ensures ReadList(InList([x])) == None
  {
    assert InList([x]) == "\"" + (Escape(x) + "\"");
    assert InList([x])[1..] == Escape(x) + "\"";
    TrailingBackslashEscapesQuote(x);
  }
}

/**
 * Python single-quoted string literals: the quote escaping the replay script
 * applies to colour names, and how Python reads such a literal body back.
 */
module PyLiteral {
  import opened Wrappers

  /** `s.replace("'", "\\'")`: a backslash before every single quote, nothing else. */
  function EscapeQuotes(s: string): (r: string)
    ensures |r| >= |s|
    ensures forall i :: 0 <= i < |r| && r[i] == '\'' ==> 0 < i && r[i - 1] == '\\'
    ensures (forall i :: 0 <= i < |s| ==> s[i] != '\'') ==> r == s
    decreases |s|
  {
    if |s| == 0 then []
    else
      var rest := EscapeQuotes(s[1..]);
      if s[0] == '\'' then "\\'" + rest else [s[0]] + rest
  }

  /**
   * What a backslash followed by `c` stands for in a literal: a known escape,
   * the two characters kept as they are, or None for the octal, hex, named and
   * unicode escapes this model does not decode.
   */
  function EscapeValue(c: char): Option<string>
  {
    match c
    case '\n' => Some([])
    case '\\' => Some("\\")
    case '\'' => Some("'")
    case '"' => Some("\"")
    case 'a' => Some("\U{7}")
    case 'b' => Some("\U{8}")
    case 'f' => Some("\U{c}")
    case 'n' => Some("\n")
    case 'r' => Some("\r")
    case 't' => Some("\t")
    case 'v' => Some("\U{b}")
    case _ =>
      if '0' <= c <= '7' || c == 'x' || c == 'N' || c == 'u' || c == 'U' then None
      else Some(['\\', c])
  }

  function Prepend(p: string, o: Option<string>): Option<string>
  {
    if o.None? then None else Some(p + o.value)
  }

  /**
   * The string a body between single quotes denotes, or None when it is not one
   * (an unescaped quote ends the literal early, a raw line break leaves it
   * unterminated, a final lone backslash escapes the closing quote) or uses an
   * escape outside `EscapeValue`.
   */
  function Decode(t: string): Option<string>
    decreases |t|
  {
    if |t| == 0 then Some([])
    else if t[0] == '\'' || t[0] == '\n' || t[0] == '\r' then None
    else if t[0] != '\\' then Prepend([t[0]], Decode(t[1..]))
    else if |t| == 1 then None
    else
      var e := EscapeValue(t[1]);
      if e.None? then None else Prepend(e.value, Decode(t[2..]))
  }

  /** Characters that stand for themselves in a single-quoted literal. */
  predicate Plain(c: char)
  {
    c != '\\' && c != '\'' && c != '\n' && c != '\r'
  }

  /** A name the quote escaping carries through intact: no backslash, no line break. */
  predicate Escapable(s: string)
  {
    forall i :: 0 <= i < |s| ==> s[i] != '\\' && s[i] != '\n' && s[i] != '\r'
  }

  lemma PrependAppend(p: string, q: string, o: Option<string>)
    ensures Prepend(p, Prepend(q, o)) == Prepend(p + q, o)
  {
    if o.Some? {
      assert p + (q + o.value) == (p + q) + o.value;
    }
  }

  /** A run of plain characters is read back verbatim. */
  lemma {:induction false} DecodePlain(p: string, rest: string)
    requires forall i :: 0 <= i < |p| ==> Plain(p[i])
    ensures Decode(p + rest) == Prepend(p, Decode(rest))
    decreases |p|
  {
    if |p| == 0 {
      assert p + rest == rest;
      if Decode(rest).Some? {
        assert p + Decode(rest).value == Decode(rest).value;
      }
    } else {
      var t := p + rest;
      assert t[0] == p[0] && t[1..] == p[1..] + rest;
      DecodePlain(p[1..], rest);
      PrependAppend([p[0]], p[1..], Decode(rest));
      assert [p[0]] + p[1..] == p;
    }
  }

  /** An escaped quote reads back as a quote. */
  lemma DecodeQuote(tail: string)
    ensures Decode("\\'" + tail) == Prepend("'", Decode(tail))
  {
    var t := "\\'" + tail;
    assert t[0] == '\\' && t[1] == '\'' && t[2..] == tail;
  }

  /** A plain character reads back as itself. */
  lemma DecodeChar(c: char, tail: string)
    requires Plain(c)
    ensures Decode([c] + tail) == Prepend([c], Decode(tail))
  {
    var t := [c] + tail;
    assert t[0] == c && t[1..] == tail;
  }

  /** Quote escaping is undone by Python for every name without backslashes or line breaks. */
  lemma {:induction false} DecodeEscaped(s: string, rest: string)
    requires Escapable(s)
    ensures Decode(EscapeQuotes(s) + rest) == Prepend(s, Decode(rest))
    decreases |s|
  {
    if |s| == 0 {
      assert EscapeQuotes(s) + rest == rest;
      if Decode(rest).Some? {
        assert s + Decode(rest).value == Decode(rest).value;
      }
    } else {
      var tail := EscapeQuotes(s[1..]) + rest;
      DecodeEscaped(s[1..], rest);
      PrependAppend([s[0]], s[1..], Decode(rest));
      assert [s[0]] + s[1..] == s;
      if s[0] == '\'' {
        assert EscapeQuotes(s) + rest == "\\'" + tail;
        DecodeQuote(tail);
      } else {
        assert EscapeQuotes(s) + rest == [s[0]] + tail;
        DecodeChar(s[0], tail);
      }
    }
  }

  /** The literal body the replay prompt is built from decodes to the message with the name in it. */
  lemma DecodeAround(p: string, s: string, q: string)
    requires forall i :: 0 <= i < |p| ==> Plain(p[i])
    requires forall i :: 0 <= i < |q| ==> Plain(q[i])
    requires Escapable(s)
    ensures Decode(p + EscapeQuotes(s) + q) == Some(p + s + q)
  {
    DecodePlain(q, []);
    assert q + [] == q;
    assert Decode([]) == Some([]);
    assert Decode(q) == Some(q) by {
      assert q + [] == q;
    }
    DecodeEscaped(s, q);
    assert p + EscapeQuotes(s) + q == p + (EscapeQuotes(s) + q);
    DecodePlain(p, EscapeQuotes(s) + q);
    assert p + (s + q) == p + s + q;
  }

  /** A name holding a backslash and a `b` comes back as a single backspace character. */
  lemma BackslashNameGarbled()
    ensures EscapeQuotes("\\b") == "\\b"
    ensures Decode(EscapeQuotes("\\b")) == Some("\U{8}")
  {
    var t := "\\b";
    assert t[1..] == "b" && t[2..] == [];
    assert EscapeQuotes("b") == "b" by {
      assert "b"[1..] == [];
    }
    assert EscapeValue('b') == Some("\U{8}");
    assert "\U{8}" + [] == "\U{8}";
  }

  /** A name ending in a backslash and a quote ends the literal early: the script line is not valid. */
  lemma BackslashQuoteNameBreaksLiteral()
    ensures EscapeQuotes("\\'") == "\\\\'"
    ensures Decode(EscapeQuotes("\\'")) == None
  {
    var t := "\\\\'";
    assert EscapeQuotes("'") == "\\'";
    assert t[2..] == "'";
    assert Decode(t[2..]) == None;
  }
}

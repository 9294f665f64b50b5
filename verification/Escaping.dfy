/** `escapeHtml` and its inverse. */
module Escaping {
  import opened Text

  function Entity(c: char): string {
    match c
    case '&' => "&amp;"
    case '<' => "&lt;"
    case '>' => "&gt;"
    case '"' => "&quot;"
    case '\'' => "&#39;"
    case _ => [c]
  }

  /** A character that would be markup if it stood bare in an HTML document. */
  predicate IsMarkup(c: char) { c == '<' || c == '>' || c == '"' || c == '\'' }

  function EscapeHtml(value: string): (html: string)
    ensures forall k :: 0 <= k < |html| ==> !IsMarkup(html[k])
  {
    if value == "" then "" else Entity(value[0]) + EscapeHtml(value[1..])
  }

  /** The character that the entity at the front of `html` stands for. */
  function EntityAt(html: string): Option<char> {
    if Has(html, 0, "&amp;") then Some('&')
    else if Has(html, 0, "&lt;") then Some('<')
    else if Has(html, 0, "&gt;") then Some('>')
    else if Has(html, 0, "&quot;") then Some('"')
    else if Has(html, 0, "&#39;") then Some('\'')
    else None
  }

  /** Reads the five entities back and leaves everything else as it stands. */
  function Unescape(html: string): string {
    if html == "" then ""
    else
      match EntityAt(html)
      case Some(c) => [c] + Unescape(html[|Entity(c)|..])
      case None => [html[0]] + Unescape(html[1..])
  }

  lemma EntityRead(c: char, rest: string)
    ensures EntityAt(Entity(c) + rest) == if Entity(c) == [c] then None else Some(c)
  {
    var e := Entity(c);
    var html := e + rest;
    assert html[..|e|] == e;
    assert html[0] == e[0];
    if |e| > 1 {
      assert html[1] == e[1] && html[2] == e[2];
    }
  }

  lemma UnescapeEntity(c: char, rest: string)
    ensures Unescape(Entity(c) + rest) == [c] + Unescape(rest)
  {
    hide EntityAt;
    EntityRead(c, rest);
    assert (Entity(c) + rest)[|Entity(c)|..] == rest;
  }

  /** Unescaping is an explicit left inverse, so escaping is injective. */
  lemma {:induction false} EscapeRoundTrip(value: string)
    ensures Unescape(EscapeHtml(value)) == value
  {
    if value != "" {
      UnescapeEntity(value[0], EscapeHtml(value[1..]));
      EscapeRoundTrip(value[1..]);
    }
  }

  lemma EscapeInjective(a: string, b: string)
    requires EscapeHtml(a) == EscapeHtml(b)
    ensures a == b
  {
    EscapeRoundTrip(a);
    EscapeRoundTrip(b);
  }

  /** Escaping introduces no character outside the entities: in particular no NUL. */
  lemma {:induction false} EscapeLacks(value: string, c: char)
    requires Lacks(value, c) && c < '!'
    ensures Lacks(EscapeHtml(value), c)
  {
    if value != "" {
      EscapeLacks(value[1..], c);
      assert value[0] != c;
    }
  }

  lemma {:induction false} EscapeJoin(a: string, b: string)
    ensures EscapeHtml(a + b) == EscapeHtml(a) + EscapeHtml(b)
  {
    hide Entity;
    if a == "" {
      assert a + b == b;
    } else {
      assert (a + b)[1..] == a[1..] + b;
      EscapeJoin(a[1..], b);
    }
  }

  /** Wherever a character stands, it is written as its reference, or as itself if it has none. */
  lemma EscapedCharacter(a: string, c: char, b: string)
    ensures EscapeHtml(a + [c] + b)
            == EscapeHtml(a)
               + (if c == '&' then "&amp;" else if c == '<' then "&lt;" else if c == '>' then "&gt;"
                  else if c == '"' then "&quot;" else if c == '\'' then "&#39;" else [c])
               + EscapeHtml(b)
  {
    hide EscapeHtml, Entity;
    EscapeJoin(a + [c], b);
    EscapeJoin(a, [c]);
    OneEscaped(c);
  }

  lemma OneEscaped(c: char)
    ensures EscapeHtml([c])
            == if c == '&' then "&amp;" else if c == '<' then "&lt;" else if c == '>' then "&gt;"
               else if c == '"' then "&quot;" else if c == '\'' then "&#39;" else [c]
  {
    assert [c][1..] == "" && EscapeHtml([c]) == Entity(c) + "" == Entity(c);
  }

  /** A text without the five characters is written as it is. */
  lemma {:induction false} NothingEscaped(value: string)
    requires forall k :: 0 <= k < |value| ==>
               value[k] != '&' && value[k] != '<' && value[k] != '>' && value[k] != '"' && value[k] != '\''
    ensures EscapeHtml(value) == value
  {
    if value != "" {
      NothingEscaped(value[1..]);
    }
  }
}

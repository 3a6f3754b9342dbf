/**
 * `escapeHtml`: every `&`, `<`, `>`, `"` and `'` becomes a character entity,
 * every other character is copied. `Unescape` decodes exactly those five
 * entities and is the inverse used to state that escaping loses nothing.
 */
module Html {

  predicate IsSpecial(c: char) {
    c == '&' || c == '<' || c == '>' || c == '"' || c == '\''
  }

  /** The replacement of one character. */
  function EscapeChar(c: char): (r: string)
    ensures IsSpecial(c) ==> |r| > 1 && r[0] == '&'
    ensures !IsSpecial(c) ==> r == [c]
  {
    match c
    case '&' => "&amp;"
    case '<' => "&lt;"
    case '>' => "&gt;"
    case '"' => "&quot;"
    case '\'' => "&#039;"
    case _ => [c]
  }

  /** A character that must never appear unescaped in text placed inside markup. */
  predicate IsMarkup(c: char) {
    c == '<' || c == '>' || c == '"' || c == '\''
  }

  function EscapeHtml(s: string): (r: string)
    ensures |r| >= |s|
  {
    if s == [] then "" else EscapeChar(s[0]) + EscapeHtml(s[1..])
  }

  /** The escaped text contains no raw `<`, `>`, `"` or `'`. */
  lemma {:induction false} EscapeHasNoMarkup(s: string)
    ensures forall i :: 0 <= i < |EscapeHtml(s)| ==> !IsMarkup(EscapeHtml(s)[i])
  {
    if s != [] {
      EscapeHasNoMarkup(s[1..]);
      var h := EscapeChar(s[0]);
      var r := EscapeHtml(s);
      assert forall i :: 0 <= i < |h| ==> !IsMarkup(h[i]);
      forall i | 0 <= i < |r| ensures !IsMarkup(r[i]) {
        if i >= |h| { assert r[i] == EscapeHtml(s[1..])[i - |h|]; }
      }
    }
  }

  /** Decodes the five entities written by `EscapeChar`; anything else is copied. */
  function Unescape(s: string): string
    decreases |s|
  {
    if s == [] then ""
    else if s[0] != '&' then [s[0]] + Unescape(s[1..])
    else if |s| >= 5 && s[..5] == "&amp;" then "&" + Unescape(s[5..])
    else if |s| >= 4 && s[..4] == "&lt;" then "<" + Unescape(s[4..])
    else if |s| >= 4 && s[..4] == "&gt;" then ">" + Unescape(s[4..])
    else if |s| >= 6 && s[..6] == "&quot;" then "\"" + Unescape(s[6..])
    else if |s| >= 6 && s[..6] == "&#039;" then "'" + Unescape(s[6..])
    else [s[0]] + Unescape(s[1..])
  }

  /** Each entity decodes to its character; `rest` is what follows it. */
  lemma UnescapeEntity(e: string, c: char, t: string)
    requires IsSpecial(c) && e == EscapeChar(c)
    ensures Unescape(e + t) == [c] + Unescape(t)
  {
    var s := e + t;
    assert s[..|e|] == e && s[|e|..] == t;
    assert s[0] == '&';
    if c == '<' {
      assert s[1] == 'l';
      assert |s| >= 5 ==> s[..5] != "&amp;";
    } else if c == '>' {
      assert s[1] == 'g';
      assert |s| >= 5 ==> s[..5] != "&amp;";
      assert s[..4] != "&lt;";
    } else if c == '"' {
      assert s[1] == 'q';
      assert s[..5] != "&amp;" && s[..4] != "&lt;" && s[..4] != "&gt;";
    } else if c == '\'' {
      assert s[1] == '#';
      assert s[..5] != "&amp;" && s[..4] != "&lt;" && s[..4] != "&gt;" && s[..6] != "&quot;";
    }
  }

  lemma UnescapeEscapeChar(c: char, t: string)
    ensures Unescape(EscapeChar(c) + t) == [c] + Unescape(t)
  {
    if IsSpecial(c) {
      UnescapeEntity(EscapeChar(c), c, t);
    } else {
      var s := [c] + t;
      assert s[0] == c && s[1..] == t;
    }
  }

  /** Escaping loses no information: decoding the escaped text gives the original. */
  lemma {:induction false} UnescapeEscape(s: string)
    ensures Unescape(EscapeHtml(s)) == s
  {
    if s != [] {
      UnescapeEscapeChar(s[0], EscapeHtml(s[1..]));
      UnescapeEscape(s[1..]);
      assert s == [s[0]] + s[1..];
    }
  }

  /** Two different texts never render the same. */
  lemma EscapeInjective(a: string, b: string)
    requires EscapeHtml(a) == EscapeHtml(b)
    ensures a == b
  {
    UnescapeEscape(a);
    UnescapeEscape(b);
  }

  /** Text without special characters is left exactly as it is. */
  lemma {:induction false} EscapePlain(s: string)
    requires forall i :: 0 <= i < |s| ==> !IsSpecial(s[i])
    ensures EscapeHtml(s) == s
  {
    if s != [] {
      EscapePlain(s[1..]);
      assert s == [s[0]] + s[1..];
    }
  }

  /** Escaping works character by character, so it distributes over concatenation. */
  lemma {:induction false} EscapeAppend(a: string, b: string)
    ensures EscapeHtml(a + b) == EscapeHtml(a) + EscapeHtml(b)
  {
    if a == [] {
      assert a + b == b;
    } else {
      assert (a + b)[0] == a[0] && (a + b)[1..] == a[1..] + b;
      EscapeAppend(a[1..], b);
    }
  }
}

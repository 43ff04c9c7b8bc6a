/**
 * `escapeHTML` of server/utils/sanitize.js: each of the five characters
 * `& < > " '` is replaced by its entity and every other character is kept.
 */
module Sanitize {

  import opened Js
  import opened Strings

  /** The characters the escaping regex `/[&<>"']/g` matches. */
  predicate IsSpecial(c: char) {
    c == '&' || c == '<' || c == '>' || c == '"' || c == '\''
  }

  /** The characters that can open or close markup or an attribute value. */
  predicate IsMarkup(c: char) {
    c == '<' || c == '>' || c == '"' || c == '\''
  }

  /** The lookup table of escapeHTML. */
  function EscapeChar(c: char): (r: string)
    ensures IsSpecial(c) ==> |r| > 1 && r[0] == '&' && r[|r| - 1] == ';'
    ensures !IsSpecial(c) ==> r == [c]
    ensures forall i :: 0 <= i < |r| ==> !IsMarkup(r[i])
  {
    match c
    case '&' => "&amp;"
    case '<' => "&lt;"
    case '>' => "&gt;"
    case '"' => "&quot;"
    case '\'' => "&#039;"
    case _ => [c]
  }

  /** The replacement applied to a whole string. */
  function Escape(s: string): (r: string)
    ensures forall i :: 0 <= i < |r| ==> !IsMarkup(r[i])
    ensures |r| >= |s|
    ensures |r| == |s| <==> forall i :: 0 <= i < |s| ==> !IsSpecial(s[i])
  {
    if s == [] then []
    else
      var head, tail := EscapeChar(s[0]), Escape(s[1..]);
      assert forall i :: 1 <= i < |s| ==> s[i] == s[1..][i - 1];
      assert forall i :: 0 <= i < |head| + |tail| ==>
        (head + tail)[i] == if i < |head| then head[i] else tail[i - |head|];
      head + tail
  }

  /** `escapeHTML(text)`: the empty string for anything that is not a non-empty string. */
  function EscapeHtml(text: Value): (r: string)
    ensures !text.Str? ==> r == ""
    ensures text.Str? ==> r == Escape(text.s)
  {
    if !Truthy(text) || !text.Str? then "" else Escape(text.s)
  }

  /**
   * `sanitizeText(text)`: the empty string for anything that is not a
   * non-empty string, otherwise what the HTML sanitiser `purify` makes of it.
   */
  function SanitizeText(purify: string -> string, text: Value): (r: string)
    ensures !(text.Str? && text.s != "") ==> r == ""
    ensures text.Str? && text.s != "" ==> r == purify(text.s)
  {
    if !Truthy(text) || !text.Str? then "" else purify(text.s)
  }

  /** Escaping works character by character: it distributes over concatenation. */
  lemma {:induction false} EscapeAppend(a: string, b: string)
    ensures Escape(a + b) == Escape(a) + Escape(b)
  {
    if a != [] {
      assert (a + b)[0] == a[0];
      assert (a + b)[1..] == a[1..] + b;
      EscapeAppend(a[1..], b);
      calc {
        Escape(a + b);
        EscapeChar(a[0]) + Escape(a[1..] + b);
        EscapeChar(a[0]) + (Escape(a[1..]) + Escape(b));
        (EscapeChar(a[0]) + Escape(a[1..])) + Escape(b);
        Escape(a) + Escape(b);
      }
    } else {
      assert a + b == b;
    }
  }

  /** A string without any of the five characters is left exactly as it was. */
  lemma {:induction false} EscapePlain(s: string)
    requires forall i :: 0 <= i < |s| ==> !IsSpecial(s[i])
    ensures Escape(s) == s
  {
    if s != [] {
      assert forall i :: 0 <= i < |s[1..]| ==> s[1..][i] == s[i + 1];
      EscapePlain(s[1..]);
    }
  }

  /** HTML entity decoding for the five entities escapeHTML emits. */
  function Unescape(s: string): string
    decreases |s|
  {
    if s == [] then []
    else if StartsWith(s, "&amp;") then "&" + Unescape(s[5..])
    else if StartsWith(s, "&lt;") then "<" + Unescape(s[4..])
    else if StartsWith(s, "&gt;") then ">" + Unescape(s[4..])
    else if StartsWith(s, "&quot;") then "\"" + Unescape(s[6..])
    else if StartsWith(s, "&#039;") then "'" + Unescape(s[6..])
    else [s[0]] + Unescape(s[1..])
  }

  /** Decoding undoes the escaping of one leading character. */
  lemma UnescapeHead(c: char, e: string)
    ensures Unescape(EscapeChar(c) + e) == [c] + Unescape(e)
  {
    var h := EscapeChar(c);
    var s := h + e;
    assert s[..|h|] == h && s[|h|..] == e;
    if c == '&' {
      assert StartsWith(s, "&amp;");
    } else if c == '<' {
      assert StartsWith(s, "&lt;") && s[1] == 'l';
    } else if c == '>' {
      assert StartsWith(s, "&gt;") && s[1] == 'g';
    } else if c == '"' {
      assert StartsWith(s, "&quot;") && s[1] == 'q';
    } else if c == '\'' {
      assert StartsWith(s, "&#039;") && s[1] == '#';
    } else {
      assert s[0] == c && s[1..] == e;
    }
  }

  /** Decoding the escaped text gives back the text: escaping loses nothing. */
  lemma {:induction false} UnescapeEscape(s: string)
    ensures Unescape(Escape(s)) == s
  {
    if s != [] {
      assert Escape(s) == EscapeChar(s[0]) + Escape(s[1..]);
      UnescapeHead(s[0], Escape(s[1..]));
      UnescapeEscape(s[1..]);
      assert [s[0]] + s[1..] == s;
    }
  }
}

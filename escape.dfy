/**
 * escapeHtml: five chained `replaceAll` passes over the text. Every pattern is
 * a single character, so each pass is a per-character substitution.
 */
module Escape {

  /** `s.replaceAll(c, rep)` for a one-character pattern `c`. */
  function ReplaceAll(s: string, c: char, rep: string): string
  {
    if s == [] then []
    else (if s[0] == c then rep else [s[0]]) + ReplaceAll(s[1..], c, rep)
  }

  /** A pass whose pattern does not occur changes nothing. */
  lemma {:induction false} ReplaceAllAbsent(s: string, c: char, rep: string)
    requires c !in s
    ensures ReplaceAll(s, c, rep) == s
  {
    if s != [] {
      ReplaceAllAbsent(s[1..], c, rep);
    }
  }

  /** The source's chain, in the source's order: `&` goes first. */
  function EscapeHtml(s: string): string
  {
    ReplaceAll(ReplaceAll(ReplaceAll(ReplaceAll(ReplaceAll(s, '&', "&amp;"), '<', "&lt;"), '>', "&gt;"), '"', "&quot;"), '\'', "&#039;")
  }

  /** The entity for one character, as a table. */
  function EscapeChar(c: char): string
  {
    match c
    case '&' => "&amp;"
    case '<' => "&lt;"
    case '>' => "&gt;"
    case '"' => "&quot;"
    case '\'' => "&#039;"
    case _ => [c]
  }

  /** The reference definition: every character replaced by its entity, once. */
  function EscapeMap(s: string): string
  {
    if s == [] then [] else EscapeChar(s[0]) + EscapeMap(s[1..])
  }

  predicate IsSpecial(c: char)
  {
    c == '&' || c == '<' || c == '>' || c == '"' || c == '\''
  }

  lemma {:induction false} ReplaceAllAppend(a: string, b: string, c: char, rep: string)
    ensures ReplaceAll(a + b, c, rep) == ReplaceAll(a, c, rep) + ReplaceAll(b, c, rep)
  {
    if a == [] {
      assert a + b == b;
    } else {
      assert (a + b)[1..] == a[1..] + b;
      ReplaceAllAppend(a[1..], b, c, rep);
    }
  }

  lemma EscapeHtmlAppend(a: string, b: string)
    ensures EscapeHtml(a + b) == EscapeHtml(a) + EscapeHtml(b)
  {
    var a1, b1 := ReplaceAll(a, '&', "&amp;"), ReplaceAll(b, '&', "&amp;");
    ReplaceAllAppend(a, b, '&', "&amp;");
    var a2, b2 := ReplaceAll(a1, '<', "&lt;"), ReplaceAll(b1, '<', "&lt;");
    ReplaceAllAppend(a1, b1, '<', "&lt;");
    var a3, b3 := ReplaceAll(a2, '>', "&gt;"), ReplaceAll(b2, '>', "&gt;");
    ReplaceAllAppend(a2, b2, '>', "&gt;");
    var a4, b4 := ReplaceAll(a3, '"', "&quot;"), ReplaceAll(b3, '"', "&quot;");
    ReplaceAllAppend(a3, b3, '"', "&quot;");
    ReplaceAllAppend(a4, b4, '\'', "&#039;");
  }

  lemma ReplaceAllOne(c: char, d: char, rep: string)
    ensures ReplaceAll([c], d, rep) == if c == d then rep else [c]
  {
    assert [c][1..] == [];
  }

  /** The passes after the one that produced `e` find nothing to replace in it. */
  lemma RestAbsent(e: string, from: nat)
    requires 1 <= from <= 5
    requires from <= 1 ==> '<' !in e
    requires from <= 2 ==> '>' !in e
    requires from <= 3 ==> '"' !in e
    requires from <= 4 ==> '\'' !in e
    ensures from <= 1 ==> ReplaceAll(e, '<', "&lt;") == e
    ensures from <= 2 ==> ReplaceAll(e, '>', "&gt;") == e
    ensures from <= 3 ==> ReplaceAll(e, '"', "&quot;") == e
    ensures from <= 4 ==> ReplaceAll(e, '\'', "&#039;") == e
  {
    if from <= 1 { ReplaceAllAbsent(e, '<', "&lt;"); }
    if from <= 2 { ReplaceAllAbsent(e, '>', "&gt;"); }
    if from <= 3 { ReplaceAllAbsent(e, '"', "&quot;"); }
    if from <= 4 { ReplaceAllAbsent(e, '\'', "&#039;"); }
  }

  lemma EscapeHtmlOneChar(c: char)
    ensures EscapeHtml([c]) == EscapeChar(c)
  {
    ReplaceAllOne(c, '&', "&amp;");
    if c == '&' {
      RestAbsent("&amp;", 1);
    } else {
      ReplaceAllOne(c, '<', "&lt;");
      if c == '<' {
        RestAbsent("&lt;", 2);
      } else {
        ReplaceAllOne(c, '>', "&gt;");
        if c == '>' {
          RestAbsent("&gt;", 3);
        } else {
          ReplaceAllOne(c, '"', "&quot;");
          if c == '"' {
            RestAbsent("&quot;", 4);
          } else {
            ReplaceAllOne(c, '\'', "&#039;");
          }
        }
      }
    }
  }

  /**
   * Because `&` is replaced first, the chain never rewrites the `&` of an
   * entity it produced itself: it is exactly the one-pass table.
   */
  lemma {:induction false} EscapeHtmlIsPerCharacter(s: string)
    ensures EscapeHtml(s) == EscapeMap(s)
  {
    if s != [] {
      assert s == [s[0]] + s[1..];
      EscapeHtmlAppend([s[0]], s[1..]);
      EscapeHtmlOneChar(s[0]);
      EscapeHtmlIsPerCharacter(s[1..]);
    }
  }

  lemma {:induction false} EscapeMapHasNoMarkup(s: string)
    ensures '<' !in EscapeMap(s) && '>' !in EscapeMap(s)
    ensures '"' !in EscapeMap(s) && '\'' !in EscapeMap(s)
  {
    if s != [] {
      EscapeMapHasNoMarkup(s[1..]);
      var e := EscapeChar(s[0]);
      assert '<' !in e && '>' !in e && '"' !in e && '\'' !in e;
    }
  }

  /** The escaped text can no longer open or close a tag or an attribute value. */
  lemma EscapeHtmlHasNoMarkup(s: string)
    ensures '<' !in EscapeHtml(s) && '>' !in EscapeHtml(s)
    ensures '"' !in EscapeHtml(s) && '\'' !in EscapeHtml(s)
  {
    EscapeHtmlIsPerCharacter(s);
    EscapeMapHasNoMarkup(s);
  }

  lemma {:induction false} EscapeMapPlain(s: string)
    requires forall i :: 0 <= i < |s| ==> !IsSpecial(s[i])
    ensures EscapeMap(s) == s
  {
    if s != [] {
      EscapeMapPlain(s[1..]);
    }
  }

  /** Text without any of the five characters is left as it is. */
  lemma EscapeHtmlPlain(s: string)
    requires forall i :: 0 <= i < |s| ==> !IsSpecial(s[i])
    ensures EscapeHtml(s) == s
  {
    EscapeHtmlIsPerCharacter(s);
    EscapeMapPlain(s);
  }
}

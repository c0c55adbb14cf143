/**
 * The planner's small string helpers: CSV quoting for the export, HTML
 * escaping for text placed into markup, capitalising a priority for display
 * and choosing the CSS class of a priority badge.
 */
module Text {
  import opened Wrappers
  import opened Tasks

  /** The number of occurrences of `c` in `s`. */
  function Count(s: string, c: char): nat {
    if s == [] then 0 else (if s[0] == c then 1 else 0) + Count(s[1..], c)
  }

  /** `s.replace(/c/g, rep)`: every `c` in `s` replaced by `rep`. */
  function ReplaceAll(s: string, c: char, rep: string): (r: string)
    ensures c !in s ==> r == s
    ensures forall x :: x in r ==> x in rep || (x in s && x != c)
    ensures forall x :: x in s && x != c ==> x in r
  {
    if s == [] then []
    else
      var rest := ReplaceAll(s[1..], c, rep);
      var head := if s[0] == c then rep else [s[0]];
      assert s == [s[0]] + s[1..];
      head + rest
  }

  /** Doubling a character doubles its count. */
  lemma {:induction false} CountDoubled(s: string, c: char)
    ensures Count(ReplaceAll(s, c, [c, c]), c) == 2 * Count(s, c)
  {
    if s != [] {
      var rest := ReplaceAll(s[1..], c, [c, c]);
      CountDoubled(s[1..], c);
      CountConcat(if s[0] == c then [c, c] else [s[0]], rest, c);
    }
  }

  lemma {:induction false} CountConcat(a: string, b: string, c: char)
    ensures Count(a + b, c) == Count(a, c) + Count(b, c)
  {
    if a != [] {
      assert (a + b)[1..] == a[1..] + b;
      CountConcat(a[1..], b, c);
    } else {
      assert a + b == b;
    }
  }

  /** Replacing in a concatenation is concatenating the replacements. */
  lemma {:induction false} ReplaceAllConcat(a: string, b: string, c: char, rep: string)
    ensures ReplaceAll(a + b, c, rep) == ReplaceAll(a, c, rep) + ReplaceAll(b, c, rep)
  {
    if a != [] {
      assert (a + b)[1..] == a[1..] + b;
      ReplaceAllConcat(a[1..], b, c, rep);
    } else {
      assert a + b == b;
    }
  }

  const Quote: char := '"'

  /** `escapeCsv`: '' for null, otherwise the text in quotes with every quote doubled. */
  function EscapeCsv(s: Option<string>): (r: string)
    ensures s.None? ==> r == ""
    ensures s.Some? ==> |r| >= 2 && r[0] == Quote && r[|r| - 1] == Quote
    ensures s.Some? ==> Count(r, Quote) == 2 * Count(s.value, Quote) + 2
    ensures s.Some? ==> Unquote(r[1..|r| - 1]) == s.value
  {
    match s
    case None => ""
    case Some(text) =>
      var inner := ReplaceAll(text, Quote, [Quote, Quote]);
      var r := [Quote] + inner + [Quote];
      CountConcat([Quote], inner, Quote);
      CountConcat([Quote] + inner, [Quote], Quote);
      CountDoubled(text, Quote);
      assert r[1..|r| - 1] == inner;
      UnquoteDoubled(text);
      r
  }

  /** The reader's side of the export: every doubled quote `""` read back as one `"`. */
  function Unquote(s: string): string {
    if |s| >= 2 && s[0] == Quote && s[1] == Quote then [Quote] + Unquote(s[2..])
    else if s == [] then []
    else [s[0]] + Unquote(s[1..])
  }

  lemma {:induction false} UnquoteDoubled(s: string)
    ensures Unquote(ReplaceAll(s, Quote, [Quote, Quote])) == s
  {
    if s != [] {
      var rest := ReplaceAll(s[1..], Quote, [Quote, Quote]);
      UnquoteDoubled(s[1..]);
      if s[0] == Quote {
        assert ([Quote, Quote] + rest)[2..] == rest;
      } else {
        assert ([s[0]] + rest)[1..] == rest;
      }
      assert s == [s[0]] + s[1..];
    }
  }

  /** `escapeHtml` (the later of the script's two declarations, which wins). */
  function EscapeHtml(s: Option<string>): (r: string)
    ensures '<' !in r && '>' !in r
    ensures s.None? || s == Some("") ==> r == ""
  {
    var text := s.GetOr("");
    ReplaceAll(ReplaceAll(ReplaceAll(text, '&', "&amp;"), '<', "&lt;"), '>', "&gt;")
  }

  /** The entity a single character becomes in escaped HTML. */
  function EscapeChar(c: char): (r: string)
    ensures c !in "&<>" ==> r == [c]
  {
    if c == '&' then "&amp;" else if c == '<' then "&lt;" else if c == '>' then "&gt;" else [c]
  }

  /** Character-by-character escaping, the reference the replacement chain is measured by. */
  function EscapeEach(s: string): string {
    if s == [] then [] else EscapeChar(s[0]) + EscapeEach(s[1..])
  }

  /**
   * The three global replacements, ampersand first, escape each character
   * exactly once: an `&` introduced by an entity is never escaped again.
   */
  lemma {:induction false} EscapeHtmlIsPerCharacter(s: string)
    ensures EscapeHtml(Some(s)) == EscapeEach(s)
  {
    if s != [] {
      var c, t := s[0], s[1..];
      assert s == [c] + t;
      EscapeHtmlIsPerCharacter(t);
      ReplaceAllConcat([c], t, '&', "&amp;");
      var a1, b1 := ReplaceAll([c], '&', "&amp;"), ReplaceAll(t, '&', "&amp;");
      ReplaceAllConcat(a1, b1, '<', "&lt;");
      var a2, b2 := ReplaceAll(a1, '<', "&lt;"), ReplaceAll(b1, '<', "&lt;");
      ReplaceAllConcat(a2, b2, '>', "&gt;");
      EscapeOne(c);
    }
  }

  lemma EscapeOne(c: char)
    ensures ReplaceAll(ReplaceAll(ReplaceAll([c], '&', "&amp;"), '<', "&lt;"), '>', "&gt;") == EscapeChar(c)
  {
    var a1 := ReplaceAll([c], '&', "&amp;");
    assert a1 == if c == '&' then "&amp;" else [c];
    var a2 := ReplaceAll(a1, '<', "&lt;");
    assert a2 == if c == '<' then "&lt;" else a1;
  }

  /** Reading escaped HTML back: the three entities become their characters again. */
  function UnescapeHtml(s: string): string {
    if |s| >= 5 && s[..5] == "&amp;" then "&" + UnescapeHtml(s[5..])
    else if |s| >= 4 && s[..4] == "&lt;" then "<" + UnescapeHtml(s[4..])
    else if |s| >= 4 && s[..4] == "&gt;" then ">" + UnescapeHtml(s[4..])
    else if s == [] then []
    else [s[0]] + UnescapeHtml(s[1..])
  }

  lemma UnescapeChar(c: char, rest: string)
    ensures UnescapeHtml(EscapeChar(c) + rest) == [c] + UnescapeHtml(rest)
  {
    if c == '&' {
      UnescapeAmp(rest);
    } else if c == '<' {
      UnescapeLt(rest);
    } else if c == '>' {
      UnescapeGt(rest);
    } else {
      var e := [c] + rest;
      assert e[0] == c && e[1..] == rest;
    }
  }

  lemma UnescapeAmp(rest: string)
    ensures UnescapeHtml("&amp;" + rest) == "&" + UnescapeHtml(rest)
  {
    var e := "&amp;" + rest;
    assert e[..5] == "&amp;" && e[5..] == rest;
  }

  lemma UnescapeLt(rest: string)
    ensures UnescapeHtml("&lt;" + rest) == "<" + UnescapeHtml(rest)
  {
    var e := "&lt;" + rest;
    assert e[..4] == "&lt;" && e[4..] == rest;
    assert e[1] == 'l';
  }

  lemma UnescapeGt(rest: string)
    ensures UnescapeHtml("&gt;" + rest) == ">" + UnescapeHtml(rest)
  {
    var e := "&gt;" + rest;
    assert e[..4] == "&gt;" && e[4..] == rest;
    assert e[1] == 'g';
  }

  /** Escaping loses nothing: the escaped text reads back as the original. */
  lemma {:induction false} EscapeHtmlRoundTrip(s: string)
    ensures UnescapeHtml(EscapeHtml(Some(s))) == s
  {
    EscapeHtmlIsPerCharacter(s);
    UnescapeEach(s);
  }

  lemma {:induction false} UnescapeEach(s: string)
    ensures UnescapeHtml(EscapeEach(s)) == s
  {
    if s != [] {
      UnescapeChar(s[0], EscapeEach(s[1..]));
      UnescapeEach(s[1..]);
      assert s == [s[0]] + s[1..];
    }
  }

  /** `toUpperCase` on a single character: ASCII letters only. */
  function Upper(c: char): (u: char)
    ensures 'a' <= c <= 'z' ==> 'A' <= u <= 'Z' && u as int - 'A' as int == c as int - 'a' as int
    ensures !('a' <= c <= 'z') ==> u == c
  {
    if 'a' <= c <= 'z' then (c as int - 'a' as int + 'A' as int) as char else c
  }

  /** `toLowerCase` on a single character, ASCII letters only: the partner of `Upper`. */
  function Lower(c: char): (l: char)
    ensures 'A' <= c <= 'Z' ==> 'a' <= l <= 'z' && l as int - 'a' as int == c as int - 'A' as int
    ensures !('A' <= c <= 'Z') ==> l == c
  {
    if 'A' <= c <= 'Z' then (c as int - 'A' as int + 'a' as int) as char else c
  }

  /** Upper-casing a letter loses nothing: lower-casing it again gives the letter back. */
  lemma LowerUndoesUpper(c: char)
    requires 'a' <= c <= 'z'
    ensures Lower(Upper(c)) == c
  {
  }

  /** `capitalize`: '' for the empty string, otherwise the first character upper-cased. */
  function Capitalize(s: string): (r: string)
    ensures |r| == |s|
    ensures s != "" ==> r[1..] == s[1..]
    ensures s != "" ==> r[0] == Upper(s[0])
    ensures s != "" ==> (r[0] == s[0] <==> !('a' <= s[0] <= 'z'))
    ensures s != "" ==> !('a' <= r[0] <= 'z')
  {
    if s == "" then "" else [Upper(s[0])] + s[1..]
  }

  /** A capitalised word starting with a lower-case letter reads back as the word when lower-cased at the front. */
  lemma {:induction false} CapitalizeUndone(s: string)
    requires s != "" && 'a' <= s[0] <= 'z'
    ensures [Lower(Capitalize(s)[0])] + Capitalize(s)[1..] == s
  {
    LowerUndoesUpper(s[0]);
    assert s == [s[0]] + s[1..];
  }

  lemma CapitalizeIdempotent(s: string)
    ensures Capitalize(Capitalize(s)) == Capitalize(s)
  {
  }

  /** The badge text shown for each stored priority name. */
  lemma CapitalizedPriorityNames()
    ensures Capitalize(PriorityName(High)) == "High"
    ensures Capitalize(PriorityName(Medium)) == "Medium"
    ensures Capitalize(PriorityName(Low)) == "Low"
  {
  }

  /** `priorityClass`: any string other than 'high' or 'low' gets the middle class. */
  function PriorityClass(p: string): (r: string)
    ensures r in {"priority-high", "priority-mid", "priority-low"}
    ensures r == "priority-high" <==> p == "high"
    ensures r == "priority-low" <==> p == "low"
  {
    if p == "high" then "priority-high" else if p == "low" then "priority-low" else "priority-mid"
  }

  /** On the three stored priority names, the class tells the priorities apart. */
  lemma PriorityClassOfName(p: Priority, q: Priority)
    ensures PriorityClass(PriorityName(p)) == "priority-mid" <==> p == Medium
    ensures PriorityClass(PriorityName(p)) == PriorityClass(PriorityName(q)) <==> p == q
  {
  }
}

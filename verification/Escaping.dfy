/** Escaping by successive whole-string replacements, and the decoders that undo it. */
module Escaping {
  import opened Common

  // ----- replacing one character -----

  function ReplaceAll(s: string, c: char, out: string): string {
    if s == [] then [] else (if s[0] == c then out else [s[0]]) + ReplaceAll(s[1..], c, out)
  }

  lemma ConcatIsAssociative(a: string, b: string, c: string)
    ensures a + (b + c) == a + b + c
  {
  }

  lemma {:induction false} ReplaceDistributes(s: string, t: string, c: char, out: string)
    ensures ReplaceAll(s + t, c, out) == ReplaceAll(s, c, out) + ReplaceAll(t, c, out)
  {
    if s == [] {
      assert s + t == t;
    } else {
      var head := if s[0] == c then out else [s[0]];
      ReplaceDistributes(s[1..], t, c, out);
      assert (s + t)[1..] == s[1..] + t;
      assert ReplaceAll(s + t, c, out) == head + ReplaceAll(s[1..] + t, c, out);
      hide ReplaceAll;
      ConcatIsAssociative(head, ReplaceAll(s[1..], c, out), ReplaceAll(t, c, out));
    }
  }

  lemma {:induction false} ReplaceAbsent(s: string, c: char, out: string)
    requires c !in s
    ensures ReplaceAll(s, c, out) == s
  {
    if s != [] {
      assert s == [s[0]] + s[1..];
      ReplaceAbsent(s[1..], c, out);
    }
  }

  lemma ReplaceOne(x: char, c: char, out: string)
    ensures ReplaceAll([x], c, out) == if x == c then out else [x]
  {
    assert [x][1..] == [];
  }

  // ----- HTML -----

  function EscapeHtml(s: string): string {
    ReplaceAll(ReplaceAll(ReplaceAll(ReplaceAll(ReplaceAll(s,
      '&', "&amp;"), '<', "&lt;"), '>', "&gt;"), '"', "&quot;"), '\'', "&#039;")
  }

  function HtmlEntity(c: char): string {
    if c == '&' then "&amp;" else if c == '<' then "&lt;" else if c == '>' then "&gt;"
    else if c == '"' then "&quot;" else if c == '\'' then "&#039;" else [c]
  }

  function Substitute(s: string, table: char -> string): string {
    if s == [] then [] else table(s[0]) + Substitute(s[1..], table)
  }

  lemma HtmlDistributes(s: string, t: string)
    ensures EscapeHtml(s + t) == EscapeHtml(s) + EscapeHtml(t)
  {
    hide ReplaceAll;
    var s1, t1 := ReplaceAll(s, '&', "&amp;"), ReplaceAll(t, '&', "&amp;");
    var s2, t2 := ReplaceAll(s1, '<', "&lt;"), ReplaceAll(t1, '<', "&lt;");
    var s3, t3 := ReplaceAll(s2, '>', "&gt;"), ReplaceAll(t2, '>', "&gt;");
    var s4, t4 := ReplaceAll(s3, '"', "&quot;"), ReplaceAll(t3, '"', "&quot;");
    ReplaceDistributes(s, t, '&', "&amp;");
    ReplaceDistributes(s1, t1, '<', "&lt;");
    ReplaceDistributes(s2, t2, '>', "&gt;");
    ReplaceDistributes(s3, t3, '"', "&quot;");
    ReplaceDistributes(s4, t4, '\'', "&#039;");
  }

  /** A replacement leaves the table entry alone: later patterns are absent from earlier outputs. */
  lemma HtmlOfOne(c: char)
    ensures EscapeHtml([c]) == HtmlEntity(c)
  {
    hide ReplaceAll;
    var step1 := if c == '&' then "&amp;" else [c];
    var step2 := if c == '<' then "&lt;" else step1;
    var step3 := if c == '>' then "&gt;" else step2;
    var step4 := if c == '"' then "&quot;" else step3;
    ReplaceOne(c, '&', "&amp;");
    ReplaceOne(c, '<', "&lt;");
    ReplaceOne(c, '>', "&gt;");
    ReplaceOne(c, '"', "&quot;");
    ReplaceOne(c, '\'', "&#039;");
    if c != '<' { ReplaceAbsent(step1, '<', "&lt;"); }
    if c != '>' { ReplaceAbsent(step2, '>', "&gt;"); }
    if c != '"' { ReplaceAbsent(step3, '"', "&quot;"); }
    if c != '\'' { ReplaceAbsent(step4, '\'', "&#039;"); }
  }

  /** What each of the five characters becomes. */
  lemma HtmlEntities()
    ensures EscapeHtml("&") == "&amp;" && EscapeHtml("<") == "&lt;" && EscapeHtml(">") == "&gt;"
    ensures EscapeHtml("\"") == "&quot;" && EscapeHtml("'") == "&#039;"
  {
    hide EscapeHtml;
    HtmlOfOne('&');
    HtmlOfOne('<');
    HtmlOfOne('>');
    HtmlOfOne('"');
    HtmlOfOne('\'');
  }

  /** Five successive replacements equal one simultaneous substitution. */
  lemma {:induction false} HtmlIsSubstitution(s: string)
    ensures EscapeHtml(s) == Substitute(s, HtmlEntity)
  {
    hide HtmlEntity;
    if s != [] {
      HtmlIsSubstitution(s[1..]);
      HtmlDistributes([s[0]], s[1..]);
      HtmlOfOne(s[0]);
      assert s == [s[0]] + s[1..];
    }
  }

  /** The first character written in `s`, and the number of characters its notation takes. */
  function ReadHtml(s: string): (char, nat)
    requires s != []
  {
    if "&amp;" <= s then ('&', 5)
    else if "&lt;" <= s then ('<', 4)
    else if "&gt;" <= s then ('>', 4)
    else if "&quot;" <= s then ('"', 6)
    else if "&#039;" <= s then ('\'', 6)
    else (s[0], 1)
  }

  /** Reads the five entities back; any other character stands for itself. */
  function DecodeHtml(s: string): string {
    if s == [] then []
    else
      var (c, n) := ReadHtml(s);
      [c] + DecodeHtml(s[n..])
  }

  lemma ReadEntity(c: char, rest: string)
    ensures ReadHtml(HtmlEntity(c) + rest) == (c, |HtmlEntity(c)|)
  {
    var entity := HtmlEntity(c);
    var s := entity + rest;
    assert entity <= s;
    if |entity| == 1 {
      assert s[0] == c;
    } else {
      assert s[1] == entity[1];
    }
  }

  lemma {:induction false} DecodeEntity(c: char, rest: string)
    ensures DecodeHtml(HtmlEntity(c) + rest) == [c] + DecodeHtml(rest)
  {
    ReadEntity(c, rest);
    var s := HtmlEntity(c) + rest;
    assert s[|HtmlEntity(c)|..] == rest;
  }

  lemma {:induction false} DecodeSubstituted(s: string)
    ensures DecodeHtml(Substitute(s, HtmlEntity)) == s
  {
    if s != [] {
      hide HtmlEntity, DecodeHtml;
      DecodeSubstituted(s[1..]);
      DecodeEntity(s[0], Substitute(s[1..], HtmlEntity));
      assert s == [s[0]] + s[1..];
    }
  }

  /** Decoding undoes escaping for every string. */
  lemma HtmlRoundTrip(s: string)
    ensures DecodeHtml(EscapeHtml(s)) == s
  {
    HtmlIsSubstitution(s);
    DecodeSubstituted(s);
  }

  /** Distinct strings have distinct escapes. */
  lemma HtmlIsInjective(s: string, t: string)
    requires EscapeHtml(s) == EscapeHtml(t)
    ensures s == t
  {
    HtmlRoundTrip(s);
    HtmlRoundTrip(t);
  }

  /** No markup character survives escaping. */
  lemma {:induction false} EscapedHtmlIsInert(s: string)
    ensures forall c :: c in EscapeHtml(s) ==> c !in {'<', '>', '"', '\''}
  {
    HtmlIsSubstitution(s);
    if s != [] {
      EscapedHtmlIsInert(s[1..]);
      HtmlIsSubstitution(s[1..]);
      assert forall c :: c in HtmlEntity(s[0]) ==> c !in {'<', '>', '"', '\''};
    }
  }

  // ----- GraphQL -----

  function EscapeGraphQL(s: string): string {
    ReplaceAll(ReplaceAll(ReplaceAll(ReplaceAll(ReplaceAll(s,
      '\\', "\\\\"), '"', "\\\""), '\n', "\\n"), '\r', "\\r"), '\t', "\\t")
  }

  function GraphQLEscape(c: char): string {
    if c == '\\' then "\\\\" else if c == '"' then "\\\"" else if c == '\n' then "\\n"
    else if c == '\r' then "\\r" else if c == '\t' then "\\t" else [c]
  }

  lemma GraphQLDistributes(s: string, t: string)
    ensures EscapeGraphQL(s + t) == EscapeGraphQL(s) + EscapeGraphQL(t)
  {
    hide ReplaceAll;
    var s1, t1 := ReplaceAll(s, '\\', "\\\\"), ReplaceAll(t, '\\', "\\\\");
    var s2, t2 := ReplaceAll(s1, '"', "\\\""), ReplaceAll(t1, '"', "\\\"");
    var s3, t3 := ReplaceAll(s2, '\n', "\\n"), ReplaceAll(t2, '\n', "\\n");
    var s4, t4 := ReplaceAll(s3, '\r', "\\r"), ReplaceAll(t3, '\r', "\\r");
    ReplaceDistributes(s, t, '\\', "\\\\");
    ReplaceDistributes(s1, t1, '"', "\\\"");
    ReplaceDistributes(s2, t2, '\n', "\\n");
    ReplaceDistributes(s3, t3, '\r', "\\r");
    ReplaceDistributes(s4, t4, '\t', "\\t");
  }

  lemma GraphQLOfOne(c: char)
    ensures EscapeGraphQL([c]) == GraphQLEscape(c)
  {
    hide ReplaceAll;
    var step1 := if c == '\\' then "\\\\" else [c];
    var step2 := if c == '"' then "\\\"" else step1;
    var step3 := if c == '\n' then "\\n" else step2;
    var step4 := if c == '\r' then "\\r" else step3;
    ReplaceOne(c, '\\', "\\\\");
    ReplaceOne(c, '"', "\\\"");
    ReplaceOne(c, '\n', "\\n");
    ReplaceOne(c, '\r', "\\r");
    ReplaceOne(c, '\t', "\\t");
    if c != '"' { ReplaceAbsent(step1, '"', "\\\""); }
    if c != '\n' { ReplaceAbsent(step2, '\n', "\\n"); }
    if c != '\r' { ReplaceAbsent(step3, '\r', "\\r"); }
    if c != '\t' { ReplaceAbsent(step4, '\t', "\\t"); }
  }

  lemma {:induction false} GraphQLIsSubstitution(s: string)
    ensures EscapeGraphQL(s) == Substitute(s, GraphQLEscape)
  {
    hide GraphQLEscape;
    if s != [] {
      GraphQLIsSubstitution(s[1..]);
      GraphQLDistributes([s[0]], s[1..]);
      GraphQLOfOne(s[0]);
      assert s == [s[0]] + s[1..];
    }
  }

  /** SourceCharacter of the GraphQL specification (October 2021), section 2.1.1; a character above U+FFFF is two source
      characters. */
  predicate IsSourceCharacter(c: char) {
    c == '\t' || c == '\n' || c == '\r' || c as int >= 0x20
  }

  /** EscapedCharacter of section 2.9.4. */
  function Escaped(c: char): Option<char> {
    if c == '"' || c == '\\' || c == '/' then Some(c)
    else if c == 'b' then Some(8 as char)
    else if c == 'f' then Some(12 as char)
    else if c == 'n' then Some('\n')
    else if c == 'r' then Some('\r')
    else if c == 't' then Some('\t')
    else None
  }

  function HexDigit(c: char): Option<int> {
    if '0' <= c <= '9' then Some(c as int - '0' as int)
    else if 'a' <= c <= 'f' then Some(c as int - 'a' as int + 10)
    else if 'A' <= c <= 'F' then Some(c as int - 'A' as int + 10)
    else None
  }

  /** EscapedUnicode of section 2.9.4: four hexadecimal digits. */
  function EscapedUnicode(s: string): Option<char> {
    if |s| < 4 then None
    else
      var a, b, c, d := HexDigit(s[0]), HexDigit(s[1]), HexDigit(s[2]), HexDigit(s[3]);
      if a.None? || b.None? || c.None? || d.None? then None
      else
        var code := ((a.value * 16 + b.value) * 16 + c.value) * 16 + d.value;
        if 0 <= code < 0xD800 || 0xE000 <= code < 0x10000 then Some(code as char) else None
  }

  function Prepend(c: Option<char>, rest: Option<string>): Option<string> {
    if c.Some? && rest.Some? then Some([c.value] + rest.value) else None
  }

  /** The value of the characters between the quotes of a string, by section 2.9.4; None when they are not
      StringCharacters. */
  function DecodeGraphQL(s: string): Option<string> {
    if s == [] then Some([])
    else if s[0] == '\\' then
      if |s| >= 2 && s[1] == 'u' then
        if |s| < 6 then None else Prepend(EscapedUnicode(s[2..]), DecodeGraphQL(s[6..]))
      else if |s| >= 2 then Prepend(Escaped(s[1]), DecodeGraphQL(s[2..]))
      else None
    else if s[0] == '"' || s[0] == '\n' || s[0] == '\r' || !IsSourceCharacter(s[0]) then None
    else Prepend(Some(s[0]), DecodeGraphQL(s[1..]))
  }

  lemma DecodeEscape(c: char, rest: string)
    ensures DecodeGraphQL(GraphQLEscape(c) + rest)
            == if IsSourceCharacter(c) then Prepend(Some(c), DecodeGraphQL(rest)) else None
  {
    var s := GraphQLEscape(c) + rest;
    assert s[|GraphQLEscape(c)|..] == rest;
    assert s[0] == GraphQLEscape(c)[0] && (|GraphQLEscape(c)| > 1 ==> s[1] == GraphQLEscape(c)[1]);
  }

  lemma {:induction false} DecodeSubstitutedGraphQL(s: string)
    ensures DecodeGraphQL(Substitute(s, GraphQLEscape))
            == if forall c :: c in s ==> IsSourceCharacter(c) then Some(s) else None
  {
    if s != [] {
      hide GraphQLEscape, DecodeGraphQL;
      DecodeSubstitutedGraphQL(s[1..]);
      DecodeEscape(s[0], Substitute(s[1..], GraphQLEscape));
      assert s == [s[0]] + s[1..];
      assert (forall c :: c in s ==> IsSourceCharacter(c))
             <==> IsSourceCharacter(s[0]) && forall c :: c in s[1..] ==> IsSourceCharacter(c);
    }
  }

  /** The escape is a valid string body whose value is the original exactly when the original has no control character
      other than tab, line feed and carriage return; those are passed through raw and are not allowed in a document. */
  lemma GraphQLRoundTrip(s: string)
    ensures DecodeGraphQL(EscapeGraphQL(s)) == (if forall c :: c in s ==> IsSourceCharacter(c) then Some(s) else None)
  {
    GraphQLIsSubstitution(s);
    DecodeSubstitutedGraphQL(s);
  }

  /** One control character: the escape passes it through, and no document may contain it. */
  lemma ControlCharacterIsNotAllowed()
    ensures EscapeGraphQL([1 as char]) == [1 as char] && DecodeGraphQL(EscapeGraphQL([1 as char])).None?
  {
    GraphQLOfOne(1 as char);
    GraphQLRoundTrip([1 as char]);
    assert (1 as char) in [1 as char];
  }

  /** A lenient decoder that knows only the five escapes: it undoes the escape for every string. */
  function UnescapeGraphQL(s: string): string {
    if s == [] then []
    else if s[0] == '\\' && |s| >= 2 && Escaped(s[1]).Some? then [Escaped(s[1]).value] + UnescapeGraphQL(s[2..])
    else [s[0]] + UnescapeGraphQL(s[1..])
  }

  lemma UnescapeOne(c: char, rest: string)
    ensures UnescapeGraphQL(GraphQLEscape(c) + rest) == [c] + UnescapeGraphQL(rest)
  {
    var s := GraphQLEscape(c) + rest;
    assert s[|GraphQLEscape(c)|..] == rest;
    assert s[0] == GraphQLEscape(c)[0] && (|GraphQLEscape(c)| > 1 ==> s[1] == GraphQLEscape(c)[1]);
  }

  lemma {:induction false} UnescapeSubstituted(s: string)
    ensures UnescapeGraphQL(Substitute(s, GraphQLEscape)) == s
  {
    if s != [] {
      hide GraphQLEscape, UnescapeGraphQL;
      UnescapeSubstituted(s[1..]);
      UnescapeOne(s[0], Substitute(s[1..], GraphQLEscape));
      assert s == [s[0]] + s[1..];
    }
  }

  /** Every string is recovered from its escape, so distinct strings have distinct escapes. */
  lemma GraphQLIsInjective(s: string, t: string)
    ensures UnescapeGraphQL(EscapeGraphQL(s)) == s
    ensures EscapeGraphQL(s) == EscapeGraphQL(t) ==> s == t
  {
    GraphQLIsSubstitution(s);
    GraphQLIsSubstitution(t);
    UnescapeSubstituted(s);
    UnescapeSubstituted(t);
  }
}

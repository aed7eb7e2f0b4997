// The string escaping of the engine's deny bodies (pkg/proxy/engine.go, escapeJSON) against
// the string grammar of RFC 8259, section 7.
module JsonString {
  import opened Wrappers

  // strings.ReplaceAll with a one-character pattern.
  function ReplaceAll(s: string, pattern: char, replacement: string): string {
    if s == "" then ""
    else (if s[0] == pattern then replacement else [s[0]]) + ReplaceAll(s[1..], pattern, replacement)
  }

  function EscapeJson(s: string): string {
    ReplaceAll(ReplaceAll(s, '\\', "\\\\"), '"', "\\\"")
  }

  // The escape as one pass over the characters.
  function EscapeOnePass(s: string): string {
    if s == "" then ""
    else (if s[0] == '\\' then "\\\\" else if s[0] == '"' then "\\\"" else [s[0]]) + EscapeOnePass(s[1..])
  }

  const TEMPLATE_HEAD := "{\"errors\":[{\"message\":\""
  const TEMPLATE_TAIL := "\"}]}"

  function DenyBody(reason: string): string {
    TEMPLATE_HEAD + EscapeJson(reason) + TEMPLATE_TAIL
  }

  // ------------------------------------------------------------------------------------
  // The grammar: a string literal from just after its opening quote. The value is given
  // as code units, so that a \u escape can be any of them.
  // ------------------------------------------------------------------------------------

  datatype Literal = Literal(value: seq<int>, rest: string)

  function HexDigit(c: char): Option<int> {
    if '0' <= c <= '9' then Some(c as int - '0' as int)
    else if 'a' <= c <= 'f' then Some(c as int - 'a' as int + 10)
    else if 'A' <= c <= 'F' then Some(c as int - 'A' as int + 10)
    else None
  }

  function HexUnit(s: string): Option<int>
    requires |s| >= 4
  {
    match (HexDigit(s[0]), HexDigit(s[1]), HexDigit(s[2]), HexDigit(s[3]))
    case (Some(a), Some(b), Some(c), Some(d)) => Some(((a * 16 + b) * 16 + c) * 16 + d)
    case _ => None
  }

  function SimpleEscape(c: char): Option<int> {
    match c
    case '"' => Some(0x22)
    case '\\' => Some(0x5C)
    case '/' => Some(0x2F)
    case 'b' => Some(0x08)
    case 'f' => Some(0x0C)
    case 'n' => Some(0x0A)
    case 'r' => Some(0x0D)
    case 't' => Some(0x09)
    case _ => None
  }

  function Prepend(unit: int, l: Option<Literal>): Option<Literal> {
    match l
    case None => None
    case Some(l) => Some(Literal([unit] + l.value, l.rest))
  }

  function ParseLiteral(s: string): Option<Literal> {
    if s == "" then None
    else if s[0] == '"' then Some(Literal([], s[1..]))
    else if s[0] == '\\' then
      if |s| < 2 then None
      else if SimpleEscape(s[1]).Some? then Prepend(SimpleEscape(s[1]).value, ParseLiteral(s[2..]))
      else if s[1] == 'u' && |s| >= 6 && HexUnit(s[2..]).Some? then Prepend(HexUnit(s[2..]).value, ParseLiteral(s[6..]))
      else None
    else if (s[0] as int) < 0x20 then None
    else Prepend(s[0] as int, ParseLiteral(s[1..]))
  }

  function Codes(s: string): seq<int> {
    seq(|s|, i requires 0 <= i < |s| => s[i] as int)
  }

  predicate NoControls(s: string) {
    forall i :: 0 <= i < |s| ==> s[i] as int >= 0x20
  }

  // ------------------------------------------------------------------------------------
  // Properties
  // ------------------------------------------------------------------------------------

  lemma {:induction false} ReplaceAllConcat(s: string, t: string, pattern: char, replacement: string)
    ensures ReplaceAll(s + t, pattern, replacement) == ReplaceAll(s, pattern, replacement) + ReplaceAll(t, pattern, replacement)
  {
    if s == "" {
      assert s + t == t;
    } else {
      assert (s + t)[1..] == s[1..] + t;
      ReplaceAllConcat(s[1..], t, pattern, replacement);
    }
  }

  // The two nested replacements do what one pass would.
  lemma {:induction false} TwoPassesAreOne(s: string)
    ensures EscapeJson(s) == EscapeOnePass(s)
  {
    if s != "" {
      var head := if s[0] == '\\' then "\\\\" else [s[0]];
      ReplaceAllConcat(head, ReplaceAll(s[1..], '\\', "\\\\"), '"', "\\\"");
      assert ReplaceAll(head, '"', "\\\"") == if s[0] == '\\' then "\\\\" else if s[0] == '"' then "\\\"" else [s[0]] by {
        assert head[1..] == if s[0] == '\\' then "\\" else "";
      }
      TwoPassesAreOne(s[1..]);
    }
  }

  function EscapeChar(c: char): string {
    if c == '\\' || c == '"' then ['\\', c] else [c]
  }

  // Reading one escaped character.
  lemma ReadOne(c: char, tail: string)
    ensures ParseLiteral(EscapeChar(c) + tail) == if c as int < 0x20 then None else Prepend(c as int, ParseLiteral(tail))
  {
    assert (['\\', c] + tail)[2..] == tail;
    assert ([c] + tail)[1..] == tail;
  }

  lemma EscapeFirst(s: string, rest: string)
    requires s != ""
    ensures EscapeOnePass(s) + rest == EscapeChar(s[0]) + (EscapeOnePass(s[1..]) + rest)
  {
  }

  lemma ReadsFirst(s: string, l: Option<Literal>, rest: string)
    requires s != "" && l == if NoControls(s[1..]) then Some(Literal(Codes(s[1..]), rest)) else None
    ensures (if s[0] as int < 0x20 then None else Prepend(s[0] as int, l))
            == if NoControls(s) then Some(Literal(Codes(s), rest)) else None
  {
    assert NoControls(s) <==> s[0] as int >= 0x20 && NoControls(s[1..]);
    assert Codes(s) == [s[0] as int] + Codes(s[1..]);
  }

  // Reading an escaped text up to its closing quote gives the text back and stops right
  // after that quote, exactly when the text has no control characters.
  lemma {:induction false} EscapedTextReadsBack(s: string, rest: string)
    ensures ParseLiteral(EscapeOnePass(s) + ("\"" + rest)) == if NoControls(s) then Some(Literal(Codes(s), rest)) else None
  {
    if s == "" {
      assert EscapeOnePass(s) + ("\"" + rest) == "\"" + rest;
      assert ("\"" + rest)[1..] == rest && Codes(s) == [];
    } else {
      var tail := EscapeOnePass(s[1..]) + ("\"" + rest);
      EscapedTextReadsBack(s[1..], rest);
      EscapeFirst(s, "\"" + rest);
      ReadOne(s[0], tail);
      ReadsFirst(s, ParseLiteral(tail), rest);
      assert EscapeOnePass(s) + ("\"" + rest) == EscapeChar(s[0]) + tail;
    }
  }

  // The literal in a deny body ends at the template's closing quote and decodes to the
  // reason if and only if the reason has no control characters.
  lemma DenyBodyReadsBack(reason: string)
    ensures TEMPLATE_HEAD <= DenyBody(reason)
    ensures NoControls(reason) <==>
            ParseLiteral(DenyBody(reason)[|TEMPLATE_HEAD|..]) == Some(Literal(Codes(reason), TEMPLATE_TAIL[1..]))
  {
    TwoPassesAreOne(reason);
    EscapedTextReadsBack(reason, TEMPLATE_TAIL[1..]);
    assert TEMPLATE_TAIL == "\"" + TEMPLATE_TAIL[1..];
    assert DenyBody(reason)[|TEMPLATE_HEAD|..] == EscapeOnePass(reason) + TEMPLATE_TAIL;
  }
}

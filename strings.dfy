/**
 * String quoting and escaping used by the TONL encoder and decoder
 * (src/utils/strings.ts): when a string must be quoted, how it is escaped,
 * how a quoted field is read back, triple-quoted multi-line text and
 * indentation.
 */
module Strings {

  /** The field delimiters TONL allows. */
  datatype Delimiter = Comma | Pipe | Tab | Semicolon
  {
    function Char(): char {
      match this
      case Comma => ','
      case Pipe => '|'
      case Tab => '\t'
      case Semicolon => ';'
    }
  }

  // ---------------------------------------------------------------------------
  // Literal-looking strings (the three numeral regular expressions)
  // ---------------------------------------------------------------------------

  /** `\d` in a JavaScript regular expression: an ASCII digit. */
  predicate IsDigit(c: char) {
    '0' <= c <= '9'
  }

  predicate AllDigits(s: string) {
    forall i :: 0 <= i < |s| ==> IsDigit(s[i])
  }

  /** Consumes the optional leading `-?` of a numeral pattern. */
  function DropMinus(s: string): string {
    if |s| > 0 && s[0] == '-' then s[1..] else s
  }

  /** `/^-?\d+$/` */
  predicate IntegerLike(s: string) {
    var u := DropMinus(s);
    |u| > 0 && AllDigits(u)
  }

  /** `/^-?\d*\.\d+$/` */
  predicate DecimalLike(s: string) {
    var u := DropMinus(s);
    exists k :: 0 <= k < |u| - 1 && u[k] == '.' && AllDigits(u[..k]) && AllDigits(u[k + 1..])
  }

  /** `\d+\.?\d*`: the mantissa of a scientific numeral. */
  predicate Mantissa(m: string) {
    (|m| > 0 && AllDigits(m)) ||
    exists j :: 0 < j < |m| && m[j] == '.' && AllDigits(m[..j]) && AllDigits(m[j + 1..])
  }

  /** `[+-]?\d+`: the exponent of a scientific numeral. */
  predicate Exponent(x: string) {
    var y := if |x| > 0 && (x[0] == '+' || x[0] == '-') then x[1..] else x;
    |y| > 0 && AllDigits(y)
  }

  /** `/^-?\d+\.?\d*e[+-]?\d+$/i` */
  predicate ScientificLike(s: string) {
    var u := DropMinus(s);
    exists k :: 0 <= k < |u| && (u[k] == 'e' || u[k] == 'E') && Mantissa(u[..k]) && Exponent(u[k + 1..])
  }

  /** `pat` occurs in `s` starting at index `i`. */
  predicate OccursAt(s: string, pat: string, i: nat) {
    i + |pat| <= |s| && s[i..i + |pat|] == pat
  }

  /** `s.includes(pat)` */
  predicate Contains(s: string, pat: string) {
    exists i: nat | i <= |s| :: OccursAt(s, pat, i)
  }

  // ---------------------------------------------------------------------------
  // needsQuoting / quoteIfNeeded
  // ---------------------------------------------------------------------------

  /** The TONL quoting rule (src/utils/strings.ts:10-39). */
  predicate NeedsQuoting(value: string, delimiter: Delimiter) {
    // empty, boolean-, null- and special-number-like spellings
    || value == ""
    || value == "true" || value == "false"
    || value == "null" || value == "undefined"
    || value == "Infinity" || value == "-Infinity" || value == "NaN"
    // numeral-like spellings
    || IntegerLike(value) || DecimalLike(value) || ScientificLike(value)
    // structural characters and edge spaces
    || delimiter.Char() in value
    || ':' in value || '{' in value || '}' in value || '#' in value || '"' in value
    || '\n' in value || '\t' in value || '\r' in value
    || (|value| > 0 && value[0] == ' ')
    || (|value| > 0 && value[|value| - 1] == ' ')
  }

  /**
   * `s.replace(/pat/g, rep)` for a literal pattern: occurrences are found left
   * to right and do not overlap.
   */
  function ReplaceAll(s: string, pat: string, rep: string): string
    requires |pat| > 0
    decreases |s|
  {
    if |s| == 0 then ""
    else if |pat| <= |s| && s[..|pat|] == pat then rep + ReplaceAll(s[|pat|..], pat, rep)
    else [s[0]] + ReplaceAll(s[1..], pat, rep)
  }

  /** Backslashes doubled first, then every quote prefixed by a backslash. */
  function Escaped(value: string): string {
    ReplaceAll(ReplaceAll(value, "\\", "\\\\"), "\"", "\\\"")
  }

  /** quoteIfNeeded (src/utils/strings.ts:44-51). */
  function QuoteIfNeeded(value: string, delimiter: Delimiter): (r: string)
    ensures !NeedsQuoting(value, delimiter) ==> r == value
    ensures NeedsQuoting(value, delimiter) ==> |r| >= 2 && r[0] == '"' && r[|r| - 1] == '"'
  {
    if NeedsQuoting(value, delimiter) then "\"" + Escaped(value) + "\"" else value
  }

  /** A value left bare contains none of the characters the decoder treats specially. */
  lemma BareValueIsPlain(value: string, delimiter: Delimiter, i: nat)
    requires !NeedsQuoting(value, delimiter)
    requires i < |value|
    ensures value[i] !in {delimiter.Char(), ':', '{', '}', '#', '"', '\n', '\t', '\r'}
    ensures value != "" && value[0] != ' ' && value[|value| - 1] != ' '
  {
    assert value[i] in value;
  }

  // ---------------------------------------------------------------------------
  // unquote
  // ---------------------------------------------------------------------------

  /** `value.slice(1, -1)` for a value of length at least one. */
  function Inner(value: string): string
    requires |value| >= 1
  {
    if |value| >= 2 then value[1..|value| - 1] else ""
  }

  /** The left-to-right unescaping that unquote performs on the text between the quotes. */
  function Unescaped(inner: string): string
    decreases |inner|
  {
    if |inner| == 0 then ""
    else if inner[0] == '\\' && |inner| > 1 && (inner[1] == '\\' || inner[1] == '"') then
      [inner[1]] + Unescaped(inner[2..])
    else [inner[0]] + Unescaped(inner[1..])
  }

  /** True when unquote strips the surrounding quotes. */
  predicate IsQuoted(value: string) {
    |value| >= 1 && value[0] == '"' && value[|value| - 1] == '"'
  }

  /** What unquote returns (src/utils/strings.ts:56-80). */
  function Unquoted(value: string): string {
    if IsQuoted(value) then Unescaped(Inner(value)) else value
  }

  /** unquote (src/utils/strings.ts:56-80): a scan advancing by one or two characters. */
  method Unquote(value: string) returns (result: string)
    ensures result == Unquoted(value)
    ensures !IsQuoted(value) ==> result == value
  {
    if |value| >= 1 && value[0] == '"' && value[|value| - 1] == '"' {
      var inner := Inner(value);
      result := "";
      var i := 0;
      while i < |inner|
        invariant 0 <= i <= |inner|
        invariant Unescaped(inner) == result + Unescaped(inner[i..])
      {
        UnescapedAt(inner, i);
        if inner[i] == '\\' && i + 1 < |inner| {
          var nextChar := inner[i + 1];
          if nextChar == '\\' || nextChar == '"' {
            result := result + [nextChar];
            i := i + 2;
          } else {
            result := result + [inner[i]];
            i := i + 1;
          }
        } else {
          result := result + [inner[i]];
          i := i + 1;
        }
      }
      assert inner[i..] == [];
    } else {
      result := value;
    }
  }

  /** One step of the unescaping scan, at index `i`. */
  lemma UnescapedAt(inner: string, i: nat)
    requires i < |inner|
    ensures inner[i] == '\\' && i + 1 < |inner| && (inner[i + 1] == '\\' || inner[i + 1] == '"') ==>
              Unescaped(inner[i..]) == [inner[i + 1]] + Unescaped(inner[i + 2..])
    ensures !(inner[i] == '\\' && i + 1 < |inner| && (inner[i + 1] == '\\' || inner[i + 1] == '"')) ==>
              Unescaped(inner[i..]) == [inner[i]] + Unescaped(inner[i + 1..])
  {
    assert inner[i..][1..] == inner[i + 1..];
    if i + 1 < |inner| {
      assert inner[i..][2..] == inner[i + 2..];
    }
  }

  /** A backslash that escapes neither a backslash nor a quote is kept verbatim. */
  lemma LoneBackslashKept(c: char, rest: string)
    requires c != '\\' && c != '"'
    ensures Unescaped(['\\', c] + rest) == ['\\', c] + Unescaped(rest)
  {
    var s := ['\\', c] + rest;
    assert s[1..] == [c] + rest;
    assert ([c] + rest)[1..] == rest;
  }

  // ---------------------------------------------------------------------------
  // Round trip: unquote(quoteIfNeeded(s, d)) == s
  // ---------------------------------------------------------------------------

  /** The escape sequence one character becomes. */
  function EscapeChar(c: char): string {
    if c == '\\' then "\\\\" else if c == '"' then "\\\"" else [c]
  }

  /** A one-character pattern is replaced character by character. */
  lemma {:induction false} ReplaceCharConcat(a: string, b: string, pat: string, rep: string)
    requires |pat| == 1
    ensures ReplaceAll(a + b, pat, rep) == ReplaceAll(a, pat, rep) + ReplaceAll(b, pat, rep)
  {
    if |a| > 0 {
      assert (a + b)[..1] == a[..1];
      assert (a + b)[1..] == a[1..] + b;
      ReplaceCharConcat(a[1..], b, pat, rep);
    } else {
      assert a + b == b;
    }
  }

  /** Escaping works character by character. */
  lemma EscapedCons(s: string)
    requires |s| > 0
    ensures Escaped(s) == EscapeChar(s[0]) + Escaped(s[1..])
  {
    var d := ReplaceAll(s, "\\", "\\\\");
    var head := if s[0] == '\\' then "\\\\" else [s[0]];
    assert d == head + ReplaceAll(s[1..], "\\", "\\\\");
    ReplaceCharConcat(head, ReplaceAll(s[1..], "\\", "\\\\"), "\"", "\\\"");
    if s[0] == '\\' {
      assert ReplaceAll("\\\\", "\"", "\\\"") == "\\" + ReplaceAll("\\", "\"", "\\\"");
      assert ReplaceAll("\\", "\"", "\\\"") == "\\" + ReplaceAll("", "\"", "\\\"");
    } else {
      assert ReplaceAll([s[0]], "\"", "\\\"") == EscapeChar(s[0]) + ReplaceAll([], "\"", "\\\"");
    }
  }

  /** Unescaping consumes exactly one escape sequence. */
  lemma UnescapeEscapeChar(c: char, rest: string)
    ensures Unescaped(EscapeChar(c) + rest) == [c] + Unescaped(rest)
  {
    var s := EscapeChar(c) + rest;
    if c == '\\' || c == '"' {
      assert s[0] == '\\' && s[1] == c && s[2..] == rest;
    } else {
      assert s[0] == c && s[1..] == rest;
    }
  }

  /** Unescaping undoes escaping. */
  lemma {:induction false} UnescapeEscaped(s: string)
    ensures Unescaped(Escaped(s)) == s
  {
    if |s| == 0 {
      assert Escaped(s) == "";
    } else {
      EscapedCons(s);
      UnescapeEscapeChar(s[0], Escaped(s[1..]));
      UnescapeEscaped(s[1..]);
    }
  }

  /** The quoting round trip (src/utils/strings.ts:44-80). */
  lemma QuoteRoundTrip(s: string, d: Delimiter)
    ensures Unquoted(QuoteIfNeeded(s, d)) == s
  {
    if NeedsQuoting(s, d) {
      var q := QuoteIfNeeded(s, d);
      assert Inner(q) == Escaped(s);
      UnescapeEscaped(s);
    } else {
      assert s != "";
      assert s[0] in s;
    }
  }

  /** Two strings quote to the same text only if they are equal. */
  lemma QuoteInjective(s: string, t: string, d: Delimiter)
    requires QuoteIfNeeded(s, d) == QuoteIfNeeded(t, d)
    ensures s == t
  {
    QuoteRoundTrip(s, d);
    QuoteRoundTrip(t, d);
  }

  // ---------------------------------------------------------------------------
  // Triple quotes
  // ---------------------------------------------------------------------------

  const TripleQuote: string := "\"\"\""

  /** Backslashes doubled first, then every `"""` prefixed by a backslash. */
  function TripleEscaped(value: string): string {
    ReplaceAll(ReplaceAll(value, "\\", "\\\\"), TripleQuote, "\\" + TripleQuote)
  }

  /** tripleQuoteIfNeeded (src/utils/strings.ts:85-95). */
  function TripleQuoteIfNeeded(value: string, delimiter: Delimiter): (r: string)
    ensures ('\n' in value || Contains(value, TripleQuote)) ==>
              r == TripleQuote + TripleEscaped(value) + TripleQuote
    ensures !('\n' in value || Contains(value, TripleQuote)) ==> r == QuoteIfNeeded(value, delimiter)
  {
    if '\n' in value || Contains(value, TripleQuote) then
      TripleQuote + TripleEscaped(value) + TripleQuote
    else QuoteIfNeeded(value, delimiter)
  }

  /**
   * A reference inverse of the triple-quote escaping (the multi-line reader is
   * not part of this model): `\"""` stands for `"""`, `\\` for `\`.
   */
  function TripleUnescaped(e: string): string
    decreases |e|
  {
    if |e| == 0 then ""
    else if |e| >= 4 && e[..4] == "\\" + TripleQuote then TripleQuote + TripleUnescaped(e[4..])
    else if |e| >= 2 && e[..2] == "\\\\" then "\\" + TripleUnescaped(e[2..])
    else [e[0]] + TripleUnescaped(e[1..])
  }

  /** After backslash doubling, a string starts with a quote exactly when the original did. */
  lemma DoubledHead(t: string)
    ensures var d := ReplaceAll(t, "\\", "\\\\");
            (|d| > 0 && d[0] == '"') <==> (|t| > 0 && t[0] == '"')
    ensures |t| > 0 && t[0] == '"' ==>
              ReplaceAll(t, "\\", "\\\\") == "\"" + ReplaceAll(t[1..], "\\", "\\\\")
  {
  }

  /** The triple-quote escaping loses nothing: its reference inverse recovers the value. */
  lemma {:induction false} TripleRoundTrip(s: string)
    ensures TripleUnescaped(TripleEscaped(s)) == s
  {
    var esc := "\\" + TripleQuote;
    if |s| == 0 {
    } else if |s| >= 3 && s[..3] == TripleQuote {
      TripleEscapedQuoteStep(s);
      var t := esc + TripleEscaped(s[3..]);
      assert t[..4] == esc && t[4..] == TripleEscaped(s[3..]);
      TripleRoundTrip(s[3..]);
      assert s == TripleQuote + s[3..];
    } else if s[0] == '\\' {
      TripleEscapedBackslashStep(s);
      var t := "\\\\" + TripleEscaped(s[1..]);
      assert t[1] == '\\' && esc[1] == '"';
      assert t[..2] == "\\\\" && t[2..] == TripleEscaped(s[1..]);
      TripleRoundTrip(s[1..]);
      assert s == "\\" + s[1..];
    } else {
      TripleEscapedOtherStep(s);
      var t := [s[0]] + TripleEscaped(s[1..]);
      assert t[0] == s[0] && t[1..] == TripleEscaped(s[1..]);
      TripleRoundTrip(s[1..]);
      assert s == [s[0]] + s[1..];
    }
  }

  lemma {:induction false} NoBackslashUnchanged(t: string)
    requires '\\' !in t
    ensures ReplaceAll(t, "\\", "\\\\") == t
  {
    if |t| > 0 {
      assert t[..1][0] == t[0];
      NoBackslashUnchanged(t[1..]);
      assert t == [t[0]] + t[1..];
    }
  }

  lemma TripleHead(d: string)
    ensures |d| >= 3 && d[..3] == TripleQuote ==> d[0] == '"' && d[1] == '"' && d[2] == '"'
  {
    if |d| >= 3 && d[..3] == TripleQuote {
      assert d[..3][0] == d[0] && d[..3][1] == d[1] && d[..3][2] == d[2];
    }
  }

  lemma TripleEscapedQuoteStep(s: string)
    requires |s| >= 3 && s[..3] == TripleQuote
    ensures TripleEscaped(s) == "\\" + TripleQuote + TripleEscaped(s[3..])
  {
    var esc := "\\" + TripleQuote;
    ReplaceCharConcat(TripleQuote, s[3..], "\\", "\\\\");
    assert s == TripleQuote + s[3..];
    var rest := ReplaceAll(s[3..], "\\", "\\\\");
    NoBackslashUnchanged(TripleQuote);
    assert (TripleQuote + rest)[..3] == TripleQuote && (TripleQuote + rest)[3..] == rest;
  }

  lemma TripleEscapedBackslashStep(s: string)
    requires |s| > 0 && s[0] == '\\'
    ensures TripleEscaped(s) == "\\\\" + TripleEscaped(s[1..])
  {
    var esc := "\\" + TripleQuote;
    var rest := ReplaceAll(s[1..], "\\", "\\\\");
    assert ReplaceAll(s, "\\", "\\\\") == "\\\\" + rest;
    var tail := ReplaceAll(rest, TripleQuote, esc);
    assert ("\\\\" + rest)[1..] == "\\" + rest;
    assert ("\\" + rest)[1..] == rest;
    assert ReplaceAll("\\" + rest, TripleQuote, esc) == "\\" + tail;
  }

  lemma TripleEscapedOtherStep(s: string)
    requires |s| > 0 && s[0] != '\\' && !(|s| >= 3 && s[..3] == TripleQuote)
    ensures TripleEscaped(s) == [s[0]] + TripleEscaped(s[1..])
  {
    var esc := "\\" + TripleQuote;
    var dbl := ReplaceAll(s, "\\", "\\\\");
    var rest := ReplaceAll(s[1..], "\\", "\\\\");
    assert dbl == [s[0]] + rest;
    DoubledHead(s[1..]);
    TripleHead(dbl);
    if s[0] == '"' && |s| > 1 && s[1] == '"' {
      DoubledHead(s[2..]);
      assert s[1..][1..] == s[2..];
      var more := ReplaceAll(s[2..], "\\", "\\\\");
      assert dbl == "\"\"" + more;
      assert |dbl| >= 3 ==> |s| >= 3 && s[2] != '"' && dbl[2] == more[0];
    }
    assert !(|dbl| >= 3 && dbl[..3] == TripleQuote);
    assert ([s[0]] + rest)[1..] == rest;
  }

  // ---------------------------------------------------------------------------
  // Indentation
  // ---------------------------------------------------------------------------

  /** `s.repeat(n)` */
  function Repeat(s: string, n: nat): (r: string)
    ensures |r| == n * |s|
    ensures forall i :: 0 <= i < |r| ==> r[i] in s
  {
    if n == 0 then "" else s + Repeat(s, n - 1)
  }

  /** makeIndent (src/utils/strings.ts:100-102). */
  function MakeIndent(level: nat, spaces: nat): (r: string)
    ensures |r| == level * spaces
    ensures forall i :: 0 <= i < |r| ==> r[i] == ' '
  {
    Repeat(" ", level * spaces)
  }
}

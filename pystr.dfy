/** The Python conversions the directive translator relies on: `repr` of a
    `str` (inside `str(options)`, the rendering of a list of strings) and
    `int()` of a string (for the `arg:…:perf` bound). Characters below
    U+0100 are escaped as Python escapes them; characters from U+0100 up are
    taken to be printable. */
module PyStr {
  import opened Results
  import opened Text

  // ------------------------------------------------------------------- repr

  function HexDigit(d: nat): (c: char)
    requires d < 16
    ensures HexValue(c) == Some(d)
  {
    if d < 10 then DigitChar(d) else ('a' as int + d - 10) as char
  }

  /** The value of a lower-case hexadecimal digit. */
  function HexValue(c: char): Option<nat> {
    if '0' <= c <= '9' then Some(c as int - '0' as int)
    else if 'a' <= c <= 'f' then Some(c as int - 'a' as int + 10)
    else None
  }

  /** The quote `repr` puts around `s`: double quotes only when `s` holds a
      single quote and no double quote. */
  function QuoteFor(s: string): (q: char)
    ensures q == '\'' || q == '"'
    ensures q == '"' <==> '\'' in s && '"' !in s
  {
    if '\'' in s && '"' !in s then '"' else '\''
  }

  /** The characters below U+0100 that `repr` writes as `\xhh`: the
      control characters other than tab, line feed and carriage return,
      U+007F to U+009F, the no-break space U+00A0 and the soft hyphen U+00AD
      (the characters Python does not count as printable). */
  predicate HexEscaped(c: char) {
    || (c < ' ' && c != '\t' && c != '\n' && c != '\r')
    || ('\U{7F}' <= c <= '\U{A0}')
    || c == '\U{AD}'
  }

  /** How `repr` writes one character of a string quoted by `q`. */
  function EscapeChar(c: char, q: char): (r: string)
    ensures r != []
  {
    if c == '\\' || c == q then ['\\', c]
    else if c == '\t' then "\\t"
    else if c == '\n' then "\\n"
    else if c == '\r' then "\\r"
    else if HexEscaped(c) then ['\\', 'x', HexDigit(c as int / 16), HexDigit(c as int % 16)]
    else [c]
  }

  function EscapeBody(s: string, q: char): (r: string)
    ensures |r| >= |s|
    decreases |s|
  {
    if s == [] then "" else EscapeChar(s[0], q) + EscapeBody(s[1..], q)
  }

  /** `repr(s)` for a `str`: the body between the quote `QuoteFor` picks. */
  function Repr(s: string): (r: string)
    ensures |r| >= |s| + 2
    ensures r[0] == QuoteFor(s) && r[|r| - 1] == QuoteFor(s)
  {
    var q := QuoteFor(s);
    [q] + EscapeBody(s, q) + [q]
  }

  /** Reads back the escapes `repr` writes; `None` on a malformed escape. */
  function Unescape(t: string): Option<string>
    decreases |t|
  {
    if t == [] then Some("")
    else if t[0] != '\\' then
      match Unescape(t[1..])
      case None => None
      case Some(rest) => Some([t[0]] + rest)
    else if |t| < 2 then None
    else
      var e := t[1];
      var decoded: Option<(char, nat)> :=
        if e == '\\' || e == '\'' || e == '"' then Some((e, 2))
        else if e == 't' then Some(('\t', 2))
        else if e == 'n' then Some(('\n', 2))
        else if e == 'r' then Some(('\r', 2))
        else if e == 'x' && |t| >= 4 && HexValue(t[2]).Some? && HexValue(t[3]).Some? then
          Some(((HexValue(t[2]).value * 16 + HexValue(t[3]).value) as char, 4))
        else None;
      match decoded
      case None => None
      case Some(p) =>
        match Unescape(t[p.1..])
        case None => None
        case Some(rest) => Some([p.0] + rest)
  }

  /** The string a `repr` literal denotes. */
  function Unrepr(r: string): Option<string> {
    if |r| >= 2 && r[0] == r[|r| - 1] && (r[0] == '\'' || r[0] == '"') then Unescape(r[1..|r| - 1])
    else None
  }

  lemma {:induction false} UnescapeChar(c: char, q: char, rest: string)
    requires q == '\'' || q == '"'
    ensures Unescape(EscapeChar(c, q) + rest)
            == match Unescape(rest) case None => None case Some(s) => Some([c] + s)
  {
    var t := EscapeChar(c, q) + rest;
    var e := EscapeChar(c, q);
    if HexEscaped(c) && !(c == '\\' || c == q) {
      var hi, lo := c as int / 16, c as int % 16;
      assert t[2] == HexDigit(hi) && t[3] == HexDigit(lo);
      assert t[4..] == rest;
      assert (hi * 16 + lo) as char == c;
    } else if |e| == 2 {
      assert t[2..] == rest;
    } else {
      assert t[1..] == rest;
    }
  }

  lemma {:induction false} UnescapeBody(s: string, q: char)
    requires q == '\'' || q == '"'
    ensures Unescape(EscapeBody(s, q)) == Some(s)
    decreases |s|
  {
    if s != [] {
      UnescapeBody(s[1..], q);
      UnescapeChar(s[0], q, EscapeBody(s[1..], q));
      assert [s[0]] + s[1..] == s;
    }
  }

  /** `repr` loses nothing: the literal it writes denotes the string. */
  lemma ReprRoundTrip(s: string)
    ensures Unrepr(Repr(s)) == Some(s)
  {
    var q := QuoteFor(s);
    var r := Repr(s);
    assert r[1..|r| - 1] == EscapeBody(s, q);
    UnescapeBody(s, q);
  }

  /** A plain string: no quote, no backslash and no character `repr`
      escapes. */
  predicate Plain(s: string) {
    forall i :: 0 <= i < |s| ==>
      s[i] != '\'' && s[i] != '"' && s[i] != '\\' && ' ' <= s[i] && !('\U{7F}' <= s[i] <= '\U{A0}')
      && s[i] != '\U{AD}'
  }

  lemma {:induction false} PlainBody(s: string)
    requires Plain(s)
    ensures EscapeBody(s, '\'') == s
    decreases |s|
  {
    if s != [] {
      assert Plain(s[1..]) by {
        forall i | 0 <= i < |s[1..]| ensures s[1..][i] == s[i + 1] {
        }
      }
      PlainBody(s[1..]);
      assert [s[0]] + s[1..] == s;
    }
  }

  /** A plain string is written between single quotes, unchanged. */
  lemma ReprPlain(s: string)
    requires Plain(s)
    ensures Repr(s) == "'" + s + "'"
  {
    PlainBody(s);
  }

  /** The soft hyphen is not printable, so `repr` escapes it. */
  lemma SoftHyphenEscaped()
    ensures Repr("\U{AD}") == "'\\xad'"
  {
    assert 0xAD / 16 == 10 && 0xAD % 16 == 13;
  }

  /** A control character is written as `\x` and two lower-case hex digits. */
  lemma ControlEscaped(c: char)
    requires c < ' ' && c != '\t' && c != '\n' && c != '\r'
    ensures Repr([c]) == ['\'', '\\', 'x', HexDigit(c as int / 16), HexDigit(c as int % 16), '\'']
  {
    assert QuoteFor([c]) == '\'';
    assert EscapeBody([c], '\'') == EscapeChar(c, '\'') + EscapeBody([], '\'');
  }

  /** `str(xs)` for a list of strings: `[` and `]` around the `repr`s,
      separated by `, `. */
  function ListRepr(xs: seq<string>): (r: string)
    ensures xs == [] ==> r == "[]"
    ensures |r| >= 2 && r[0] == '[' && r[|r| - 1] == ']'
  {
    "[" + Join(", ", seq(|xs|, i requires 0 <= i < |xs| => Repr(xs[i]))) + "]"
  }

  /** One plain string renders as `['s']`. */
  lemma ListReprSingle(s: string)
    requires Plain(s)
    ensures ListRepr([s]) == "['" + s + "']"
  {
    ReprPlain(s);
    assert seq(1, i requires 0 <= i < 1 => Repr([s][i])) == [Repr(s)];
  }

  // -------------------------------------------------------------------- int

  /** The text of an integer literal after its sign: decimal digits, with
      single underscores allowed between digits. */
  predicate DigitGroups(b: string) {
    && b != [] && IsDigit(b[0]) && IsDigit(b[|b| - 1])
    && (forall i :: 0 <= i < |b| ==> IsDigit(b[i]) || b[i] == '_')
    && (forall i :: 0 <= i < |b| - 1 ==> b[i] == '_' ==> b[i + 1] != '_')
  }

  function RemoveUnderscores(b: string): (r: string)
    requires forall i :: 0 <= i < |b| ==> IsDigit(b[i]) || b[i] == '_'
    ensures AllDigits(r) && |r| <= |b|
    decreases |b|
  {
    if b == [] then ""
    else (if b[0] == '_' then "" else [b[0]]) + RemoveUnderscores(b[1..])
  }

  lemma {:induction false} RemoveNoUnderscores(b: string)
    requires AllDigits(b)
    ensures RemoveUnderscores(b) == b
    decreases |b|
  {
    if b != [] {
      RemoveNoUnderscores(b[1..]);
      assert [b[0]] + b[1..] == b;
    }
  }

  /** The literal once stripped: an optional sign, then digit groups. */
  function IntLiteral(t: string): (r: Option<int>)
    ensures r.Some? ==> t != []
  {
    var neg := t != [] && t[0] == '-';
    var body := if t != [] && (t[0] == '-' || t[0] == '+') then t[1..] else t;
    if DigitGroups(body) then
      var v: int := DigitsValue(RemoveUnderscores(body));
      Some(if neg then -v else v)
    else None
  }

  /** `int(s)`: `None` where Python raises `ValueError`. White space around
      the literal and a leading `+` or `-` are accepted. */
  function ParseInt(s: string): (r: Option<int>)
    ensures r.Some? ==> Strip(s) != []
  {
    IntLiteral(Strip(s))
  }

  /** `int` reads back what `"%d" %` writes. */
  lemma ParseIntRoundTrip(n: int)
    ensures ParseInt(IntToString(n)) == Some(n)
  {
    var s := IntToString(n);
    assert !IsSpace(s[0]) && !IsSpace(s[|s| - 1]) by {
      var m := if n < 0 then -n else n;
      assert s[|s| - 1] == NatToString(m)[|NatToString(m)| - 1];
    }
    StripNoSpace(s);
    IntLiteralRoundTrip(n);
  }

  lemma IntLiteralRoundTrip(n: int)
    ensures IntLiteral(IntToString(n)) == Some(n)
  {
    var m := if n < 0 then -n else n;
    var d := NatToString(m);
    NatToStringRoundTrip(m);
    if n < 0 {
      assert IntToString(n) == "-" + d;
      IntLiteralDigits(d, true);
    } else {
      IntLiteralDigits(d, false);
    }
  }

  /** A run of digits, with or without a minus sign in front. */
  lemma IntLiteralDigits(d: string, neg: bool)
    requires d != [] && AllDigits(d)
    ensures IntLiteral(if neg then "-" + d else d) == Some(if neg then -(DigitsValue(d) as int) else DigitsValue(d))
  {
    if neg {
      NegativeLiteral(d);
    } else {
      UnsignedLiteral(d);
    }
  }

  lemma UnsignedLiteral(d: string)
    requires d != [] && AllDigits(d)
    ensures IntLiteral(d) == Some(DigitsValue(d))
  {
    RemoveNoUnderscores(d);
    DigitsAreGroups(d);
    assert d[0] != '-' && d[0] != '+';
  }

  lemma NegativeLiteral(d: string)
    requires d != [] && AllDigits(d)
    ensures IntLiteral("-" + d) == Some(-(DigitsValue(d) as int))
  {
    RemoveNoUnderscores(d);
    DigitsAreGroups(d);
    var t := "-" + d;
    assert t[0] == '-' && t[1..] == d;
  }

  lemma DigitsAreGroups(d: string)
    requires d != [] && AllDigits(d)
    ensures DigitGroups(d)
  {
  }

  /** An empty literal, a lone sign, a doubled underscore and a non-digit are
      refused. */
  lemma ParseIntRefuses()
    ensures IntLiteral("") == None
    ensures IntLiteral("-") == None
    ensures IntLiteral("1__0") == None
    ensures IntLiteral("x") == None
  {
    var b := "1__0";
    assert b[1] == '_' && b[2] == '_';
    assert "-"[1..] == "";
  }

  /** Underscores between digits and a sign are accepted. */
  lemma ParseIntAccepts()
    ensures IntLiteral("1_000") == Some(1000)
    ensures IntLiteral("+7") == Some(7)
    ensures IntLiteral("-7") == Some(-7)
  {
    assert RemoveUnderscores("1_000") == "1000";
    assert DigitsValue("1000") == 1000 by {
      assert "1000"[..3] == "100" && "100"[..2] == "10" && "10"[..1] == "1";
    }
    assert "+7"[1..] == "7" && "-7"[1..] == "7";
    assert DigitsValue("7") == 7 by {
      assert "7"[..0] == "";
    }
  }

  /** Spaces around the literal are ignored. */
  lemma ParseIntPadded(s: string)
    requires s == [] || (!IsSpace(s[0]) && !IsSpace(s[|s| - 1]))
    ensures ParseInt(" " + s + " ") == IntLiteral(s)
  {
    StripPadded(s);
  }

  lemma StripPadded(s: string)
    requires s == [] || (!IsSpace(s[0]) && !IsSpace(s[|s| - 1]))
    ensures Strip(" " + s + " ") == s
  {
    var u := s + [' '];
    assert " " + s + " " == [' '] + u;
    StripLeftSpace(' ', u);
    if s == [] {
      StripLeftSpace(' ', []);
      assert [' '] + [] == u;
    } else {
      StripLeftNone(u);
      StripRightSpace(s, ' ');
      StripNoSpace(s);
    }
  }

  lemma StripLeftSpace(c: char, s: string)
    requires IsSpace(c)
    ensures StripLeft([c] + s) == StripLeft(s)
  {
    assert ([c] + s)[1..] == s;
  }

  lemma StripLeftNone(s: string)
    requires s == [] || !IsSpace(s[0])
    ensures StripLeft(s) == s
  {
  }

  lemma StripRightSpace(s: string, c: char)
    requires IsSpace(c)
    ensures StripRight(s + [c]) == StripRight(s)
  {
    assert (s + [c])[..|s|] == s;
  }
}

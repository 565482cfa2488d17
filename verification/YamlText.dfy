/** The line and scalar level of the YAML reader in src/infrastructure/api/swagger.ts: trimming,
  indentation, and the case analysis that gives a scalar its type. */
module YamlText {
  import opened Outcomes

  // ---- Whitespace ----

  /** What JavaScript's trim removes and \s matches. */
  predicate IsSpace(c: char) {
    c in {' ', '\t', '\n', '\U{0B}', '\U{0C}', '\r', '\U{A0}', '\U{1680}', '\U{2028}', '\U{2029}', '\U{202F}',
          '\U{205F}', '\U{3000}', '\U{FEFF}'}
    || '\U{2000}' <= c <= '\U{200A}'
  }

  function TrimStart(s: string): string {
    if s != [] && IsSpace(s[0]) then TrimStart(s[1..]) else s
  }

  function TrimEnd(s: string): string {
    if s != [] && IsSpace(s[|s| - 1]) then TrimEnd(s[..|s| - 1]) else s
  }

  function Trim(s: string): string {
    TrimEnd(TrimStart(s))
  }

  /** The position of the first character that is not white space. */
  function Indent(line: string): nat {
    if line != [] && IsSpace(line[0]) then 1 + Indent(line[1..]) else 0
  }

  function IndexOf(s: string, c: char): (r: Option<nat>)
    ensures r.Some? ==> r.value < |s|
  {
    if s == [] then None
    else if s[0] == c then Some(0)
    else match IndexOf(s[1..], c)
      case None => None
      case Some(i) => Some(i + 1)
  }

  /** Blank lines and comments. */
  predicate IsSkipped(line: string) {
    Trim(line) == [] || Trim(line)[0] == '#'
  }

  // ---- Scalars ----

  /** Integers up to here are exact; parseInt rounds others to the nearest double. */
  const EXACT := 0x20_0000_0000_0000

  predicate IsExact(n: int) {
    -EXACT <= n <= EXACT
  }

  /** A large integer, a decimal number and a JSON array keep their text: `Large(t)` is parseInt(t),
      `Decimal(t)` is parseFloat(t) and `Inline(t)` is JSON.parse(t). */
  datatype Scalar =
    | Bool(value: bool)
    | Null
    | Integer(n: int)
    | Large(text: string)
    | Decimal(text: string)
    | Text(s: string)
    | Inline(json: string)

  predicate IsDigit(c: char) {
    '0' <= c <= '9'
  }

  predicate AllDigits(s: string) {
    forall i :: 0 <= i < |s| ==> IsDigit(s[i])
  }

  function Unsigned(s: string): string {
    if s != [] && s[0] == '-' then s[1..] else s
  }

  predicate IsInteger(s: string) {
    Unsigned(s) != [] && AllDigits(Unsigned(s))
  }

  predicate IsDecimal(s: string) {
    match IndexOf(Unsigned(s), '.')
    case None => false
    case Some(i) =>
      var u := Unsigned(s);
      0 < i && AllDigits(u[..i]) && i + 1 < |u| && AllDigits(u[i + 1..])
  }

  function DigitsValue(s: string): nat
    requires AllDigits(s)
  {
    if s == [] then 0 else 10 * DigitsValue(s[..|s| - 1]) + (s[|s| - 1] as nat - '0' as nat)
  }

  function ParseInteger(s: string): int
    requires IsInteger(s)
  {
    if s[0] == '-' then 0 - DigitsValue(s[1..]) else DigitsValue(s)
  }

  predicate QuotedBy(value: string, quote: char) {
    value != [] && value[0] == quote && value[|value| - 1] == quote
  }

  /** `accepts` says which texts JSON.parse does not throw on. A lone quote is both ends of
      itself, and slicing it leaves nothing. */
  function ParseValue(value: string, accepts: string -> bool): Scalar {
    if value == "true" then Bool(true)
    else if value == "false" then Bool(false)
    else if value == "null" then Null
    else if IsInteger(value) then
      if IsExact(ParseInteger(value)) then Integer(ParseInteger(value)) else Large(value)
    else if IsDecimal(value) then Decimal(value)
    else if QuotedBy(value, '"') || QuotedBy(value, '\'') then
      Text(if |value| == 1 then "" else value[1..|value| - 1])
    else if value != [] && value[0] == '[' then
      if accepts(value) then Inline(value) else Text(value)
    else Text(value)
  }

  // ---- Writing a scalar ----

  function Digits(n: nat): string {
    if n < 10 then [('0' as nat + n) as char] else Digits(n / 10) + [('0' as nat + n % 10) as char]
  }

  function ScalarText(s: Scalar): string {
    match s
    case Bool(b) => if b then "true" else "false"
    case Null => "null"
    case Integer(n) => if n < 0 then "-" + Digits(-n) else Digits(n)
    case Large(text) => text
    case Decimal(text) => text
    case Text(t) => "\"" + t + "\""
    case Inline(json) => json
  }

  /** The scalars that have a text: no line break inside, and number and array texts that are
      what they claim to be. */
  ghost predicate Writable(s: Scalar, accepts: string -> bool) {
    match s
    case Integer(n) => IsExact(n)
    case Large(text) => IsInteger(text) && !IsExact(ParseInteger(text))
    case Decimal(text) => IsDecimal(text)
    case Text(t) => '\n' !in t
    case Inline(json) => json != [] && json[0] == '[' && !IsSpace(json[|json| - 1]) && '\n' !in json && accepts(json)
    case _ => true
  }

  /** Nothing but white space. */
  predicate AllSpace(s: string) {
    forall i :: 0 <= i < |s| ==> IsSpace(s[i])
  }

  /** No white space at its ends, and no line break. */
  predicate Trimmed(s: string) {
    s != [] && !IsSpace(s[0]) && !IsSpace(s[|s| - 1]) && '\n' !in s
  }

  /** A text that needs no quotes: it is none of the words or numbers, is not quoted, and is no array, unless one
      that JSON.parse throws on. */
  ghost predicate Bare(t: string, accepts: string -> bool) {
    && Trimmed(t) && t !in {"true", "false", "null"} && !IsInteger(t) && !IsDecimal(t)
    && !(t[0] == t[|t| - 1] == '"') && !(t[0] == t[|t| - 1] == '\'')
    && (t[0] == '[' ==> !accepts(t))
  }

  /** The ways to write a scalar: a text between double or single quotes, or bare; anything else as it is. */
  ghost predicate Spells(text: string, v: Scalar, accepts: string -> bool) {
    match v
    case Text(t) =>
      text == "\"" + t + "\"" || text == "'" + t + "'" || (text == t && Bare(t, accepts))
    case _ => text == ScalarText(v)
  }

  lemma {:induction false} DigitsAreDigits(n: nat)
    ensures AllDigits(Digits(n)) && Digits(n) != []
    ensures DigitsValue(Digits(n)) == n
  {
    if n >= 10 {
      DigitsAreDigits(n / 10);
      assert Digits(n)[..|Digits(n)| - 1] == Digits(n / 10);
    } else {
      assert DigitsValue([]) == 0;
    }
  }

  lemma {:induction false} FoundAt(s: string, c: char)
    ensures match IndexOf(s, c)
            case None => c !in s
            case Some(i) => i < |s| && s[i] == c && c !in s[..i]
    decreases |s|
  {
    if s != [] && s[0] != c {
      FoundAt(s[1..], c);
    }
  }

  lemma {:induction false} FirstAfter(s: string, c: char, rest: string)
    requires c !in s
    ensures IndexOf(s + [c] + rest, c) == Some(|s|)
    decreases |s|
  {
    if s != [] {
      FirstAfter(s[1..], c, rest);
      assert (s + [c] + rest)[1..] == s[1..] + [c] + rest;
    }
  }

  /** No number is a quoted text, an array text or one of the three words. */
  lemma NumbersStartWithADigitOrSign(s: string)
    requires IsInteger(s) || IsDecimal(s)
    ensures s != [] && (IsDigit(s[0]) || s[0] == '-') && IsDigit(s[|s| - 1])
    ensures '\n' !in s
  {
    var u := Unsigned(s);
    FoundAt(u, '.');
    if IsInteger(s) {
      assert IsDigit(u[0]) && IsDigit(u[|u| - 1]);
    } else {
      var i := IndexOf(u, '.').value;
      assert IsDigit(u[..i][0]) && IsDigit(u[i + 1..][|u| - i - 2]);
      forall k | 0 <= k < |u|
        ensures u[k] != '\n'
      {
        if k < i {
          assert IsDigit(u[..i][k]);
        } else if k > i {
          assert IsDigit(u[i + 1..][k - i - 1]);
        }
      }
    }
    assert s == u || s == ['-'] + u;
  }

  lemma DecimalIsNotInteger(s: string)
    requires IsDecimal(s)
    ensures !IsInteger(s)
  {
    FoundAt(Unsigned(s), '.');
  }

  lemma IntegerText(n: int, accepts: string -> bool)
    requires IsExact(n)
    ensures ParseValue(ScalarText(Integer(n)), accepts) == Integer(n)
    ensures IsInteger(ScalarText(Integer(n)))
  {
    var t, d := ScalarText(Integer(n)), Digits(if n < 0 then 0 - n else n);
    DigitsAreDigits(if n < 0 then 0 - n else n);
    assert IsDigit(d[0]);
    if n < 0 {
      assert t[1..] == d;
    }
    assert Unsigned(t) == d;
  }

  lemma QuotedText(q: string, quote: char, accepts: string -> bool)
    requires quote in {'"', '\''}
    ensures ParseValue([quote] + q + [quote], accepts) == Text(q)
  {
    var t := [quote] + q + [quote];
    assert t[0] == quote && t[|t| - 1] == quote && t[1..|t| - 1] == q;
    if IsInteger(t) || IsDecimal(t) {
      NumbersStartWithADigitOrSign(t);
    }
  }

  lemma InlineText(json: string, accepts: string -> bool)
    requires json != [] && json[0] == '[' && accepts(json)
    ensures ParseValue(json, accepts) == Inline(json)
  {
    if IsInteger(json) || IsDecimal(json) {
      NumbersStartWithADigitOrSign(json);
    }
  }

  /** Reading a scalar, however it is written, gives it back. */
  lemma ParseScalarText(text: string, v: Scalar, accepts: string -> bool)
    requires Writable(v, accepts) && Spells(text, v, accepts)
    ensures ParseValue(text, accepts) == v
  {
    match v
    case Integer(n) => IntegerText(n, accepts);
    case Large(_) => NumbersStartWithADigitOrSign(text);
    case Decimal(_) =>
      NumbersStartWithADigitOrSign(text);
      DecimalIsNotInteger(text);
    case Text(t) =>
      QuotedText(t, '"', accepts);
      QuotedText(t, '\'', accepts);
    case Inline(json) => InlineText(json, accepts);
    case _ =>
  }

  lemma QuotedIsTrimmed(t: string, quote: char)
    requires quote in {'"', '\''} && '\n' !in t
    ensures Trimmed([quote] + t + [quote])
  {
    var text := [quote] + t + [quote];
    assert text[0] == quote && text[|text| - 1] == quote && !IsSpace(quote);
  }

  lemma NumberIsTrimmed(s: string)
    requires IsInteger(s) || IsDecimal(s)
    ensures Trimmed(s)
  {
    NumbersStartWithADigitOrSign(s);
  }

  /** A written scalar stands on one line and trimming leaves it alone. */
  lemma ScalarTextIsTrimmed(text: string, v: Scalar, accepts: string -> bool)
    requires Writable(v, accepts) && Spells(text, v, accepts)
    ensures Trimmed(text)
  {
    match v
    case Integer(n) =>
      IntegerText(n, accepts);
      NumberIsTrimmed(text);
    case Large(_) => NumberIsTrimmed(text);
    case Decimal(_) => NumberIsTrimmed(text);
    case Text(t) =>
      QuotedIsTrimmed(t, '"');
      QuotedIsTrimmed(t, '\'');
      assert "\"" + t + "\"" == ['"'] + t + ['"'] && "'" + t + "'" == ['\''] + t + ['\''];
    case _ =>
  }

  /** A lone quote is both ends of itself, and reads as an empty text. */
  lemma LoneQuote(accepts: string -> bool)
    ensures ParseValue("\"", accepts) == ParseValue("'", accepts) == Text("")
  {
  }

  /** An integer is digits, a decimal digits on both sides of a point, either after at most one minus. */
  lemma NumberForms(sign: string, whole: string, part: string)
    requires sign in {"", "-"}
    requires forall c :: c in whole || c in part ==> c in "0123456789"
    ensures IsInteger(sign + whole) <==> whole != []
    ensures IsDecimal(sign + (whole + "." + part)) <==> whole != [] && part != []
  {
    var digits, u := sign + whole, whole + "." + part;
    forall c | c in whole || c in part
      ensures IsDigit(c)
    {
      var i :| 0 <= i < 10 && c == "0123456789"[i];
    }
    assert Unsigned(digits) == whole && Unsigned(sign + u) == u by {
      assert whole != [] ==> IsDigit(whole[0]);
    }
    assert '.' !in whole;
    FirstAfter(whole, '.', part);
    assert u[..|whole|] == whole && u[|whole| + 1..] == part;
  }

  /** The other way round, every number is of such a form. */
  lemma NumberIsFormed(s: string) returns (sign: string, whole: string, part: string)
    requires IsInteger(s) || IsDecimal(s)
    ensures sign in {"", "-"} && whole != [] && AllDigits(whole) && AllDigits(part)
    ensures IsInteger(s) ==> s == sign + whole
    ensures IsDecimal(s) ==> s == sign + (whole + "." + part) && part != []
  {
    var u := Unsigned(s);
    NumbersStartWithADigitOrSign(s);
    sign, whole, part := if s[0] == '-' then "-" else "", u, "";
    assert s == sign + u;
    if IsDecimal(s) {
      DecimalIsNotInteger(s);
      whole, part := AroundPoint(s);
    }
  }

  lemma AroundPoint(s: string) returns (whole: string, part: string)
    requires IsDecimal(s)
    ensures whole != [] && part != [] && AllDigits(whole) && AllDigits(part) && Unsigned(s) == whole + "." + part
  {
    var u := Unsigned(s);
    FoundAt(u, '.');
    var i := IndexOf(u, '.').value;
    whole, part := u[..i], u[i + 1..];
    assert u == u[..i] + [u[i]] + u[i + 1..];
  }

  lemma DigitChars(c: char)
    ensures IsDigit(c) <==> c in "0123456789"
  {
    if IsDigit(c) {
      assert "0123456789"[c as int - '0' as int] == c;
    }
  }

  /** White space: of the ASCII characters the blank, the tab, the line break and the carriage return, and two
      control characters; every one that prints is none. */
  lemma SpaceChars(c: char)
    ensures c in {' ', '\t', '\n', '\r', '\U{0B}', '\U{0C}', '\U{A0}', '\U{2028}', '\U{3000}', '\U{FEFF}'}
            ==> IsSpace(c)
    ensures '!' <= c <= '~' ==> !IsSpace(c)
    ensures c < '\t' ==> !IsSpace(c)
  {
  }

  // ---- Lines ----

  function Spaces(n: nat): string {
    seq(n, _ => ' ')
  }

  lemma {:induction false} TrimStartPad(pad: string, s: string)
    requires AllSpace(pad) && (s != [] ==> !IsSpace(s[0]))
    ensures TrimStart(pad + s) == s && Indent(pad + s) == |pad|
    decreases |pad|
  {
    var all := pad + s;
    if pad != [] {
      TrimStartPad(pad[1..], s);
      assert all[1..] == pad[1..] + s;
    } else {
      assert all == s;
    }
  }

  lemma TrimEndStep(s: string, c: char)
    ensures TrimEnd(s + [c]) == if IsSpace(c) then TrimEnd(s) else s + [c]
  {
    assert (s + [c])[..|s|] == s;
  }

  lemma {:induction false} TrimEndPad(s: string, pad: string)
    requires AllSpace(pad) && (s != [] ==> !IsSpace(s[|s| - 1]))
    ensures TrimEnd(s + pad) == s
    decreases |pad|
  {
    if pad == [] {
      assert s + pad == s;
    } else {
      var n := |pad| - 1;
      TrimEndPad(s, pad[..n]);
      TrimEndStep(s + pad[..n], pad[n]);
      assert s + pad == s + pad[..n] + [pad[n]];
    }
  }

  /** Trimming takes off exactly the white space around a text. */
  lemma TrimPadded(before: string, text: string, after: string)
    requires AllSpace(before) && AllSpace(after)
    requires text != [] ==> !IsSpace(text[0]) && !IsSpace(text[|text| - 1])
    ensures Trim(before + text + after) == text
  {
    if text == [] {
      var all := before + text + after;
      TrimStartPad(all, []);
      assert all + [] == all;
    } else {
      TrimStartPad(before, text + after);
      assert before + text + after == before + (text + after);
      TrimEndPad(text, after);
    }
  }

  /** A line whose text stands after some indentation. */
  lemma TrimLine(pad: string, body: string)
    requires AllSpace(pad) && body != [] && !IsSpace(body[0])
    ensures Trim(pad + body) == TrimEnd(body) && Indent(pad + body) == |pad|
  {
    TrimStartPad(pad, body);
  }

  /** What stands before a character that is no space outlasts trimming the end. */
  lemma {:induction false} TrimEndAfter(s: string, c: char, rest: string)
    requires !IsSpace(c)
    ensures TrimEnd(s + [c] + rest) == s + [c] + TrimEnd(rest)
    decreases |rest|
  {
    var all := s + [c] + rest;
    if rest != [] && IsSpace(rest[|rest| - 1]) {
      TrimEndAfter(s, c, rest[..|rest| - 1]);
      assert all[..|all| - 1] == s + [c] + rest[..|rest| - 1];
    }
  }

  /** Trimming brings in no character. */
  lemma {:induction false} TrimEndWithout(s: string, c: char)
    requires c !in s
    ensures c !in TrimEnd(s)
    decreases |s|
  {
    if s != [] && IsSpace(s[|s| - 1]) {
      TrimEndWithout(s[..|s| - 1], c);
    }
  }
}

/** The key under which a step-up binding is filed, src/background/auditor.ts: the JSON text of the
  array of its three fields. Distinct bindings never share a key, whatever separators or quotes
  their fields contain. */
module BindingKey {
  datatype Binding = Binding(credentialId: string, origin: string, operation: string)

  function HexDigit(n: nat): char
    requires n < 16
  {
    "0123456789abcdef"[n]
  }

  /** One character inside a JSON string, as JSON.stringify writes it. */
  function Escape(c: char): string {
    if c == '"' then "\\\""
    else if c == '\\' then "\\\\"
    else if c == '\U{08}' then "\\b"
    else if c == '\U{0C}' then "\\f"
    else if c == '\n' then "\\n"
    else if c == '\r' then "\\r"
    else if c == '\t' then "\\t"
    else if c < ' ' then "\\u00" + [HexDigit(c as nat / 16), HexDigit(c as nat % 16)]
    else [c]
  }

  function EscapeAll(s: string): string {
    if s == [] then [] else Escape(s[0]) + EscapeAll(s[1..])
  }

  function Quote(s: string): string {
    "\"" + EscapeAll(s) + "\""
  }

  function Key(b: Binding): string {
    "[" + (Quote(b.credentialId) + ("," + (Quote(b.origin) + ("," + (Quote(b.operation) + "]")))))
  }

  lemma HexDigitsDiffer(m: nat, n: nat)
    requires m < 16 && n < 16 && HexDigit(m) == HexDigit(n)
    ensures m == n
  {
  }

  /** A control character: its text has six characters, and no other text begins as it does. */
  predicate IsControl(c: char) {
    c < ' ' && c !in {'\U{08}', '\U{0C}', '\n', '\r', '\t'}
  }

  lemma EscapeShape(c: char)
    ensures var t := Escape(c);
            if IsControl(c) then |t| == 6 && t[0] == '\\' && t[1] == 'u'
                                 && t[4] == HexDigit(c as nat / 16) && t[5] == HexDigit(c as nat % 16)
            else if t[0] == '\\' then |t| == 2 && t[1] in {'"', '\\', 'b', 'f', 'n', 'r', 't'}
            else t == [c] && c != '"'
  {
  }

  /** No two characters' texts can be told apart late: what follows is determined too. */
  lemma EscapeIsPrefixFree(c: char, d: char, u: string, v: string)
    requires Escape(c) + u == Escape(d) + v
    ensures c == d && u == v
  {
    var x, y := Escape(c) + u, Escape(d) + v;
    EscapeShape(c);
    EscapeShape(d);
    assert x[0] == Escape(c)[0] && y[0] == Escape(d)[0];
    if Escape(c)[0] == '\\' {
      assert x[1] == Escape(c)[1] && y[1] == Escape(d)[1];
      if IsControl(c) {
        assert x[4] == Escape(c)[4] && y[4] == Escape(d)[4];
        assert x[5] == Escape(c)[5] && y[5] == Escape(d)[5];
        HexDigitsDiffer(c as nat / 16, d as nat / 16);
        HexDigitsDiffer(c as nat % 16, d as nat % 16);
      }
    }
    assert u == x[|Escape(c)|..] && v == y[|Escape(d)|..];
  }

  lemma NoTextStartsWithQuote(s: string, u: string)
    requires s != []
    ensures EscapeAll(s) + u != [] && (EscapeAll(s) + u)[0] != '"'
  {
    EscapeShape(s[0]);
    assert (EscapeAll(s) + u)[0] == Escape(s[0])[0];
  }

  lemma TextEndsTogether(s: string, t: string, u: string, v: string)
    requires EscapeAll(s) + ("\"" + u) == EscapeAll(t) + ("\"" + v)
    ensures s == [] <==> t == []
  {
    if s != [] {
      NoTextStartsWithQuote(s, "\"" + u);
    }
    if t != [] {
      NoTextStartsWithQuote(t, "\"" + v);
    }
  }

  lemma TextUnfolds(s: string, u: string)
    requires s != []
    ensures EscapeAll(s) + u == Escape(s[0]) + (EscapeAll(s[1..]) + u)
  {
  }

  lemma TailsAgree(c: char, u: string, v: string)
    requires [c] + u == [c] + v
    ensures u == v
  {
    assert u == ([c] + u)[1..] && v == ([c] + v)[1..];
  }

  lemma {:induction false} EscapeAllEndsAtQuote(s: string, t: string, u: string, v: string)
    requires EscapeAll(s) + ("\"" + u) == EscapeAll(t) + ("\"" + v)
    ensures s == t && u == v
    decreases |s|
  {
    TextEndsTogether(s, t, u, v);
    if s == [] {
      assert EscapeAll(s) + ("\"" + u) == "\"" + u && EscapeAll(t) + ("\"" + v) == "\"" + v;
      TailsAgree('"', u, v);
    } else {
      var p, q := EscapeAll(s[1..]) + ("\"" + u), EscapeAll(t[1..]) + ("\"" + v);
      TextUnfolds(s, "\"" + u);
      TextUnfolds(t, "\"" + v);
      EscapeIsPrefixFree(s[0], t[0], p, q);
      EscapeAllEndsAtQuote(s[1..], t[1..], u, v);
      assert s == [s[0]] + s[1..] && t == [t[0]] + t[1..];
    }
  }

  lemma QuoteUnfolds(s: string, u: string)
    ensures Quote(s) + u == "\"" + (EscapeAll(s) + ("\"" + u))
  {
  }

  /** A quoted field determines itself and what follows. */
  lemma QuoteIsPrefixFree(s: string, t: string, u: string, v: string)
    requires Quote(s) + u == Quote(t) + v
    ensures s == t && u == v
  {
    QuoteUnfolds(s, u);
    QuoteUnfolds(t, v);
    TailsAgree('"', EscapeAll(s) + ("\"" + u), EscapeAll(t) + ("\"" + v));
    EscapeAllEndsAtQuote(s, t, u, v);
  }

  /** The key identifies the binding. */
  lemma KeyIsInjective(b: Binding, c: Binding)
    requires Key(b) == Key(c)
    ensures b == c
  {
    var last, last' := Quote(b.operation) + "]", Quote(c.operation) + "]";
    var rest, rest' := Quote(b.origin) + ("," + last), Quote(c.origin) + ("," + last');
    TailsAgree('[', Quote(b.credentialId) + ("," + rest), Quote(c.credentialId) + ("," + rest'));
    QuoteIsPrefixFree(b.credentialId, c.credentialId, "," + rest, "," + rest');
    TailsAgree(',', rest, rest');
    QuoteIsPrefixFree(b.origin, c.origin, "," + last, "," + last');
    TailsAgree(',', last, last');
    QuoteIsPrefixFree(b.operation, c.operation, "]", "]");
  }
}

/**
 What JSON text looks like (RFC 8259, sections 4 to 7, in the two styles Python is
 asked for), said piece by piece, without a rest behind it.
 */
module JsonText {
  import opened Wrappers
  import opened Text
  import opened Json

  function Escaped(s: string): string {
    CharsOnto(s, "")
  }

  function Quoted(s: string): string {
    "\"" + Escaped(s) + "\""
  }

  lemma {:induction false} CharsText(s: string, rest: string)
    ensures CharsOnto(s, rest) == Escaped(s) + rest
  {
    if s == "" {
      assert "" + rest == rest;
    } else {
      CharsText(s[1..], rest);
      CharText(s[0], Escaped(s[1..]), rest);
    }
  }

  lemma CharText(c: char, text: string, rest: string)
    ensures CharOnto(c, text + rest) == CharOnto(c, text) + rest
  {
    if c != '"' && c != '\\' && c != '\n' && c != '\r' && c != '\t' && c != '\U{0C}' && c != '\U{08}' {
      if c < ' ' {
        var code := ['\\', 'u', '0', '0', HexDigit(c as nat / 16), HexDigit(c as nat % 16)];
        assert code + (text + rest) == code + text + rest;
      } else {
        assert [c] + (text + rest) == [c] + text + rest;
      }
    }
  }

  /** Escaping goes character by character. */
  lemma {:induction false} EscapedJoins(a: string, b: string)
    ensures Escaped(a + b) == Escaped(a) + Escaped(b)
  {
    if a == "" {
      assert a + b == b;
      assert "" + Escaped(b) == Escaped(b);
    } else {
      EscapedJoins(a[1..], b);
      assert (a + b)[1..] == a[1..] + b;
      CharText(a[0], Escaped(a[1..]), Escaped(b));
    }
  }

  lemma EscapeTable(c: char)
    ensures Escaped([c]) ==
              if c == '"' then "\\\"" else if c == '\\' then "\\\\"
              else if c == '\n' then "\\n" else if c == '\r' then "\\r" else if c == '\t' then "\\t"
              else if c == '\U{08}' then "\\b" else if c == '\U{0C}' then "\\f"
              else if c < ' ' then "\\u00" + [if c < '\U{10}' then '0' else '1', "0123456789abcdef"[c as nat % 16]]
              else [c]
  {
    assert [c][1..] == "";
    assert CharsOnto([c][1..], "") == "";
    assert Escaped([c]) == CharOnto(c, "");
    if c < ' ' {
      HexTable(c as nat / 16);
      HexTable(c as nat % 16);
      assert HexDigit(c as nat / 16) == if c < '\U{10}' then '0' else '1';
      CodeText(HexDigit(c as nat / 16), HexDigit(c as nat % 16));
    }
  }

  lemma CodeText(x: char, y: char)
    ensures ['\\', 'u', '0', '0', x, y] + "" == "\\u00" + [x, y]
  {
  }

  lemma HexTable(d: nat)
    requires d < 16
    ensures HexDigit(d) == "0123456789abcdef"[d]
  {
  }

  predicate NeedsNoEscape(s: string) {
    forall k | 0 <= k < |s| :: s[k] >= ' ' && s[k] != '"' && s[k] != '\\'
  }

  lemma {:induction false} PlainStays(s: string)
    requires NeedsNoEscape(s)
    ensures Escaped(s) == s
  {
    if s != "" {
      PlainStays(s[1..]);
      assert s == [s[0]] + s[1..];
    }
  }

  lemma StringText(s: string, rest: string)
    ensures StringOnto(s, rest) == Quoted(s) + rest
  {
    CharsText(s, ['"'] + rest);
    assert ['"'] + (Escaped(s) + (['"'] + rest)) == Quoted(s) + rest;
  }

  function CommaOf(style: Style): string {
    if style.Default? then ", " else ","
  }

  function ColonOf(style: Style): string {
    if style.Default? then ": " else ":"
  }

  function ItemTexts(style: Style, items: seq<Json>): (r: seq<string>)
    ensures |r| == |items| && forall k | 0 <= k < |r| :: r[k] == Dumps(style, items[k])
  {
    seq(|items|, k requires 0 <= k < |items| => Dumps(style, items[k]))
  }

  function FieldTexts(style: Style, fields: seq<Field>): (r: seq<string>)
    ensures |r| == |fields|
    ensures forall k | 0 <= k < |r| :: r[k] == Quoted(fields[k].key) + ColonOf(style) + Dumps(style, fields[k].value)
  {
    seq(|fields|, k requires 0 <= k < |fields| => Quoted(fields[k].key) + ColonOf(style) + Dumps(style, fields[k].value))
  }

  lemma {:induction false} NatText(n: nat, a: string, rest: string)
    ensures NatOnto(n, a + rest) == NatOnto(n, a) + rest
    decreases n
  {
    if n < 10 {
      assert [Digit(n)] + (a + rest) == [Digit(n)] + a + rest;
    } else {
      assert [Digit(n % 10)] + (a + rest) == [Digit(n % 10)] + a + rest;
      NatText(n / 10, [Digit(n % 10)] + a, rest);
    }
  }

  lemma WordText(word: string, rest: string)
    ensures word + rest == word + "" + rest
  {
    assert word + "" == word;
  }

  /** A value's text is the same in front of anything. */
  lemma {:induction false} ValueText(style: Style, v: Json, rest: string)
    ensures ValueOnto(style, v, rest) == Dumps(style, v) + rest
    decreases v, 1
  {
    match v {
      case Null => WordText("null", rest);
      case Bool(b) => WordText(if b then "true" else "false", rest);
      case Int(n) => IntText(style, n, rest);
      case Float(literal) => WordText(literal, rest);
      case String(s) =>
        StringText(s, rest);
        StringText(s, "");
        WordText(Quoted(s), rest);
      case Array(items) =>
        ItemsText(style, items, [']'] + rest);
        ItemsText(style, items, [']'] + "");
        Close('[', Join(ItemTexts(style, items), CommaOf(style)), ']', rest);
      case Object(fields) =>
        FieldsText(style, fields, ['}'] + rest);
        FieldsText(style, fields, ['}'] + "");
        Close('{', Join(FieldTexts(style, fields), CommaOf(style)), '}', rest);
    }
  }

  lemma Close(open: char, inner: string, close: char, rest: string)
    ensures [open] + (inner + ([close] + rest)) == [open] + (inner + ([close] + "")) + rest
    ensures [open] + (inner + ([close] + "")) == [open] + inner + [close]
  {
  }

  lemma NatStringText(n: nat, rest: string)
    ensures NatOnto(n, rest) == NatToString(n) + rest
  {
    assert "" + rest == rest;
    NatText(n, "", rest);
  }

  lemma Minus(digits: string, rest: string)
    ensures ['-'] + (digits + rest) == "-" + digits + rest
  {
  }

  lemma IntText(style: Style, n: int, rest: string)
    ensures ValueOnto(style, Int(n), rest) == Dumps(style, Int(n)) + rest
    ensures Dumps(style, Int(n)) == if n < 0 then "-" + NatToString(-n) else NatToString(n)
  {
    NatStringText(if n < 0 then -n else n, rest);
    if n < 0 {
      Minus(NatToString(-n), rest);
    }
  }

  lemma {:induction false} ItemsText(style: Style, items: seq<Json>, rest: string)
    ensures ItemsOnto(style, items, rest) == Join(ItemTexts(style, items), CommaOf(style)) + rest
    decreases items, 0
  {
    var texts := ItemTexts(style, items);
    if items == [] {
      assert "" + rest == rest;
    } else if |items| == 1 {
      ValueText(style, items[0], rest);
    } else {
      var more := ItemsOnto(style, items[1..], rest);
      ItemsText(style, items[1..], rest);
      assert texts[1..] == ItemTexts(style, items[1..]);
      ValueText(style, items[0], CommaOnto(style, more));
      JoinMore(texts, CommaOf(style), rest, more);
    }
  }

  lemma JoinMore(texts: seq<string>, sep: string, rest: string, more: string)
    requires |texts| > 1 && more == Join(texts[1..], sep) + rest
    ensures texts[0] + (sep + more) == Join(texts, sep) + rest
  {
  }

  lemma FieldText(style: Style, f: Field, rest: string)
    requires ValueOnto(style, f.value, rest) == Dumps(style, f.value) + rest
    ensures FieldOnto(style, f, rest) == Quoted(f.key) + ColonOf(style) + Dumps(style, f.value) + rest
  {
    StringText(f.key, ColonOnto(style, ValueOnto(style, f.value, rest)));
  }

  lemma {:induction false} FieldsText(style: Style, fields: seq<Field>, rest: string)
    ensures FieldsOnto(style, fields, rest) == Join(FieldTexts(style, fields), CommaOf(style)) + rest
    decreases fields, 0
  {
    var texts := FieldTexts(style, fields);
    if fields == [] {
      assert "" + rest == rest;
    } else if |fields| == 1 {
      ValueText(style, fields[0].value, rest);
      FieldText(style, fields[0], rest);
    } else {
      var more := FieldsOnto(style, fields[1..], rest);
      FieldsText(style, fields[1..], rest);
      assert texts[1..] == FieldTexts(style, fields[1..]);
      ValueText(style, fields[0].value, CommaOnto(style, more));
      FieldText(style, fields[0], CommaOnto(style, more));
      JoinMore(texts, CommaOf(style), rest, more);
    }
  }

  /** The text of every kind of value. */
  lemma DumpsReads(style: Style, v: Json)
    ensures Dumps(style, v) ==
              match v
              case Null => "null"
              case Bool(b) => if b then "true" else "false"
              case Int(n) => if n < 0 then "-" + NatToString(-n) else NatToString(n)
              case Float(literal) => literal
              case String(s) => Quoted(s)
              case Array(items) => "[" + Join(ItemTexts(style, items), CommaOf(style)) + "]"
              case Object(fields) => "{" + Join(FieldTexts(style, fields), CommaOf(style)) + "}"
  {
    match v {
      case String(s) => StringText(s, "");
      case Array(items) =>
        ItemsText(style, items, [']'] + "");
        Close('[', Join(ItemTexts(style, items), CommaOf(style)), ']', "");
      case Object(fields) =>
        FieldsText(style, fields, ['}'] + "");
        Close('{', Join(FieldTexts(style, fields), CommaOf(style)), '}', "");
      case _ =>
    }
  }

  /** Looking up a key finds its last field, or null if there is none. */
  lemma {:induction false} GetIsLast(fields: seq<Field>, key: string) returns (k: nat)
    ensures k <= |fields| && forall j | k <= j < |fields| :: fields[j].key != key
    ensures if k == 0 then Get(fields, key) == Null else fields[k-1].key == key && Get(fields, key) == fields[k-1].value
  {
    if fields == [] {
      k := 0;
    } else if fields[|fields|-1].key == key {
      k := |fields|;
    } else {
      k := GetIsLast(fields[..|fields|-1], key);
    }
  }

  /** What Python makes of a value as text, and of one that counts as false. */
  lemma PythonTexts(s: string, otherwise: string)
    ensures PyText(String(s)) == s && PyText(Null) == "None" && PyText(Bool(true)) == "True" && PyText(Int(-12)) == "-12"
    ensures PyTextOr(String(s), otherwise) == if s != "" then s else otherwise
    ensures PyTextOr(Null, otherwise) == PyTextOr(Bool(false), otherwise) == PyTextOr(Int(0), otherwise) == otherwise
    ensures PyTextOr(Array([]), otherwise) == PyTextOr(Object([]), otherwise) == otherwise
    ensures PyTextOr(Bool(true), otherwise) == "True" && PyTextOr(Int(7), otherwise) == "7"
  {
  }
}

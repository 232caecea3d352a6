/**
 JSON text as Python's `json` module writes and reads it (RFC 8259, sections 4 to 7).
 Writers put the text of a value in front of a given rest, so that reading it
 back leaves exactly that rest.
 */
module Json {
  import opened Wrappers
  import opened Text

  /** A float keeps its literal. An object keeps its fields in the order written. */
  datatype Json =
    | Null
    | Bool(b: bool)
    | Int(n: int)
    | Float(literal: string)
    | String(s: string)
    | Array(items: seq<Json>)
    | Object(fields: seq<Field>)

  datatype Field = Field(key: string, value: Json)

  /** By default a blank stands behind each comma and colon; the compact style has none. */
  datatype Style = Default | Compact

  // ----- writing ------------------------------------------------------------------

  function HexDigit(d: nat): char
    requires d < 16
  {
    if d < 10 then '0' + d as char else 'a' + (d - 10) as char
  }

  function CharOnto(c: char, rest: string): string {
    if c == '"' then ['\\', '"'] + rest
    else if c == '\\' then ['\\', '\\'] + rest
    else if c == '\n' then ['\\', 'n'] + rest
    else if c == '\r' then ['\\', 'r'] + rest
    else if c == '\t' then ['\\', 't'] + rest
    else if c == '\U{0C}' then ['\\', 'f'] + rest
    else if c == '\U{08}' then ['\\', 'b'] + rest
    else if c < ' ' then ['\\', 'u', '0', '0', HexDigit(c as nat / 16), HexDigit(c as nat % 16)] + rest
    else [c] + rest
  }

  function CharsOnto(s: string, rest: string): string {
    if s == "" then rest else CharOnto(s[0], CharsOnto(s[1..], rest))
  }

  function StringOnto(s: string, rest: string): string {
    ['"'] + CharsOnto(s, ['"'] + rest)
  }

  function CommaOnto(style: Style, rest: string): string {
    if style.Default? then [',', ' '] + rest else [','] + rest
  }

  function ColonOnto(style: Style, rest: string): string {
    if style.Default? then [':', ' '] + rest else [':'] + rest
  }

  function ValueOnto(style: Style, v: Json, rest: string): string
    decreases v, 1
  {
    match v
    case Null => ['n', 'u', 'l', 'l'] + rest
    case Bool(true) => ['t', 'r', 'u', 'e'] + rest
    case Bool(false) => ['f', 'a', 'l', 's', 'e'] + rest
    case Int(n) => if n < 0 then ['-'] + NatOnto(-n, rest) else NatOnto(n, rest)
    case Float(literal) => literal + rest
    case String(s) => StringOnto(s, rest)
    case Array(items) => ['['] + ItemsOnto(style, items, [']'] + rest)
    case Object(fields) => ['{'] + FieldsOnto(style, fields, ['}'] + rest)
  }

  function ItemsOnto(style: Style, items: seq<Json>, rest: string): string
    decreases items, 0
  {
    if items == [] then rest
    else if |items| == 1 then ValueOnto(style, items[0], rest)
    else ValueOnto(style, items[0], CommaOnto(style, ItemsOnto(style, items[1..], rest)))
  }

  function FieldsOnto(style: Style, fields: seq<Field>, rest: string): string
    decreases fields, 0
  {
    if fields == [] then rest
    else if |fields| == 1 then FieldOnto(style, fields[0], rest)
    else FieldOnto(style, fields[0], CommaOnto(style, FieldsOnto(style, fields[1..], rest)))
  }

  function FieldOnto(style: Style, f: Field, rest: string): string
    decreases f, 2
  {
    StringOnto(f.key, ColonOnto(style, ValueOnto(style, f.value, rest)))
  }

  function Dumps(style: Style, v: Json): string {
    ValueOnto(style, v, "")
  }

  // ----- reading -------------------------------------------------------------------

  function SkipWs(s: string): (r: string)
    ensures |r| <= |s|
  {
    if s != "" && (s[0] == ' ' || s[0] == '\t' || s[0] == '\n' || s[0] == '\r') then SkipWs(s[1..]) else s
  }

  function HexValue(c: char): Option<nat> {
    if '0' <= c <= '9' then Some((c - '0') as nat)
    else if 'a' <= c <= 'f' then Some((c - 'a') as nat + 10)
    else if 'A' <= c <= 'F' then Some((c - 'A') as nat + 10)
    else None
  }

  function Hex4(s: string): Option<nat>
    requires |s| >= 4
  {
    match (HexValue(s[0]), HexValue(s[1]), HexValue(s[2]), HexValue(s[3]))
    case (Some(a), Some(b), Some(c), Some(d)) => Some(4096 * a + 256 * b + 16 * c + d)
    case (_, _, _, _) => None
  }

  function ScalarOf(n: nat): Option<char> {
    if n < 0xD800 || 0xE000 <= n < 0x11_0000 then Some(n as char) else None
  }

  /** One `\u` escape, or two that make up a surrogate pair; a lone surrogate is not a character here. */
  function ReadUnicode(s: string): (r: Option<(char, string)>)
    ensures r.Some? ==> |r.value.1| < |s|
  {
    if |s| < 4 || Hex4(s).None? then None
    else
      var n := Hex4(s).value;
      if 0xD800 <= n < 0xDC00 && |s| >= 10 && s[4] == '\\' && s[5] == 'u' && Hex4(s[6..]).Some?
         && 0xDC00 <= Hex4(s[6..]).value < 0xE000 then
        match ScalarOf(0x1_0000 + (n - 0xD800) * 0x400 + (Hex4(s[6..]).value - 0xDC00))
        case Some(c) => Some((c, s[10..]))
        case None => None
      else
        match ScalarOf(n)
        case Some(c) => Some((c, s[4..]))
        case None => None
  }

  function ReadEscape(s: string): (r: Option<(char, string)>)
    ensures r.Some? ==> |r.value.1| < |s|
  {
    if s == "" then None
    else if s[0] == '"' then Some(('"', s[1..]))
    else if s[0] == '\\' then Some(('\\', s[1..]))
    else if s[0] == '/' then Some(('/', s[1..]))
    else if s[0] == 'b' then Some(('\U{08}', s[1..]))
    else if s[0] == 'f' then Some(('\U{0C}', s[1..]))
    else if s[0] == 'n' then Some(('\n', s[1..]))
    else if s[0] == 'r' then Some(('\r', s[1..]))
    else if s[0] == 't' then Some(('\t', s[1..]))
    else if s[0] == 'u' then ReadUnicode(s[1..])
    else None
  }

  /** The characters up to the closing quote. */
  function ReadChars(s: string): (r: Option<(string, string)>)
    ensures r.Some? ==> |r.value.1| < |s|
    decreases |s|
  {
    if s == "" then None
    else if s[0] == '"' then Some(("", s[1..]))
    else if s[0] == '\\' then
      match ReadEscape(s[1..])
      case None => None
      case Some((c, rest)) =>
        match ReadChars(rest)
        case None => None
        case Some((t, rest')) => Some(([c] + t, rest'))
    else if s[0] < ' ' then None
    else
      match ReadChars(s[1..])
      case None => None
      case Some((t, rest)) => Some(([s[0]] + t, rest))
  }

  predicate Starts(s: string, word: string) {
    |word| <= |s| && s[..|word|] == word
  }

  function SkipDigits(s: string): (r: string)
    ensures |r| <= |s|
  {
    if s != "" && IsDigit(s[0]) then SkipDigits(s[1..]) else s
  }

  /** Behind a fraction, if there is one. */
  function SkipFraction(s: string): (r: string)
    ensures |r| <= |s|
  {
    if |s| >= 2 && s[0] == '.' && IsDigit(s[1]) then SkipDigits(s[1..]) else s
  }

  /** Behind an exponent, if there is one. */
  function SkipExponent(s: string): (r: string)
    ensures |r| <= |s|
  {
    if |s| >= 2 && (s[0] == 'e' || s[0] == 'E') then
      if IsDigit(s[1]) then SkipDigits(s[1..])
      else if |s| >= 3 && (s[1] == '-' || s[1] == '+') && IsDigit(s[2]) then SkipDigits(s[2..])
      else s
    else s
  }

  function ReadNumber(s: string): (r: Option<(Json, string)>)
    ensures r.Some? ==> |r.value.1| < |s|
  {
    var negative := s != "" && s[0] == '-';
    var t := if negative then s[1..] else s;
    if t == "" || !IsDigit(t[0]) then None
    else
      var (n, rest) := if t[0] == '0' then (0, t[1..]) else ReadDigits(t[1..], DigitValue(t[0]));
      var tail := SkipExponent(SkipFraction(rest));
      if tail != rest then Some((Float(s[..|s|-|tail|]), tail))
      else Some((if negative then Int(-(n as int)) else Int(n), rest))
  }

  function ReadValue(s: string): (r: Option<(Json, string)>)
    ensures r.Some? ==> |r.value.1| < |s|
    decreases |s|, 1
  {
    if s == "" then None
    else if s[0] == '"' then
      match ReadChars(s[1..])
      case None => None
      case Some((t, rest)) => Some((String(t), rest))
    else if s[0] == '{' then
      var inner := SkipWs(s[1..]);
      if inner != "" && inner[0] == '}' then Some((Object([]), inner[1..]))
      else
        match ReadFields(inner)
        case None => None
        case Some((fields, rest)) => Some((Object(fields), rest))
    else if s[0] == '[' then
      var inner := SkipWs(s[1..]);
      if inner != "" && inner[0] == ']' then Some((Array([]), inner[1..]))
      else
        match ReadItems(inner)
        case None => None
        case Some((items, rest)) => Some((Array(items), rest))
    else if Starts(s, "null") then Some((Null, s[4..]))
    else if Starts(s, "true") then Some((Bool(true), s[4..]))
    else if Starts(s, "false") then Some((Bool(false), s[5..]))
    else if Starts(s, "NaN") then Some((Float("NaN"), s[3..]))
    else if Starts(s, "Infinity") then Some((Float("Infinity"), s[8..]))
    else if Starts(s, "-Infinity") then Some((Float("-Infinity"), s[9..]))
    else ReadNumber(s)
  }

  /** Items up to and including the closing bracket. */
  function ReadItems(s: string): (r: Option<(seq<Json>, string)>)
    ensures r.Some? ==> |r.value.1| < |s|
    decreases |s|, 2
  {
    match ReadValue(s)
    case None => None
    case Some((v, rest)) =>
      var t := SkipWs(rest);
      if t == "" then None
      else if t[0] == ']' then Some(([v], t[1..]))
      else if t[0] != ',' then None
      else
        match ReadItems(SkipWs(t[1..]))
        case None => None
        case Some((items, end)) => Some(([v] + items, end))
  }

  /** A key and its value. */
  function ReadField(s: string): (r: Option<(Field, string)>)
    ensures r.Some? ==> |r.value.1| < |s|
    decreases |s|, 2
  {
    if s == "" || s[0] != '"' then None
    else
      match ReadChars(s[1..])
      case None => None
      case Some((key, rest)) =>
        var t := SkipWs(rest);
        if t == "" || t[0] != ':' then None
        else
          match ReadValue(SkipWs(t[1..]))
          case None => None
          case Some((v, end)) => Some((Field(key, v), end))
  }

  /** Fields up to and including the closing brace. */
  function ReadFields(s: string): (r: Option<(seq<Field>, string)>)
    ensures r.Some? ==> |r.value.1| < |s|
    decreases |s|, 3
  {
    match ReadField(s)
    case None => None
    case Some((field, rest)) =>
      var t := SkipWs(rest);
      if t == "" then None
      else if t[0] == '}' then Some(([field], t[1..]))
      else if t[0] != ',' then None
      else
        match ReadFields(SkipWs(t[1..]))
        case None => None
        case Some((fields, end)) => Some(([field] + fields, end))
  }

  function Loads(s: string): Option<Json> {
    match ReadValue(SkipWs(s))
    case None => None
    case Some((v, rest)) => if SkipWs(rest) == "" then Some(v) else None
  }

  /** The value of a key in the dictionary an object is read into: the last field wins, and null stands for none. */
  function Get(fields: seq<Field>, key: string): Json {
    if fields == [] then Null
    else if fields[|fields|-1].key == key then fields[|fields|-1].value
    else Get(fields[..|fields|-1], key)
  }

  // ----- a read value as Python sees it ----------------------------------------------

  predicate Falsy(v: Json) {
    match v
    case Null => true
    case Bool(b) => !b
    case Int(n) => n == 0
    case Float(_) => false
    case String(s) => s == ""
    case Array(items) => items == []
    case Object(fields) => fields == []
  }

  /** A value as Python turns it into text. */
  function PyText(v: Json): string {
    match v
    case Null => "None"
    case Bool(b) => if b then "True" else "False"
    case Int(n) => if n < 0 then "-" + NatToString(-n) else NatToString(n)
    case Float(literal) => literal
    case String(s) => s
    case Array(_) => Dumps(Default, v)
    case Object(_) => Dumps(Default, v)
  }

  /** The text of a value, or another text for a value that counts as false. */
  function PyTextOr(v: Json, otherwise: string): string {
    if Falsy(v) then otherwise else PyText(v)
  }

  // ----- reading what was written ---------------------------------------------------

  lemma HexReads(n: nat)
    requires n < 16
    ensures HexValue(HexDigit(n)) == Some(n)
  {
  }

  lemma CharReads(c: char, rest: string)
    ensures ReadChars(CharOnto(c, rest)) ==
              match ReadChars(rest)
              case None => None
              case Some((t, end)) => Some(([c] + t, end))
  {
    var s := CharOnto(c, rest);
    if c != '"' && c != '\\' && c >= ' ' {
      assert s[1..] == rest;
    } else {
      var e := s[1..];
      if s[1] == 'u' {
        var h := e[1..];
        HexReads(c as nat / 16);
        HexReads(c as nat % 16);
        assert h[4..] == rest;
        assert h[0] == '0' && h[1] == '0';
        assert Hex4(h) == Some(c as nat);
        assert ReadEscape(e) == Some((c, rest));
      } else {
        assert e[1..] == rest;
        assert ReadEscape(e) == Some((c, rest));
      }
    }
  }

  lemma {:induction false} CharsRead(s: string, rest: string)
    ensures ReadChars(CharsOnto(s, ['"'] + rest)) == Some((s, rest))
  {
    if s == "" {
      assert (['"'] + rest)[1..] == rest;
    } else {
      CharsRead(s[1..], rest);
      CharReads(s[0], CharsOnto(s[1..], ['"'] + rest));
      assert s == [s[0]] + s[1..];
    }
  }

  lemma StringReads(s: string, rest: string)
    ensures StringOnto(s, rest)[0] == '"' && ReadChars(StringOnto(s, rest)[1..]) == Some((s, rest))
  {
    CharsRead(s, rest);
    assert StringOnto(s, rest)[1..] == CharsOnto(s, ['"'] + rest);
  }

  /** What may follow a number: nothing that could belong to it. */
  predicate EndsNumber(rest: string) {
    rest == "" || !(IsDigit(rest[0]) || rest[0] == '.' || rest[0] == 'e' || rest[0] == 'E')
  }

  lemma NumberReads(n: int, rest: string)
    requires EndsNumber(rest)
    ensures ReadNumber(if n < 0 then ['-'] + NatOnto(-n, rest) else NatOnto(n, rest)) == Some((Int(n), rest))
  {
    var m := if n < 0 then -n else n;
    var t := NatOnto(m, rest);
    assert (['-'] + t)[1..] == t;
    ReadsNat(m, rest);
    if m == 0 {
      assert t[1..] == rest;
    } else {
      assert ReadDigits(t, 0) == ReadDigits(t[1..], DigitValue(t[0]));
    }
  }

  /** A value with no float literal in it. */
  predicate Plain(v: Json)
    decreases v
  {
    match v
    case Float(_) => false
    case Array(items) => forall k | 0 <= k < |items| :: Plain(items[k])
    case Object(fields) => forall k | 0 <= k < |fields| :: Plain(fields[k].value)
    case _ => true
  }

  /** The first character of a value is never white space, nor a closing bracket or brace. */
  lemma ValueStarts(style: Style, v: Json, rest: string)
    requires Plain(v)
    ensures var s := ValueOnto(style, v, rest);
            s != "" && SkipWs(s) == s && s[0] != ']' && s[0] != '}'
  {
  }

  lemma {:induction false} ValueReads(style: Style, v: Json, rest: string)
    requires Plain(v) && EndsNumber(rest)
    ensures ReadValue(ValueOnto(style, v, rest)) == Some((v, rest))
    decreases v, 1
  {
    match v {
      case Null => WordReads(style, v, "null", rest);
      case Bool(b) => WordReads(style, v, if b then "true" else "false", rest);
      case Int(n) => IntReads(style, n, rest);
      case String(t) => StringReads(t, rest);
      case Array(items) => ArrayReads(style, items, rest);
      case Object(fields) => ObjectReads(style, fields, rest);
    }
  }

  lemma IntReads(style: Style, n: int, rest: string)
    requires EndsNumber(rest)
    ensures ReadValue(ValueOnto(style, Int(n), rest)) == Some((Int(n), rest))
  {
    NumberReads(n, rest);
    NoWord(n, rest);
    ReadsAsNumber(ValueOnto(style, Int(n), rest));
  }

  lemma ReadsAsNumber(s: string)
    requires s != "" && (IsDigit(s[0]) || s[0] == '-')
    requires !Starts(s, "null") && !Starts(s, "true") && !Starts(s, "false")
    requires !Starts(s, "NaN") && !Starts(s, "Infinity") && !Starts(s, "-Infinity")
    ensures ReadValue(s) == ReadNumber(s)
  {
  }

  lemma WordReads(style: Style, v: Json, word: string, rest: string)
    requires (v == Null && word == "null") || (v == Bool(true) && word == "true") || (v == Bool(false) && word == "false")
    ensures ReadValue(ValueOnto(style, v, rest)) == Some((v, rest))
  {
    var s := ValueOnto(style, v, rest);
    assert s == word + rest && s[|word|..] == rest && s[..|word|] == word;
    if word != "null" {
      NotStarts(s, "null", 0);
    }
    if word == "false" {
      NotStarts(s, "true", 0);
    }
  }

  lemma {:induction false} ArrayReads(style: Style, items: seq<Json>, rest: string)
    requires forall k | 0 <= k < |items| :: Plain(items[k])
    ensures ReadValue(ValueOnto(style, Array(items), rest)) == Some((Array(items), rest))
    decreases items, 1
  {
    var s, inner := ValueOnto(style, Array(items), rest), ItemsOnto(style, items, [']'] + rest);
    assert s[1..] == inner;
    if items == [] {
      assert inner[1..] == rest;
    } else {
      ItemsRead(style, items, rest);
      ItemsStart(style, items, [']'] + rest);
    }
  }

  lemma {:induction false} ObjectReads(style: Style, fields: seq<Field>, rest: string)
    requires forall k | 0 <= k < |fields| :: Plain(fields[k].value)
    ensures ReadValue(ValueOnto(style, Object(fields), rest)) == Some((Object(fields), rest))
    decreases fields, 1
  {
    var s, inner := ValueOnto(style, Object(fields), rest), FieldsOnto(style, fields, ['}'] + rest);
    assert s[1..] == inner;
    if fields == [] {
      assert inner[1..] == rest;
    } else {
      FieldsRead(style, fields, rest);
      FieldsStart(style, fields, ['}'] + rest);
    }
  }

  lemma NoWord(n: int, rest: string)
    ensures var s := ValueOnto(Default, Int(n), rest);
            && s == ValueOnto(Compact, Int(n), rest)
            && s != "" && (IsDigit(s[0]) || (s[0] == '-' && |s| > 1 && IsDigit(s[1])))
            && !Starts(s, "null") && !Starts(s, "true") && !Starts(s, "false")
            && !Starts(s, "NaN") && !Starts(s, "Infinity") && !Starts(s, "-Infinity")
  {
    var s := ValueOnto(Default, Int(n), rest);
    NotStarts(s, "null", 0);
    NotStarts(s, "true", 0);
    NotStarts(s, "false", 0);
    NotStarts(s, "NaN", 0);
    NotStarts(s, "Infinity", 0);
    NotStarts(s, "-Infinity", if n < 0 then 1 else 0);
  }

  lemma NotStarts(s: string, word: string, k: nat)
    requires k < |word| && (k < |s| ==> s[k] != word[k])
    ensures !Starts(s, word)
  {
    if |word| <= |s| {
      assert s[..|word|][k] == s[k];
    }
  }

  lemma ItemsStart(style: Style, items: seq<Json>, rest: string)
    requires items != [] && forall k | 0 <= k < |items| :: Plain(items[k])
    ensures var s := ItemsOnto(style, items, rest);
            s != "" && SkipWs(s) == s && s[0] != ']'
  {
    if |items| == 1 {
      ValueStarts(style, items[0], rest);
    } else {
      ValueStarts(style, items[0], CommaOnto(style, ItemsOnto(style, items[1..], rest)));
    }
  }

  lemma FieldsStart(style: Style, fields: seq<Field>, rest: string)
    requires fields != []
    ensures var s := FieldsOnto(style, fields, rest);
            s != "" && SkipWs(s) == s && s[0] == '"'
  {
  }

  lemma CommaReads(style: Style, rest: string)
    requires SkipWs(rest) == rest
    ensures var s := CommaOnto(style, rest);
            s[0] == ',' && SkipWs(s) == s && SkipWs(s[1..]) == rest && EndsNumber(s)
  {
    var s := CommaOnto(style, rest);
    if style.Default? {
      assert s[1..] == [' '] + rest;
      assert s[1..][1..] == rest;
    } else {
      assert s[1..] == rest;
    }
  }

  lemma HeadAndTail<T>(list: seq<T>)
    requires list != []
    ensures list == [list[0]] + list[1..]
  {
  }

  lemma ItemsContinue(s: string, v: Json, tail: string, more: seq<Json>, rest: string)
    requires ReadValue(s) == Some((v, tail))
    requires tail != "" && tail[0] == ',' && SkipWs(tail) == tail
    requires ReadItems(SkipWs(tail[1..])) == Some((more, rest))
    ensures ReadItems(s) == Some(([v] + more, rest))
  {
  }

  lemma {:induction false} ItemsRead(style: Style, items: seq<Json>, rest: string)
    requires items != [] && forall k | 0 <= k < |items| :: Plain(items[k])
    ensures ReadItems(ItemsOnto(style, items, [']'] + rest)) == Some((items, rest))
    decreases items, 0
  {
    var close := [']'] + rest;
    if |items| == 1 {
      ValueReads(style, items[0], close);
      assert items == [items[0]];
    } else {
      var text := ItemsOnto(style, items[1..], close);
      ItemsRead(style, items[1..], rest);
      ItemsStart(style, items[1..], close);
      CommaReads(style, text);
      ValueReads(style, items[0], CommaOnto(style, text));
      ItemsContinue(ItemsOnto(style, items, close), items[0], CommaOnto(style, text), items[1..], rest);
      HeadAndTail(items);
    }
  }

  lemma FieldReads(style: Style, f: Field, rest: string)
    requires Plain(f.value) && EndsNumber(rest)
    ensures ReadField(FieldOnto(style, f, rest)) == Some((f, rest))
    decreases f, 2
  {
    var Field(key, v) := f;
    ValueReads(style, v, rest);
    ValueStarts(style, v, rest);
    StringReads(key, ColonOnto(style, ValueOnto(style, v, rest)));
  }

  lemma FieldsContinue(s: string, f: Field, tail: string, more: seq<Field>, rest: string)
    requires ReadField(s) == Some((f, tail))
    requires tail != "" && tail[0] == ',' && SkipWs(tail) == tail
    requires ReadFields(SkipWs(tail[1..])) == Some((more, rest))
    ensures ReadFields(s) == Some(([f] + more, rest))
  {
  }

  lemma {:induction false} FieldsRead(style: Style, fields: seq<Field>, rest: string)
    requires fields != [] && forall k | 0 <= k < |fields| :: Plain(fields[k].value)
    ensures ReadFields(FieldsOnto(style, fields, ['}'] + rest)) == Some((fields, rest))
    decreases fields, 0
  {
    var close := ['}'] + rest;
    if |fields| == 1 {
      FieldReads(style, fields[0], close);
      assert fields == [fields[0]];
    } else {
      var text := FieldsOnto(style, fields[1..], close);
      FieldsRead(style, fields[1..], rest);
      FieldsStart(style, fields[1..], close);
      CommaReads(style, text);
      FieldReads(style, fields[0], CommaOnto(style, text));
      FieldsContinue(FieldsOnto(style, fields, close), fields[0], CommaOnto(style, text), fields[1..], rest);
      HeadAndTail(fields);
    }
  }

  /** Reading what was written gives the value back, with either choice of separators. */
  lemma LoadsDumps(style: Style, v: Json)
    requires Plain(v)
    ensures Loads(Dumps(style, v)) == Some(v)
  {
    ValueStarts(style, v, "");
    ValueReads(style, v, "");
  }
}

/**
 Base64 with the URL-safe alphabet (RFC 4648, section 5) as Python writes and
 reads it, and the padding that a cursor leaves out (section 3.2).
 */
module Base64 {
  import opened Wrappers

  type Byte = n: int | 0 <= n < 256

  type Sextet = n: int | 0 <= n < 64

  function CharOf(v: Sextet): char {
    if v < 26 then 'A' + v as char
    else if v < 52 then 'a' + (v - 26) as char
    else if v < 62 then '0' + (v - 52) as char
    else if v == 62 then '-'
    else '_'
  }

  /** Both alphabets are read. */
  function ValueOf(c: char): Option<Sextet> {
    if 'A' <= c <= 'Z' then Some((c - 'A') as int)
    else if 'a' <= c <= 'z' then Some((c - 'a') as int + 26)
    else if '0' <= c <= '9' then Some((c - '0') as int + 52)
    else if c == '-' || c == '+' then Some(62)
    else if c == '_' || c == '/' then Some(63)
    else None
  }

  function Group(a: Byte, b: Byte, c: Byte): (r: string)
    ensures |r| == 4
  {
    [CharOf(a / 4), CharOf(a % 4 * 16 + b / 16), CharOf(b % 16 * 4 + c / 64), CharOf(c % 64)]
  }

  /** A last group of one or two bytes is filled with zeros, and padded instead of the missing bytes. */
  function Encode(bytes: seq<Byte>): string {
    if bytes == [] then ""
    else if |bytes| == 1 then Group(bytes[0], 0, 0)[..2] + "=="
    else if |bytes| == 2 then Group(bytes[0], bytes[1], 0)[..3] + "="
    else Group(bytes[0], bytes[1], bytes[2]) + Encode(bytes[3..])
  }

  /** A text without the padding at its end. */
  function Unpad(text: string): (r: string)
    ensures r <= text
  {
    if text != "" && text[|text|-1] == '=' then Unpad(text[..|text|-1]) else text
  }

  function Pads(n: nat): string {
    if n == 0 then "" else Pads(n - 1) + "="
  }

  function Fill(n: nat): nat {
    (4 - n % 4) % 4
  }

  /** A text padded up to a whole number of groups of four. */
  function Repad(token: string): string {
    token + Pads(Fill(|token|))
  }

  /** Reads on inside a group of four: `pos` characters of it were read, `left` are the bits not used yet.
      Other characters are skipped; padding that completes a group ends the text. */
  function Decode(s: string, pos: int, left: int, pads: nat): Option<seq<Byte>>
    requires 0 <= pos < 4 && 0 <= left && (pos == 1 ==> left < 64) && (pos == 2 ==> left < 16) && (pos == 3 ==> left < 4)
    decreases |s|
  {
    if s == "" then
      if pos == 0 then Some([]) else None
    else if s[0] == '=' then
      if pos >= 2 then
        if pos + pads + 1 >= 4 then Some([]) else Decode(s[1..], pos, left, pads + 1)
      else Decode(s[1..], pos, left, pads)
    else
      match ValueOf(s[0])
      case None => Decode(s[1..], pos, left, pads)
      case Some(v) =>
        if pos == 0 then Decode(s[1..], 1, v, 0)
        else if pos == 1 then Emit(left * 4 + v / 16, Decode(s[1..], 2, v % 16, 0))
        else if pos == 2 then Emit(left * 16 + v / 4, Decode(s[1..], 3, v % 4, 0))
        else Emit(left * 64 + v, Decode(s[1..], 0, 0, 0))
  }

  function Emit(b: Byte, more: Option<seq<Byte>>): Option<seq<Byte>> {
    match more
    case None => None
    case Some(bytes) => Some([b] + bytes)
  }

  lemma CharRead(v: Sextet)
    ensures CharOf(v) != '=' && ValueOf(CharOf(v)) == Some(v)
  {
  }

  /** One character of text, read at position `pos`. */
  lemma ReadOne(v: Sextet, rest: string, pos: int, left: int)
    requires 0 <= pos < 4 && 0 <= left && (pos == 1 ==> left < 64) && (pos == 2 ==> left < 16) && (pos == 3 ==> left < 4)
    ensures Decode([CharOf(v)] + rest, pos, left, 0) ==
              if pos == 0 then Decode(rest, 1, v, 0)
              else if pos == 1 then Emit(left * 4 + v / 16, Decode(rest, 2, v % 16, 0))
              else if pos == 2 then Emit(left * 16 + v / 4, Decode(rest, 3, v % 4, 0))
              else Emit(left * 64 + v, Decode(rest, 0, 0, 0))
  {
    CharRead(v);
    assert ([CharOf(v)] + rest)[1..] == rest;
  }

  lemma ReadTwo(a: Byte, b: Byte, rest: string)
    ensures Decode(Group(a, b, 0)[..2] + rest, 0, 0, 0) == Emit(a, Decode(rest, 2, b / 16, 0))
    ensures Group(a, b, 0)[..2] == [CharOf(a / 4), CharOf(a % 4 * 16 + b / 16)]
  {
    var v0, v1 := a / 4, a % 4 * 16 + b / 16;
    assert Group(a, b, 0)[..2] + rest == [CharOf(v0)] + ([CharOf(v1)] + rest);
    ReadOne(v0, [CharOf(v1)] + rest, 0, 0);
    ReadOne(v1, rest, 1, v0);
    assert v1 / 16 == a % 4 && v1 % 16 == b / 16;
  }

  lemma ReadThree(a: Byte, b: Byte, c: Byte, rest: string)
    ensures Decode(Group(a, b, c)[..3] + rest, 0, 0, 0) == Emit(a, Emit(b, Decode(rest, 3, c / 64, 0)))
  {
    var v2 := b % 16 * 4 + c / 64;
    assert Group(a, b, c)[..3] + rest == Group(a, b, 0)[..2] + ([CharOf(v2)] + rest);
    ReadTwo(a, b, [CharOf(v2)] + rest);
    ReadOne(v2, rest, 2, b / 16);
    assert v2 / 4 == b % 16 && v2 % 4 == c / 64;
  }

  lemma ReadFour(a: Byte, b: Byte, c: Byte, rest: string)
    ensures Decode(Group(a, b, c) + rest, 0, 0, 0) == Emit(a, Emit(b, Emit(c, Decode(rest, 0, 0, 0))))
  {
    assert Group(a, b, c) + rest == Group(a, b, c)[..3] + ([CharOf(c % 64)] + rest);
    ReadThree(a, b, c, [CharOf(c % 64)] + rest);
    ReadOne(c % 64, rest, 3, c / 64);
  }

  /** Reading what was written gives the bytes back. */
  lemma {:induction false} DecodeEncode(bytes: seq<Byte>)
    ensures Decode(Encode(bytes), 0, 0, 0) == Some(bytes)
  {
    if |bytes| == 1 || |bytes| == 2 {
      DecodeLast(bytes);
    } else if |bytes| > 2 {
      var rest := bytes[3..];
      DecodeEncode(rest);
      ReadFour(bytes[0], bytes[1], bytes[2], Encode(rest));
      EmitThree(bytes[0], bytes[1], bytes[2], rest);
      assert bytes == [bytes[0], bytes[1], bytes[2]] + rest;
    }
  }

  lemma EmitThree(a: Byte, b: Byte, c: Byte, rest: seq<Byte>)
    ensures Emit(a, Emit(b, Emit(c, Some(rest)))) == Some([a, b, c] + rest)
  {
    assert [a] + ([b] + ([c] + rest)) == [a, b, c] + rest;
  }

  lemma DecodeLast(bytes: seq<Byte>)
    requires |bytes| == 1 || |bytes| == 2
    ensures Decode(Encode(bytes), 0, 0, 0) == Some(bytes)
  {
    if |bytes| == 1 {
      ReadLastOne(bytes[0]);
      assert bytes == [bytes[0]];
    } else {
      ReadLastTwo(bytes[0], bytes[1]);
      assert bytes == [bytes[0], bytes[1]];
    }
  }

  lemma ReadLastOne(a: Byte)
    ensures Decode(Group(a, 0, 0)[..2] + "==", 0, 0, 0) == Some([a])
  {
    ReadTwo(a, 0, "==");
    assert [a] + [] == [a];
  }

  lemma ReadLastTwo(a: Byte, b: Byte)
    ensures Decode(Group(a, b, 0)[..3] + "=", 0, 0, 0) == Some([a, b])
  {
    ReadThree(a, b, 0, "=");
    assert [a] + ([b] + []) == [a, b];
  }

  /** Capital letters, small letters, digits, a hyphen and an underscore. */
  lemma Alphabet(v: Sextet)
    ensures CharOf(0) == 'A' && CharOf(25) == 'Z' && CharOf(26) == 'a' && CharOf(51) == 'z'
    ensures CharOf(52) == '0' && CharOf(61) == '9' && CharOf(62) == '-' && CharOf(63) == '_'
    ensures v < 61 && v != 25 && v != 51 ==> CharOf(v + 1) as int == CharOf(v) as int + 1
  {
  }

  /** Test vectors of RFC 4648, section 10, for "foobar" and its prefixes, and the last two characters. */
  lemma ShortVectors()
    ensures Encode([]) == "" && Encode([102]) == "Zg==" && Encode([102, 111]) == "Zm8=" && Encode([251, 255]) == "-_8="
  {
    assert Group(251, 255, 0) == "-_8A" && Group(102, 111, 0) == "Zm8A";
  }

  lemma LongVectors()
    ensures Encode([102, 111, 111]) == "Zm9v" && Encode([102, 111, 111, 98, 97]) == "Zm9vYmE="
    ensures Encode([102, 111, 111, 98, 97, 114]) == "Zm9vYmFy"
  {
    var foo := [102, 111, 111];
    assert Group(102, 111, 111) == "Zm9v" && Group(98, 97, 114) == "YmFy";
    FooAnd([]);
    FooAnd([98, 97]);
    FooAnd([98, 97, 114]);
    assert foo + [] == foo && foo + [98, 97] == [102, 111, 111, 98, 97];
    assert foo + [98, 97, 114] == [102, 111, 111, 98, 97, 114] && [98, 97, 114][3..] == [];
  }

  lemma FooAnd(more: seq<Byte>)
    ensures Encode([102, 111, 111] + more) == "Zm9v" + Encode(more)
  {
    assert Group(102, 111, 111) == "Zm9v";
    assert ([102, 111, 111] + more)[3..] == more;
  }

  // ----- leaving the padding out and putting it back ---------------------------------

  predicate NoPad(s: string) {
    forall k | 0 <= k < |s| :: s[k] != '='
  }

  lemma GroupChars(a: Byte, b: Byte, c: Byte)
    ensures forall k | 0 <= k < 4 :: Group(a, b, c)[k] != '=' && ValueOf(Group(a, b, c)[k]).Some?
  {
    CharRead(a / 4);
    CharRead(a % 4 * 16 + b / 16);
    CharRead(b % 16 * 4 + c / 64);
    CharRead(c % 64);
  }

  predicate Readable(s: string) {
    forall k | 0 <= k < |s| :: ValueOf(s[k]).Some?
  }

  /** Text without padding, then as much padding as its length asks for. */
  lemma {:induction false} EncodeShape(bytes: seq<Byte>) returns (body: string)
    ensures NoPad(body) && Readable(body) && (bytes != [] ==> body != "")
    ensures Encode(bytes) == body + Pads(Fill(|body|))
  {
    if |bytes| < 3 {
      body := LastShape(bytes);
    } else {
      var group := Group(bytes[0], bytes[1], bytes[2]);
      GroupChars(bytes[0], bytes[1], bytes[2]);
      var more := EncodeShape(bytes[3..]);
      body := group + more;
      ShapeGrows(group, more);
    }
  }

  lemma ShapeGrows(group: string, more: string)
    requires |group| == 4
    ensures group + (more + Pads(Fill(|more|))) == (group + more) + Pads(Fill(|group + more|))
  {
    Reassociate(group, more, Pads(Fill(|more|)));
  }

  lemma Reassociate(a: string, b: string, c: string)
    ensures a + (b + c) == (a + b) + c && |a + b| == |b| + |a|
  {
  }

  lemma LastShape(bytes: seq<Byte>) returns (body: string)
    requires |bytes| < 3
    ensures NoPad(body) && Readable(body) && (bytes != [] ==> body != "")
    ensures Encode(bytes) == body + Pads(Fill(|body|))
  {
    if bytes == [] {
      body := "";
    } else if |bytes| == 1 {
      GroupChars(bytes[0], 0, 0);
      body := Group(bytes[0], 0, 0)[..2];
    } else {
      GroupChars(bytes[0], bytes[1], 0);
      body := Group(bytes[0], bytes[1], 0)[..3];
    }
  }

  lemma {:induction false} UnpadPads(body: string, n: nat)
    requires NoPad(body)
    ensures Unpad(body + Pads(n)) == body
  {
    if n == 0 {
      assert body + "" == body;
    } else {
      assert (body + Pads(n))[..|body + Pads(n)|-1] == body + Pads(n - 1);
      UnpadPads(body, n - 1);
    }
  }

  /** For bytes of any length, the padding left out is the padding put back. */
  lemma RepadRestores(bytes: seq<Byte>)
    ensures Repad(Unpad(Encode(bytes))) == Encode(bytes)
    ensures bytes != [] ==> Unpad(Encode(bytes)) != ""
    ensures Readable(Unpad(Encode(bytes)))
  {
    var body := EncodeShape(bytes);
    UnpadPads(body, Fill(|body|));
  }
}

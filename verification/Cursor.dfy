/**
 The opaque cursor of a project page (services/project_library.py): an instant
 and a project id as JSON, in URL-safe base64 without padding.
 */
module Cursor {
  import opened Wrappers
  import opened Text
  import opened Json
  import opened JsonText
  import opened Names
  import opened Calendar
  import B = Base64

  // ----- uuid text ------------------------------------------------------------------

  function Pow16(k: nat): nat {
    if k == 0 then 1 else 16 * Pow16(k - 1)
  }

  function HexText(n: nat, k: nat): (r: string)
    ensures |r| == k && forall i | 0 <= i < k :: IsLowerHex(r[i])
  {
    if k == 0 then "" else HexText(n / 16, k - 1) + [HexDigit(n % 16)]
  }

  function HexVal(h: string): nat
    requires forall i | 0 <= i < |h| :: IsLowerHex(h[i])
  {
    if h == "" then 0
    else
      assert IsLowerHex(h[|h|-1]);
      16 * HexVal(h[..|h|-1]) + HexValue(h[|h|-1]).value
  }

  lemma {:induction false} HexTextReads(n: nat, k: nat)
    requires n < Pow16(k)
    ensures HexVal(HexText(n, k)) == n
  {
    if k > 0 {
      HexTextReads(n / 16, k - 1);
      HexReads(n % 16);
      assert HexText(n, k)[..k-1] == HexText(n / 16, k - 1);
    }
  }

  /** A 128-bit id as text. */
  function UuidText(id: nat): string {
    Hyphenate(HexText(id, 32))
  }

  function ReadUuid(raw: string): Option<nat> {
    var hex := HexOf(raw);
    if |hex| != 32 || exists k | 0 <= k < |hex| :: !IsHex(hex[k]) then None
    else Some(HexVal(LowerAll(hex)))
  }

  lemma UuidReads(id: nat)
    requires id < Pow16(32)
    ensures ReadUuid(UuidText(id)) == Some(id)
  {
    var h := HexText(id, 32);
    HexOfCanonical(h);
    HexTextReads(id, 32);
    assert LowerAll(h) == h;
  }

  lemma HexTextSample()
    ensures HexText(0xbe1, 4) == "0be1"
  {
  }

  // ----- text as bytes -----------------------------------------------------------------

  predicate Ascii(s: string) {
    forall k | 0 <= k < |s| :: s[k] < '\U{80}'
  }

  function ToBytes(s: string): (r: seq<B.Byte>)
    requires Ascii(s)
    ensures |r| == |s| && forall k | 0 <= k < |s| :: r[k] == s[k] as int
  {
    seq(|s|, k requires 0 <= k < |s| => s[k] as int)
  }

  /** Text of plain ASCII bytes; anything else is not read. */
  function FromBytes(bytes: seq<B.Byte>): Option<string> {
    if exists k | 0 <= k < |bytes| :: bytes[k] >= 128 then None
    else Some(seq(|bytes|, k requires 0 <= k < |bytes| => bytes[k] as char))
  }

  lemma BytesRead(s: string)
    requires Ascii(s)
    ensures FromBytes(ToBytes(s)) == Some(s)
  {
    forall k | 0 <= k < |s|
      ensures ToBytes(s)[k] as char == s[k]
    {
      CharBack(s[k]);
    }
    assert FromBytes(ToBytes(s)).Some?;
    assert FromBytes(ToBytes(s)).value == s;
  }

  lemma CharBack(c: char)
    ensures (c as int) as char == c
  {
  }

  // ----- the cursor ----------------------------------------------------------------------

  function Payload(t: DateTime, id: nat): Json
    requires IsDateTime(t)
  {
    Object([Field("u", String(IsoText(t))), Field("i", String(UuidText(id)))])
  }

  /** The instant on a UTC clock; a missing offset is read as UTC. */
  function AsUtc(t: DateTime): Option<DateTime> {
    if t.offset.None? then Some(t.(offset := Some(0))) else ToUtc(t)
  }

  lemma AsUtcKeepsInstant(t: DateTime)
    requires IsDateTime(t)
    ensures AsUtc(t).Some? ==> IsDateTime(AsUtc(t).value) && AsUtc(t).value.offset == Some(0)
    ensures AsUtc(t).Some? ==> Instant(AsUtc(t).value) == Instant(t) && ToUtc(AsUtc(t).value) == AsUtc(t)
    ensures AsUtc(t).None? <==> !(0 <= Instant(t) < LAST_DAY * DAY)
  {
    if t.offset.Some? {
      if ToUtc(t).Some? {
        ToUtcKeepsInstant(t);
      }
    } else {
      NaiveInstant(t);
    }
  }

  lemma NaiveInstant(t: DateTime)
    requires IsDateTime(t) && t.offset.None?
    ensures 0 <= Instant(t) < LAST_DAY * DAY
    ensures ToUtc(t.(offset := Some(0))) == Some(t.(offset := Some(0)))
  {
    var n := Instant(t);
    assert n / DAY == t.day - 1 && n % DAY == t.micros;
  }

  /** None stands for the OverflowError of an instant outside the years 1 to 9999. */
  function EncodeProjectCursor(updatedAt: DateTime, id: nat): Option<string>
    requires IsDateTime(updatedAt)
  {
    AsUtcKeepsInstant(updatedAt);
    match AsUtc(updatedAt)
    case None => None
    case Some(t) =>
      PayloadAscii(t, id);
      Some(B.Unpad(B.Encode(ToBytes(Dumps(Compact, Payload(t, id))))))
  }

  /** None stands for HTTP 400, whatever is wrong with the text. */
  function DecodeProjectCursor(cursor: string): Option<(DateTime, nat)> {
    var token := Strip(cursor);
    if token == "" || !Ascii(token) then None
    else
      match B.Decode(B.Repad(token), 0, 0, 0)
      case None => None
      case Some(bytes) =>
        match FromBytes(bytes)
        case None => None
        case Some(raw) =>
          match Loads(raw)
          case Some(Object(fields)) =>
            (match (ReadUuid(PyText(Get(fields, "i"))), ReadIso(PyText(Get(fields, "u"))))
             case (Some(id), Some(t)) =>
               (match AsUtc(t)
                case None => None
                case Some(ts) => Some((ts, id)))
             case (_, _) => None)
          case _ => None
  }

  /** Characters of ASCII that JSON writes as they are. */
  predicate Bare(s: string) {
    Ascii(s) && NeedsNoEscape(s)
  }

  lemma {:induction false} FixedBare(n: nat, k: nat, rest: string)
    requires n < Pow10(k) && Bare(rest)
    ensures Bare(FixedOnto(n, k, rest))
  {
    if k > 0 {
      var d, m := FixedStep(n, k, rest);
      FixedBare(m, k - 1, rest);
    }
  }

  lemma ClockBare(h: nat, m: nat, s: nat, fraction: nat)
    requires h < 24 && m < 60 && s < 60 && fraction < 1_000_000
    ensures Bare(ClockText(h, m, s, fraction))
  {
    assert Bare("+00:00");
    if fraction > 0 {
      FixedBare(fraction, 6, "+00:00");
    }
    var s3 := FractionText(fraction);
    FixedBare(s, 2, s3);
    var s2 := FixedOnto(s, 2, s3);
    FixedBare(m, 2, [':'] + s2);
    FixedBare(h, 2, [':'] + FixedOnto(m, 2, [':'] + s2));
  }

  lemma IsoBare(t: DateTime)
    requires IsDateTime(t)
    ensures Bare(IsoText(t))
  {
    var d := FromOrdinal(t.day);
    var seconds := t.micros / 1_000_000;
    ClockBare(seconds / 3600, seconds / 60 % 60, seconds % 60, t.micros % 1_000_000);
    var s3 := ['T'] + TimeText(t.micros);
    FixedBare(d.day, 2, s3);
    var s2 := ['-'] + FixedOnto(d.day, 2, s3);
    FixedBare(d.month, 2, s2);
    FixedBare(d.year, 4, ['-'] + FixedOnto(d.month, 2, s2));
  }

  lemma UuidBare(id: nat)
    ensures Bare(UuidText(id))
  {
    HyphenatedChars(HexText(id, 32));
    assert forall k | 0 <= k < 36 :: UuidText(id)[k] in UuidText(id);
  }

  /** What a cursor holds: the instant and the id, in the shortest JSON. */
  lemma CursorText(t: DateTime, id: nat)
    requires IsDateTime(t)
    ensures Dumps(Compact, Payload(t, id)) == "{\"u\":\"" + IsoText(t) + "\",\"i\":\"" + UuidText(id) + "\"}"
  {
    var fields := Payload(t, id).fields;
    IsoBare(t);
    UuidBare(id);
    BareMember("u", IsoText(t));
    BareMember("i", UuidText(id));
    DumpsReads(Compact, Object(fields));
    var texts := FieldTexts(Compact, fields);
    assert texts[1..] == [texts[1]];
    TwoMembers(IsoText(t), UuidText(id));
  }

  lemma BareMember(key: string, value: string)
    requires Bare(key) && Bare(value)
    ensures Quoted(key) + ColonOf(Compact) + Dumps(Compact, String(value)) == "\"" + key + "\":\"" + value + "\""
  {
    DumpsReads(Compact, String(value));
    PlainStays(key);
    PlainStays(value);
  }

  lemma TwoMembers(u: string, i: string)
    ensures "{" + ("\"" + "u" + "\":\"" + u + "\"" + "," + ("\"" + "i" + "\":\"" + i + "\"")) + "}" ==
            "{\"u\":\"" + u + "\",\"i\":\"" + i + "\"}"
  {
  }

  lemma PayloadAscii(t: DateTime, id: nat)
    requires IsDateTime(t)
    ensures Ascii(Dumps(Compact, Payload(t, id)))
  {
    CursorText(t, id);
    IsoBare(t);
    UuidBare(id);
    AsciiBetween("{\"u\":\"", IsoText(t), "\",\"i\":\"", UuidText(id), "\"}");
  }

  lemma AsciiBetween(a: string, b: string, c: string, d: string, e: string)
    requires Ascii(a) && Ascii(b) && Ascii(c) && Ascii(d) && Ascii(e)
    ensures Ascii(a + b + c + d + e)
  {
  }

  lemma PayloadReads(t: DateTime, id: nat)
    requires IsDateTime(t)
    ensures var fields := Payload(t, id).fields;
            && Loads(Dumps(Compact, Payload(t, id))) == Some(Payload(t, id))
            && Get(fields, "u") == String(IsoText(t)) && Get(fields, "i") == String(UuidText(id))
  {
    LoadsDumps(Compact, Payload(t, id));
    var fields := Payload(t, id).fields;
    assert fields[..1] == [fields[0]];
    assert "u"[0] != "i"[0];
  }

  /** The text of a cursor needs no stripping, and with its padding back it is the base64 text again. */
  lemma ReadableIsPlain(c: char)
    requires B.ValueOf(c).Some?
    ensures !IsSpace(c) && c < '\U{80}'
  {
  }

  lemma ReadableIsToken(token: string)
    requires B.Readable(token) && token != ""
    ensures Strip(token) == token && Ascii(token)
  {
    forall k | 0 <= k < |token|
      ensures !IsSpace(token[k]) && token[k] < '\U{80}'
    {
      ReadableIsPlain(token[k]);
    }
    StripTrimmed(token);
  }

  lemma TokenReads(bytes: seq<B.Byte>)
    requires bytes != []
    ensures var token := B.Unpad(B.Encode(bytes));
            token != "" && Strip(token) == token && Ascii(token) && B.Decode(B.Repad(token), 0, 0, 0) == Some(bytes)
  {
    var token := B.Unpad(B.Encode(bytes));
    B.RepadRestores(bytes);
    B.DecodeEncode(bytes);
    ReadableIsToken(token);
  }

  lemma PayloadDecodes(token: string, bytes: seq<B.Byte>, raw: string, fields: seq<Field>, ts: DateTime, id: nat)
    requires token != "" && Strip(token) == token && Ascii(token) && B.Decode(B.Repad(token), 0, 0, 0) == Some(bytes)
    requires FromBytes(bytes) == Some(raw) && Loads(raw) == Some(Object(fields))
    requires ReadUuid(PyText(Get(fields, "i"))) == Some(id) && ReadIso(PyText(Get(fields, "u"))) == Some(ts)
    requires AsUtc(ts) == Some(ts)
    ensures DecodeProjectCursor(token) == Some((ts, id))
  {
  }

  lemma PayloadFields(ts: DateTime, id: nat)
    requires IsDateTime(ts) && ts.offset == Some(0) && id < Pow16(32)
    ensures var fields := Payload(ts, id).fields;
            ReadUuid(PyText(Get(fields, "i"))) == Some(id) && ReadIso(PyText(Get(fields, "u"))) == Some(ts)
  {
    PayloadReads(ts, id);
    UuidReads(id);
    IsoReads(ts);
    TextOfString(UuidText(id));
    TextOfString(IsoText(ts));
  }

  lemma TextOfString(s: string)
    ensures PyText(String(s)) == s
  {
  }

  /** A cursor written for an instant on a UTC clock. */
  lemma UtcRoundTrip(ts: DateTime, id: nat)
    requires IsDateTime(ts) && ts.offset == Some(0) && AsUtc(ts) == Some(ts) && id < Pow16(32)
    requires Ascii(Dumps(Compact, Payload(ts, id)))
    ensures DecodeProjectCursor(B.Unpad(B.Encode(ToBytes(Dumps(Compact, Payload(ts, id)))))) == Some((ts, id))
  {
    var text := Dumps(Compact, Payload(ts, id));
    PayloadReads(ts, id);
    PayloadFields(ts, id);
    BytesRead(text);
    assert text != "" by {
      assert Loads("").None?;
    }
    TokenReads(ToBytes(text));
    PayloadDecodes(B.Unpad(B.Encode(ToBytes(text))), ToBytes(text), text, Payload(ts, id).fields, ts, id);
  }

  /** Decoding an encoded cursor gives the same instant, on a UTC clock, and the same id. An instant that
      cannot be put on a UTC clock is the only one without a cursor. */
  lemma CursorRoundTrip(updatedAt: DateTime, id: nat)
    requires IsDateTime(updatedAt) && id < Pow16(32)
    ensures EncodeProjectCursor(updatedAt, id).None? <==> !(0 <= Instant(updatedAt) < LAST_DAY * DAY)
    ensures EncodeProjectCursor(updatedAt, id).Some? ==>
              exists ts: DateTime :: DecodeProjectCursor(EncodeProjectCursor(updatedAt, id).value) == Some((ts, id))
                           && ts.offset == Some(0) && Instant(ts) == Instant(updatedAt)
  {
    AsUtcKeepsInstant(updatedAt);
    if AsUtc(updatedAt).Some? {
      var ts := AsUtc(updatedAt).value;
      PayloadAscii(ts, id);
      UtcRoundTrip(ts, id);
      assert DecodeProjectCursor(EncodeProjectCursor(updatedAt, id).value) == Some((ts, id));
    }
  }

  /** White space around a cursor does not matter, nothing but white space is none, and whatever is read is read on a
      UTC clock. */
  lemma DecodedIsUtc(cursor: string)
    ensures DecodeProjectCursor(cursor) == DecodeProjectCursor(Strip(cursor))
    ensures Strip(cursor) == "" ==> DecodeProjectCursor(cursor).None?
    ensures DecodeProjectCursor(cursor).Some? ==> DecodeProjectCursor(cursor).value.0.offset == Some(0)
  {
    StripTwice(cursor);
  }
}

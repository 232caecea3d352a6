/**
 The envelope a user turn is stored in (services/message_format.py): ordered
 parts are sanitised, written as JSON, read back and expanded for a provider.
 */
module UserTurn {
  import opened Wrappers
  import opened Text
  import opened Json
  import opened Names

  datatype Part =
    | TextPart(text: string)
    | LargePaste(id: string, title: string, body: string, charCount: nat)
    | FileRef(fileId: string, name: string)

  const DEFAULT_LABEL := "Pasted text"
  const KIND := "user_turn"
  const BEN_PREFIX := "{\"ben\":"

  // ----- reading one raw part ---------------------------------------------------------

  predicate DigitGroups(s: string) {
    s != "" && IsDigit(s[0]) &&
    (|s| == 1 || (if s[1] == '_' then DigitGroups(s[2..]) else DigitGroups(s[1..])))
  }

  /** Python's integer conversion raises neither a TypeError nor a ValueError. */
  predicate CountIsReadable(v: Json) {
    match v
    case Null => true
    case Bool(_) => true
    case Int(_) => true
    case Float(literal) => literal != "NaN"
    case String(s) =>
      var t := Strip(s);
      DigitGroups(if t != "" && (t[0] == '-' || t[0] == '+') then t[1..] else t)
    case _ => false
  }

  datatype Verdict = Bad | Skip | Keep(part: Part)

  function PasteOf(id: string, title: string, text: Json, rawCount: Json): Verdict {
    if !text.String? || id == "" || !CountIsReadable(rawCount) then Bad
    else Keep(LargePaste(id, if title != "" then title else DEFAULT_LABEL, text.s, |text.s|))
  }

  /** A file whose id is no UUID is left out, the rest of the turn stays. */
  function FileOf(fileId: Option<string>, name: string): Verdict {
    if fileId.None? then Skip else Keep(FileRef(fileId.value, name))
  }

  /** The text of a value, or another text if it counts as false, stripped. */
  function StrippedOr(v: Json, otherwise: string): string {
    Strip(PyTextOr(v, otherwise))
  }

  /** One turn of the sanitiser's loop. */
  function SanitizeItem(item: Json): Verdict {
    if !item.Object? then Bad
    else
      var f := item.fields;
      var kind, text := Get(f, "type"), Get(f, "text");
      if kind == String("text") then
        if text.String? then Keep(TextPart(text.s)) else Bad
      else if kind == String("large_paste") then
        PasteOf(StrippedOr(Get(f, "id"), ""), StrippedOr(Get(f, "label"), DEFAULT_LABEL), text, Get(f, "char_count"))
      else if kind == String("file_ref") then
        FileOf(CanonicalUuid(StrippedOr(Get(f, "file_id"), "")), NormalName(PyTextOr(Get(f, "name"), "image")))
      else Bad
  }

  function Extend(parts: Option<seq<Part>>, v: Verdict): Option<seq<Part>> {
    match (parts, v)
    case (Some(ps), Keep(part)) => Some(ps + [part])
    case (Some(ps), Skip) => Some(ps)
    case (_, _) => None
  }

  function SanitizeItems(items: seq<Json>): Option<seq<Part>> {
    if items == [] then Some([])
    else Extend(SanitizeItems(items[..|items|-1]), SanitizeItem(items[|items|-1]))
  }

  lemma SanitizeStep(items: seq<Json>, k: nat)
    requires k < |items|
    ensures SanitizeItems(items[..k+1]) == Extend(SanitizeItems(items[..k]), SanitizeItem(items[k]))
  {
    assert items[..k+1][..k] == items[..k];
  }

  function Sanitize(raw: Json): Option<seq<Part>> {
    if !raw.Array? || raw.items == [] then None else SanitizeItems(raw.items)
  }

  lemma {:induction false} BadItemSpoils(items: seq<Json>, k: nat)
    requires k < |items| && SanitizeItem(items[k]).Bad?
    ensures SanitizeItems(items).None?
  {
    if k < |items| - 1 {
      BadItemSpoils(items[..|items|-1], k);
    }
  }

  method SanitizeUserTurnParts(raw: Json) returns (r: Option<seq<Part>>)
    ensures r == Sanitize(raw)
  {
    if !raw.Array? || raw.items == [] {
      return None;
    }
    var out: seq<Part> := [];
    for k := 0 to |raw.items|
      invariant SanitizeItems(raw.items[..k]) == Some(out)
    {
      SanitizeStep(raw.items, k);
      var verdict := SanitizeItem(raw.items[k]);
      if verdict.Bad? {
        BadItemSpoils(raw.items, k);
        return None;
      } else if verdict.Keep? {
        out := out + [verdict.part];
      }
    }
    assert raw.items[..|raw.items|] == raw.items;
    return Some(out);
  }

  // ----- writing and reading a turn ------------------------------------------------------

  predicate Attached(part: Part) {
    part.LargePaste? || part.FileRef?
  }

  /** All parts but the empty texts. */
  function CompactParts(parts: seq<Part>): seq<Part> {
    if parts == [] then []
    else
      var r, last := CompactParts(parts[..|parts|-1]), parts[|parts|-1];
      if last == TextPart("") then r else r + [last]
  }

  predicate AnyAttached(parts: seq<Part>) {
    exists k | 0 <= k < |parts| :: Attached(parts[k])
  }

  function Body(part: Part): string {
    match part
    case TextPart(text) => text
    case LargePaste(_, _, body, _) => body
    case FileRef(_, _) => ""
  }

  /** The text a provider gets: all texts and pasted bodies, in order. */
  function ExpandParts(parts: seq<Part>): string {
    if parts == [] then "" else ExpandParts(parts[..|parts|-1]) + Body(parts[|parts|-1])
  }

  function PartJson(part: Part): Json {
    match part
    case TextPart(text) =>
      Object([Field("type", String("text")), Field("text", String(text))])
    case LargePaste(id, title, body, n) =>
      Object([Field("type", String("large_paste")), Field("id", String(id)), Field("label", String(title)),
              Field("text", String(body)), Field("char_count", Int(n))])
    case FileRef(fileId, name) =>
      Object([Field("type", String("file_ref")), Field("file_id", String(fileId)), Field("name", String(name))])
  }

  function PartsJson(parts: seq<Part>): (r: seq<Json>)
    ensures |r| == |parts| && forall k | 0 <= k < |r| :: r[k] == PartJson(parts[k])
  {
    seq(|parts|, k requires 0 <= k < |parts| => PartJson(parts[k]))
  }

  function Envelope(parts: seq<Part>): Json {
    Object([Field("ben", Int(1)), Field("kind", String(KIND)), Field("parts", Array(PartsJson(parts)))])
  }

  function EncodeUserTurn(raw: Json): string {
    match Sanitize(raw)
    case None => ""
    case Some(parts) =>
      var compact := CompactParts(parts);
      if compact == [] then ""
      else if !AnyAttached(compact) then ExpandParts(compact)
      else Dumps(Default, Envelope(compact))
  }

  /** The value equals one, as true does in Python. */
  predicate EqualsOne(v: Json) {
    v == Int(1) || v == Bool(true)
  }

  function ParseUserTurnParts(content: string): Option<seq<Part>> {
    if !Starts(content, BEN_PREFIX) then None
    else
      match Loads(content)
      case Some(Object(fields)) =>
        if !EqualsOne(Get(fields, "ben")) || Get(fields, "kind") != String(KIND) then None
        else Sanitize(Get(fields, "parts"))
      case _ => None
  }

  function ExpandUserMessage(content: string): string {
    match ParseUserTurnParts(content)
    case None => content
    case Some(parts) => ExpandParts(parts)
  }

  // ----- sanitised parts -------------------------------------------------------------------

  /** What the sanitiser lets through. */
  ghost predicate Clean(part: Part) {
    match part
    case TextPart(_) => true
    case LargePaste(id, title, body, n) =>
      id != "" && Strip(id) == id && title != "" && Strip(title) == title && n == |body|
    case FileRef(fileId, name) =>
      CanonicalUuid(fileId) == Some(fileId) && fileId != "" && Strip(fileId) == fileId && Settles(name) && name != ""
      && TrimEnd(name) != ""
  }

  ghost predicate AllClean(parts: seq<Part>) {
    forall k | 0 <= k < |parts| :: Clean(parts[k])
  }

  lemma CanonicalIsTrimmed(raw: string)
    requires CanonicalUuid(raw).Some?
    ensures var u := CanonicalUuid(raw).value; u != "" && Strip(u) == u
  {
    var u := CanonicalUuid(raw).value;
    HyphenatedChars(LowerAll(HexOf(raw)));
    StripTrimmed(u);
  }

  /** What the sanitiser looks at in a pasted part, and in a file. */
  lemma PasteItem(f: seq<Field>)
    requires Get(f, "type") == String("large_paste")
    ensures SanitizeItem(Object(f)) ==
              PasteOf(StrippedOr(Get(f, "id"), ""), StrippedOr(Get(f, "label"), DEFAULT_LABEL), Get(f, "text"), Get(f, "char_count"))
  {
    KeysDiffer();
  }

  lemma FileItem(f: seq<Field>)
    requires Get(f, "type") == String("file_ref")
    ensures SanitizeItem(Object(f)) ==
              FileOf(CanonicalUuid(StrippedOr(Get(f, "file_id"), "")), NormalName(PyTextOr(Get(f, "name"), "image")))
  {
    KeysDiffer();
  }

  lemma KindsOfItem(item: Json)
    requires SanitizeItem(item).Keep?
    ensures item.Object?
    ensures Get(item.fields, "type") == String("text") || Get(item.fields, "type") == String("large_paste")
         || Get(item.fields, "type") == String("file_ref")
    ensures Get(item.fields, "type") == String("text") ==> SanitizeItem(item).part.TextPart?
  {
  }

  lemma ItemIsClean(item: Json)
    requires SanitizeItem(item).Keep?
    ensures Clean(SanitizeItem(item).part)
  {
    KindsOfItem(item);
    var f := item.fields;
    if Get(f, "type") == String("large_paste") {
      PasteItem(f);
      StripTwice(PyTextOr(Get(f, "id"), ""));
      StripTwice(PyTextOr(Get(f, "label"), DEFAULT_LABEL));
      PasteIsClean(StrippedOr(Get(f, "id"), ""), StrippedOr(Get(f, "label"), DEFAULT_LABEL), Get(f, "text"), Get(f, "char_count"));
    } else if Get(f, "type") == String("file_ref") {
      FileItem(f);
      FileIsClean(StrippedOr(Get(f, "file_id"), ""), PyTextOr(Get(f, "name"), "image"));
    }
  }

  lemma PasteIsClean(id: string, title: string, text: Json, rawCount: Json)
    requires Strip(id) == id && Strip(title) == title
    ensures var v := PasteOf(id, title, text, rawCount); v.Keep? ==> Clean(v.part)
  {
    assert DEFAULT_LABEL[0] == 'P' && DEFAULT_LABEL[10] == 't';
    StripTrimmed(DEFAULT_LABEL);
  }

  lemma FileIsClean(id: string, name: string)
    ensures var v := FileOf(CanonicalUuid(id), NormalName(name)); v.Keep? ==> Clean(v.part)
  {
    if CanonicalUuid(id).Some? {
      CanonicalIsFixed(id);
      CanonicalIsTrimmed(id);
      NormalNameSettles(name);
    }
  }

  lemma {:induction false} ItemsAreClean(items: seq<Json>)
    ensures SanitizeItems(items).Some? ==> AllClean(SanitizeItems(items).value)
  {
    if items != [] {
      ItemsAreClean(items[..|items|-1]);
      if SanitizeItem(items[|items|-1]).Keep? {
        ItemIsClean(items[|items|-1]);
      }
    }
  }

  lemma {:induction false} CompactIsClean(parts: seq<Part>)
    requires AllClean(parts)
    ensures AllClean(CompactParts(parts))
  {
    if parts != [] {
      CompactIsClean(parts[..|parts|-1]);
    }
  }

  /** The sanitiser never touches a text or a pasted body, and counts what is there. */
  lemma BodiesKept(item: Json)
    requires SanitizeItem(item).Keep?
    ensures var part := SanitizeItem(item).part;
            && (part.FileRef? || String(Body(part)) == Get(item.fields, "text"))
            && (part.LargePaste? ==> part.charCount == |part.body|)
  {
  }

  // ----- round trip ------------------------------------------------------------------------

  /** A part read back: a file name cut behind a blank loses that blank. */
  function ReadBack(part: Part): Part {
    match part
    case FileRef(fileId, name) => FileRef(fileId, TrimEnd(name))
    case _ => part
  }

  function AllReadBack(parts: seq<Part>): (r: seq<Part>)
    ensures |r| == |parts| && forall k | 0 <= k < |r| :: r[k] == ReadBack(parts[k])
  {
    seq(|parts|, k requires 0 <= k < |parts| => ReadBack(parts[k]))
  }

  lemma KeysDiffer()
    ensures "type" != "text" && "type" != "id" && "type" != "label" && "type" != "char_count"
    ensures "type" != "file_id" && "type" != "name" && "text" != "id" && "text" != "label" && "text" != "char_count"
    ensures "id" != "label" && "id" != "char_count" && "label" != "char_count" && "file_id" != "name"
    ensures "text" != "large_paste" && "text" != "file_ref" && "large_paste" != "file_ref"
    ensures "ben" != "kind" && "ben" != "parts" && "kind" != "parts"
  {
    assert "type"[1] == 'y' && "text"[1] == 'e' && "name"[1] == 'a' && "kind"[1] == 'i';
    assert |"label"| == 5 && |"char_count"| == 10 && |"id"| == 2 && |"file_id"| == 7 && |"ben"| == 3 && |"parts"| == 5;
    assert |"large_paste"| == 11 && |"file_ref"| == 8;
  }

  lemma GetLast(fields: seq<Field>, f: Field, key: string)
    ensures Get(fields + [f], key) == if f.key == key then f.value else Get(fields, key)
  {
    assert (fields + [f])[..|fields|] == fields;
  }

  lemma TextPartReads(text: string)
    ensures SanitizeItem(PartJson(TextPart(text))) == Keep(TextPart(text))
  {
    KeysDiffer();
    var a, b := Field("type", String("text")), Field("text", String(text));
    GetLast([], a, "type");
    GetLast([a], b, "type");
    GetLast([a], b, "text");
    assert [] + [a] == [a] && [a] + [b] == [a, b];
  }

  lemma LargePasteReads(part: Part)
    requires part.LargePaste? && Clean(part)
    ensures SanitizeItem(PartJson(part)) == Keep(part)
  {
    var a, b, c := Field("type", String("large_paste")), Field("id", String(part.id)), Field("label", String(part.title));
    var d, e := Field("text", String(part.body)), Field("char_count", Int(part.charCount));
    PasteFields(a, b, c, d, e);
    PasteItem([a, b, c, d, e]);
    PasteAgain(part.id, part.title, part.body);
  }

  lemma PasteFields(a: Field, b: Field, c: Field, d: Field, e: Field)
    requires a.key == "type" && b.key == "id" && c.key == "label" && d.key == "text" && e.key == "char_count"
    ensures var f := [a, b, c, d, e];
            && Get(f, "type") == a.value && Get(f, "id") == b.value && Get(f, "label") == c.value
            && Get(f, "text") == d.value && Get(f, "char_count") == e.value
  {
    KeysDiffer();
    assert [a, b, c, d, e] == (([a] + [b]) + [c] + [d]) + [e];
    forall key | key == "type" || key == "id" || key == "label" || key == "text" || key == "char_count"
      ensures Get([a, b, c, d, e], key) == if e.key == key then e.value else if d.key == key then d.value
                                           else if c.key == key then c.value else if b.key == key then b.value
                                           else Get([a], key)
    {
      GetLast([a] + [b] + [c] + [d], e, key);
      GetLast([a] + [b] + [c], d, key);
      GetLast([a] + [b], c, key);
      GetLast([a], b, key);
    }
  }

  lemma TrimmedStays(s: string, otherwise: string)
    requires s != "" && Strip(s) == s
    ensures StrippedOr(String(s), otherwise) == s
  {
  }

  lemma PasteAgain(id: string, title: string, body: string)
    requires id != "" && Strip(id) == id && title != "" && Strip(title) == title
    ensures PasteOf(StrippedOr(String(id), ""), StrippedOr(String(title), DEFAULT_LABEL),
                    String(body), Int(|body|)) == Keep(LargePaste(id, title, body, |body|))
  {
    TrimmedStays(id, "");
    TrimmedStays(title, DEFAULT_LABEL);
  }

  lemma FileRefReads(part: Part)
    requires part.FileRef? && Clean(part)
    ensures SanitizeItem(PartJson(part)) == Keep(ReadBack(part))
  {
    var a, b, c := Field("type", String("file_ref")), Field("file_id", String(part.fileId)), Field("name", String(part.name));
    FileFields(a, b, c);
    FileItem([a, b, c]);
    TrimmedStays(part.fileId, "");
    NonEmptyStays(part.name, "image");
  }

  lemma NonEmptyStays(s: string, otherwise: string)
    requires s != ""
    ensures PyTextOr(String(s), otherwise) == s
  {
  }

  lemma FileFields(a: Field, b: Field, c: Field)
    requires a.key == "type" && b.key == "file_id" && c.key == "name"
    ensures var f := [a, b, c];
            Get(f, "type") == a.value && Get(f, "file_id") == b.value && Get(f, "name") == c.value
  {
    KeysDiffer();
    assert [a, b, c] == ([a] + [b]) + [c];
    forall key | key == "type" || key == "file_id" || key == "name"
      ensures Get([a, b, c], key) == if c.key == key then c.value else if b.key == key then b.value else Get([a], key)
    {
      GetLast([a] + [b], c, key);
      GetLast([a], b, key);
    }
  }

  lemma {:induction false} PartsRead(parts: seq<Part>)
    requires AllClean(parts)
    ensures SanitizeItems(PartsJson(parts)) == Some(AllReadBack(parts))
  {
    if parts != [] {
      var init, last := parts[..|parts|-1], parts[|parts|-1];
      assert parts == init + [last];
      PartsRead(init);
      PartReads(last);
      PartsReadOn(init, last);
    }
  }

  lemma PartsReadOn(init: seq<Part>, last: Part)
    requires SanitizeItems(PartsJson(init)) == Some(AllReadBack(init))
    requires SanitizeItem(PartJson(last)) == Keep(ReadBack(last))
    ensures SanitizeItems(PartsJson(init + [last])) == Some(AllReadBack(init + [last]))
  {
    SnocParts(init, last);
    SnocItems(PartsJson(init), PartJson(last));
  }

  lemma SnocItems(items: seq<Json>, item: Json)
    ensures SanitizeItems(items + [item]) == Extend(SanitizeItems(items), SanitizeItem(item))
  {
    assert (items + [item])[..|items|] == items;
  }

  lemma SnocParts(init: seq<Part>, last: Part)
    ensures PartsJson(init + [last]) == PartsJson(init) + [PartJson(last)]
    ensures AllReadBack(init + [last]) == AllReadBack(init) + [ReadBack(last)]
  {
  }

  lemma PartReads(part: Part)
    requires Clean(part)
    ensures SanitizeItem(PartJson(part)) == Keep(ReadBack(part))
  {
    match part {
      case TextPart(text) => TextPartReads(text);
      case LargePaste(_, _, _, _) => LargePasteReads(part);
      case FileRef(_, _) => FileRefReads(part);
    }
  }

  lemma EnvelopeIsPlain(parts: seq<Part>)
    ensures Plain(Envelope(parts))
  {
    forall k | 0 <= k < |parts|
      ensures Plain(PartsJson(parts)[k])
    {
      var j := PartJson(parts[k]);
      assert forall i | 0 <= i < |j.fields| :: Plain(j.fields[i].value);
    }
  }

  lemma PlainChar(c: char, tail: string, rest: string)
    requires 'a' <= c <= 'z'
    ensures CharsOnto([c] + tail, rest) == [c] + CharsOnto(tail, rest)
  {
    assert ([c] + tail)[1..] == tail;
  }

  lemma BenStarts(rest: string)
    ensures StringOnto("ben", rest) == "\"ben\"" + rest
  {
    var s := ['"'] + rest;
    PlainChar('n', "", s);
    PlainChar('e', "n", s);
    PlainChar('b', "en", s);
    assert "n" == ['n'] + "" && "en" == ['e'] + "n" && "ben" == ['b'] + "en";
  }

  lemma EnvelopeStarts(parts: seq<Part>)
    ensures Starts(Dumps(Default, Envelope(parts)), BEN_PREFIX)
  {
    var fields := Envelope(parts).fields;
    var rest := CommaOnto(Default, FieldsOnto(Default, fields[1..], ['}'] + ""));
    var tail := ColonOnto(Default, ValueOnto(Default, Int(1), rest));
    assert FieldsOnto(Default, fields, ['}'] + "") == FieldOnto(Default, fields[0], rest);
    BenStarts(tail);
    var s := Dumps(Default, Envelope(parts));
    assert s == ['{'] + ("\"ben\"" + tail);
    assert tail[0] == ':';
    assert s[..7] == BEN_PREFIX;
  }

  /** Reading an envelope gives its parts back, in order, up to the blank of a cut name. */
  lemma EnvelopeReads(parts: seq<Part>)
    requires AllClean(parts) && parts != []
    ensures ParseUserTurnParts(Dumps(Default, Envelope(parts))) == Some(AllReadBack(parts))
  {
    EnvelopeIsPlain(parts);
    EnvelopeStarts(parts);
    LoadsDumps(Default, Envelope(parts));
    PartsRead(parts);
    KeysDiffer();
    var a, b, c := Field("ben", Int(1)), Field("kind", String(KIND)), Field("parts", Array(PartsJson(parts)));
    var fields := [a, b, c];
    assert fields[..2] == [a, b] && fields[..2][..1] == [a];
    assert Get([a, b], "ben") == Int(1) && Get([a, b], "kind") == String(KIND) by {
      assert [a, b][..1] == [a];
    }
  }

  predicate Attachments(raw: Json) {
    Sanitize(raw).Some? && AnyAttached(CompactParts(Sanitize(raw).value))
  }

  /** Decoding an encoded turn with a paste or a file gives its sanitised, non-empty parts, in order: the
      very same ones exactly when no file name was cut right behind a blank. */
  lemma EncodedTurnDecodes(raw: Json)
    requires Attachments(raw)
    ensures var compact, decoded := CompactParts(Sanitize(raw).value), ParseUserTurnParts(EncodeUserTurn(raw));
            && decoded == Some(AllReadBack(compact))
            && (decoded == Some(compact) <==> forall part | part in compact && part.FileRef? :: !EndsBlank(part.name))
  {
    var parts := Sanitize(raw).value;
    var compact := CompactParts(parts);
    ItemsAreClean(raw.items);
    CompactIsClean(parts);
    EnvelopeReads(compact);
    EncodedAs(raw, compact);
    ReadBackSameIff(compact);
  }

  lemma EncodedAs(raw: Json, compact: seq<Part>)
    requires Attachments(raw) && compact == CompactParts(Sanitize(raw).value)
    ensures compact != [] && EncodeUserTurn(raw) == Dumps(Default, Envelope(compact))
  {
  }

  lemma ReadBackSameIff(parts: seq<Part>)
    ensures AllReadBack(parts) == parts <==> forall part | part in parts && part.FileRef? :: !EndsBlank(part.name)
  {
    if forall part | part in parts && part.FileRef? :: !EndsBlank(part.name) {
      forall k | 0 <= k < |parts|
        ensures ReadBack(parts[k]) == parts[k]
      {
        assert parts[k] in parts;
      }
    } else {
      var part :| part in parts && part.FileRef? && EndsBlank(part.name);
      var k :| 0 <= k < |parts| && parts[k] == part;
      assert AllReadBack(parts)[k] != parts[k];
    }
  }

  lemma {:induction false} CompactNothing(parts: seq<Part>)
    requires TextPart("") !in parts
    ensures CompactParts(parts) == parts
  {
    if parts != [] {
      CompactNothing(parts[..|parts|-1]);
    }
  }

  lemma {:induction false} CompactHasNoEmpty(parts: seq<Part>)
    ensures TextPart("") !in CompactParts(parts)
  {
    if parts != [] {
      CompactHasNoEmpty(parts[..|parts|-1]);
    }
  }

  /** Encoding what was decoded and decoding it again changes nothing more. */
  lemma SecondTripChangesNothing(raw: Json)
    requires Attachments(raw)
    ensures ParseUserTurnParts(EncodeUserTurn(raw)).Some?
    ensures var decoded := ParseUserTurnParts(EncodeUserTurn(raw)).value;
            ParseUserTurnParts(EncodeUserTurn(Array(PartsJson(decoded)))) == Some(decoded)
  {
    var parts := Sanitize(raw).value;
    var compact := CompactParts(parts);
    EncodedTurnDecodes(raw);
    ItemsAreClean(raw.items);
    CompactIsClean(parts);
    CompactHasNoEmpty(parts);
    var k :| 0 <= k < |compact| && Attached(compact[k]);
    ReadBackIsClean(compact);
    ReadBackIsFixed(compact);
    assert Attached(AllReadBack(compact)[k]);
    FixedTurnDecodes(AllReadBack(compact));
  }

  lemma FixedTurnDecodes(parts: seq<Part>)
    requires AllClean(parts) && AllReadBack(parts) == parts && TextPart("") !in parts && AnyAttached(parts)
    ensures ParseUserTurnParts(EncodeUserTurn(Array(PartsJson(parts)))) == Some(parts)
  {
    var raw := Array(PartsJson(parts));
    PartsRead(parts);
    assert Sanitize(raw) == Some(parts);
    CompactNothing(parts);
    EncodedAs(raw, parts);
    EnvelopeReads(parts);
  }

  lemma ReadBackIsClean(parts: seq<Part>)
    requires AllClean(parts)
    ensures AllClean(AllReadBack(parts))
    ensures TextPart("") !in parts ==> TextPart("") !in AllReadBack(parts)
  {
    forall k | 0 <= k < |parts|
      ensures Clean(AllReadBack(parts)[k])
      ensures AllReadBack(parts)[k] == TextPart("") ==> parts[k] == TextPart("")
    {
      if parts[k].FileRef? {
        assert Settles(parts[k].name);
      }
    }
  }

  lemma ReadBackIsFixed(parts: seq<Part>)
    requires AllClean(parts)
    ensures AllReadBack(AllReadBack(parts)) == AllReadBack(parts)
  {
    forall k | 0 <= k < |parts|
      ensures ReadBack(ReadBack(parts[k])) == ReadBack(parts[k])
    {
      if parts[k].FileRef? {
        assert Settles(parts[k].name);
      }
    }
  }

  // ----- expansion for a provider ---------------------------------------------------------------

  lemma {:induction false} CompactKeepsBodies(parts: seq<Part>)
    ensures ExpandParts(CompactParts(parts)) == ExpandParts(parts)
  {
    if parts != [] {
      var init, last := parts[..|parts|-1], parts[|parts|-1];
      CompactKeepsBodies(init);
      var c := CompactParts(init);
      var d := c + [last];
      assert c + [] == c;
      assert d[..|d|-1] == c && ExpandParts(d) == ExpandParts(c) + Body(last);
      assert ExpandParts(parts) == ExpandParts(init) + Body(last);
    }
  }

  lemma {:induction false} ReadBackKeepsBodies(parts: seq<Part>)
    ensures ExpandParts(AllReadBack(parts)) == ExpandParts(parts)
  {
    if parts != [] {
      ReadBackKeepsBodies(parts[..|parts|-1]);
      assert AllReadBack(parts)[..|parts|-1] == AllReadBack(parts[..|parts|-1]);
    }
  }

  lemma AttachedTurnExpands(raw: Json)
    requires Attachments(raw)
    ensures ExpandUserMessage(EncodeUserTurn(raw)) == ExpandParts(Sanitize(raw).value)
  {
    var compact := CompactParts(Sanitize(raw).value);
    CompactKeepsBodies(Sanitize(raw).value);
    EncodedTurnDecodes(raw);
    ReadBackKeepsBodies(compact);
  }

  lemma TextTurnEncodes(raw: Json)
    requires Sanitize(raw).Some? && !Attachments(raw)
    ensures EncodeUserTurn(raw) == ExpandParts(Sanitize(raw).value)
  {
    CompactKeepsBodies(Sanitize(raw).value);
  }

  lemma StaysIffNoEnvelope(content: string)
    ensures ExpandUserMessage(content) == content <==> ParseUserTurnParts(content).None?
    ensures !Starts(content, BEN_PREFIX) ==> ExpandUserMessage(content) == content
  {
    if ParseUserTurnParts(content).Some? {
      ExpansionIsShorter(content);
    }
  }

  /** What is stored for a turn expands to the turn's texts and pasted bodies, all of them and in order,
      when something is attached, and otherwise exactly when the text is not itself an envelope. */
  lemma StoredTurnExpands(raw: Json)
    requires Sanitize(raw).Some?
    ensures var bodies := ExpandParts(Sanitize(raw).value);
            && (Attachments(raw) ==> ExpandUserMessage(EncodeUserTurn(raw)) == bodies)
            && (!Attachments(raw) ==>
                  && EncodeUserTurn(raw) == bodies
                  && (ExpandUserMessage(bodies) == bodies <==> ParseUserTurnParts(bodies).None?)
                  && (!Starts(bodies, BEN_PREFIX) ==> ExpandUserMessage(bodies) == bodies))
  {
    if Attachments(raw) {
      AttachedTurnExpands(raw);
    } else {
      TextTurnEncodes(raw);
      StaysIffNoEnvelope(ExpandParts(Sanitize(raw).value));
    }
  }

  // ----- an envelope is longer than what it holds ---------------------------------------------

  /** The characters in all strings of a value, keys aside. */
  function Weight(v: Json): nat
    decreases v, 1
  {
    match v
    case String(s) => |s|
    case Array(items) => ItemsWeight(items)
    case Object(fields) => FieldsWeight(fields)
    case _ => 0
  }

  function ItemsWeight(items: seq<Json>): nat
    decreases items, 0
  {
    if items == [] then 0 else Weight(items[0]) + ItemsWeight(items[1..])
  }

  function FieldsWeight(fields: seq<Field>): nat
    decreases fields, 0
  {
    if fields == [] then 0 else Weight(fields[0].value) + FieldsWeight(fields[1..])
  }

  lemma {:induction false} CharsCost(s: string)
    ensures var r := ReadChars(s); r.Some? ==> |r.value.0| + |r.value.1| < |s|
    decreases |s|
  {
    if s != "" && s[0] == '\\' {
      var e := ReadEscape(s[1..]);
      if e.Some? {
        CharsCost(e.value.1);
      }
    } else if s != "" && s[0] != '"' && s[0] >= ' ' {
      CharsCost(s[1..]);
    }
  }

  lemma {:induction false} ValueCosts(s: string)
    ensures var r := ReadValue(s); r.Some? ==> Weight(r.value.0) + |r.value.1| < |s|
    decreases |s|, 1
  {
    if s != "" && s[0] == '"' {
      CharsCost(s[1..]);
    } else if s != "" && s[0] == '{' {
      var inner := SkipWs(s[1..]);
      FieldsCost(inner);
    } else if s != "" && s[0] == '[' {
      var inner := SkipWs(s[1..]);
      ItemsCost(inner);
    }
  }

  lemma {:induction false} ItemsCost(s: string)
    ensures var r := ReadItems(s); r.Some? ==> ItemsWeight(r.value.0) + |r.value.1| < |s|
    decreases |s|, 2
  {
    ValueCosts(s);
    var first := ReadValue(s);
    if first.Some? {
      var t := SkipWs(first.value.1);
      assert ItemsWeight([first.value.0]) == Weight(first.value.0);
      if t != "" && t[0] == ',' {
        var tail := SkipWs(t[1..]);
        ItemsCost(tail);
        if ReadItems(tail).Some? {
          assert ([first.value.0] + ReadItems(tail).value.0)[1..] == ReadItems(tail).value.0;
        }
      }
    }
  }

  lemma {:induction false} FieldCosts(s: string)
    ensures var r := ReadField(s); r.Some? ==> Weight(r.value.0.value) + |r.value.1| < |s|
    decreases |s|, 2
  {
    if ReadField(s).Some? {
      var t := SkipWs(ReadChars(s[1..]).value.1);
      ValueCosts(SkipWs(t[1..]));
    }
  }

  lemma {:induction false} FieldsCost(s: string)
    ensures var r := ReadFields(s); r.Some? ==> FieldsWeight(r.value.0) + |r.value.1| < |s|
    decreases |s|, 3
  {
    FieldCosts(s);
    var first := ReadField(s);
    if first.Some? {
      var t := SkipWs(first.value.1);
      assert FieldsWeight([first.value.0]) == Weight(first.value.0.value);
      if t != "" && t[0] == ',' {
        var tail := SkipWs(t[1..]);
        FieldsCost(tail);
        if ReadFields(tail).Some? {
          assert ([first.value.0] + ReadFields(tail).value.0)[1..] == ReadFields(tail).value.0;
        }
      }
    }
  }

  lemma {:induction false} FieldsWeightSnoc(fields: seq<Field>)
    requires fields != []
    ensures FieldsWeight(fields) == FieldsWeight(fields[..|fields|-1]) + Weight(fields[|fields|-1].value)
  {
    if |fields| > 1 {
      FieldsWeightSnoc(fields[1..]);
      assert fields[1..][..|fields|-2] == fields[..|fields|-1][1..];
    }
  }

  lemma {:induction false} ItemsWeightSnoc(items: seq<Json>)
    requires items != []
    ensures ItemsWeight(items) == ItemsWeight(items[..|items|-1]) + Weight(items[|items|-1])
  {
    if |items| > 1 {
      ItemsWeightSnoc(items[1..]);
      assert items[1..][..|items|-2] == items[..|items|-1][1..];
    }
  }

  lemma {:induction false} GetWeighsLess(fields: seq<Field>, key: string)
    ensures Weight(Get(fields, key)) <= FieldsWeight(fields)
  {
    if fields != [] {
      FieldsWeightSnoc(fields);
      GetWeighsLess(fields[..|fields|-1], key);
    }
  }

  lemma {:induction false} BodiesWeighLess(items: seq<Json>)
    requires SanitizeItems(items).Some?
    ensures |ExpandParts(SanitizeItems(items).value)| <= ItemsWeight(items)
  {
    if items != [] {
      var last := items[|items|-1];
      ItemsWeightSnoc(items);
      BodiesWeighLess(items[..|items|-1]);
      GetWeighsLess(last.fields, "text");
      var parts := SanitizeItems(items).value;
      if SanitizeItem(last).Keep? {
        BodiesKept(last);
        assert parts[..|parts|-1] == SanitizeItems(items[..|items|-1]).value;
      }
    }
  }

  lemma ExpansionIsShorter(content: string)
    requires ParseUserTurnParts(content).Some?
    ensures |ExpandUserMessage(content)| < |content|
  {
    ValueCosts(SkipWs(content));
    var fields := Loads(content).value.fields;
    GetWeighsLess(fields, "parts");
    BodiesWeighLess(Get(fields, "parts").items);
  }

  lemma TextTurnStored(text: string)
    requires text != ""
    ensures EncodeUserTurn(Array([PartJson(TextPart(text))])) == text
  {
    TextPartReads(text);
    OneItem(PartJson(TextPart(text)), TextPart(text));
    OneText(text);
  }

  lemma OneItem(item: Json, part: Part)
    requires SanitizeItem(item) == Keep(part)
    ensures Sanitize(Array([item])) == Some([part])
  {
    SnocItems([], item);
    assert [] + [item] == [item] && [] + [part] == [part];
  }

  lemma OneText(text: string)
    requires text != ""
    ensures var parts := [TextPart(text)]; CompactParts(parts) == parts && !AnyAttached(parts) && ExpandParts(parts) == text
  {
    assert [TextPart(text)][..0] == [];
  }

  /** So an envelope typed as text does not reach the provider as typed: its bodies do. */
  lemma TypedEnvelopeIsUnwrapped(raw: Json)
    requires Attachments(raw)
    ensures var typed := EncodeUserTurn(raw);
            && EncodeUserTurn(Array([PartJson(TextPart(typed))])) == typed
            && ExpandUserMessage(typed) == ExpandParts(Sanitize(raw).value) != typed
  {
    var typed := EncodeUserTurn(raw);
    StoredTurnExpands(raw);
    EncodedTurnDecodes(raw);
    ExpansionIsShorter(typed);
    TextTurnStored(typed);
  }
}

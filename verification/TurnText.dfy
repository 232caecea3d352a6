/**
 What a stored user turn looks like and what becomes of each of its parts
 (services/message_format.py).
 */
module TurnText {
  import opened Wrappers
  import opened Text
  import opened Json
  import opened JsonText
  import opened Names
  import opened UserTurn

  // ----- what a provider gets ----------------------------------------------------------

  /** Parts are expanded one after the other, in their order. */
  lemma {:induction false} ExpansionJoins(a: seq<Part>, b: seq<Part>)
    ensures ExpandParts(a + b) == ExpandParts(a) + ExpandParts(b)
  {
    if b == [] {
      assert a + b == a;
    } else {
      var init, last := b[..|b|-1], b[|b|-1];
      ExpansionJoins(a, init);
      assert b == init + [last] && a + b == a + init + [last];
      ExpandStep(init, last);
      ExpandStep(a + init, last);
      Reassociate(ExpandParts(a), ExpandParts(init), Body(last));
    }
  }

  lemma ExpandStep(parts: seq<Part>, part: Part)
    ensures ExpandParts(parts + [part]) == ExpandParts(parts) + Body(part)
  {
    assert (parts + [part])[..|parts|] == parts;
  }

  lemma PartExpands(part: Part)
    ensures ExpandParts([part]) == match part
                                   case TextPart(text) => text
                                   case LargePaste(_, _, body, _) => body
                                   case FileRef(_, _) => ""
  {
    assert [part][..0] == [];
    assert "" + Body(part) == Body(part);
  }

  /** The body of a part stands behind the bodies of the parts before it. */
  lemma BodyStands(parts: seq<Part>, k: nat)
    requires k < |parts|
    ensures var at := |ExpandParts(parts[..k])|;
            && at + |Body(parts[k])| <= |ExpandParts(parts)|
            && ExpandParts(parts)[at..at+|Body(parts[k])|] == Body(parts[k])
  {
    var head, tail := parts[..k], parts[k+1..];
    assert parts == head + ([parts[k]] + tail);
    ExpansionJoins(head, [parts[k]] + tail);
    ExpansionJoins([parts[k]], tail);
    PartExpands(parts[k]);
    Between(ExpandParts(head), Body(parts[k]), ExpandParts(tail));
  }

  lemma Between(x: string, y: string, z: string)
    ensures (x + (y + z))[|x|..|x|+|y|] == y
  {
  }

  /** An attached turn comes back as all its texts and pasted bodies, each behind those before it; files add nothing. */
  lemma StoredBodyStands(raw: Json, k: nat)
    requires Attachments(raw) && k < |Sanitize(raw).value|
    ensures var parts, expanded := Sanitize(raw).value, ExpandUserMessage(EncodeUserTurn(raw));
            var at := |ExpandParts(parts[..k])|;
            at + |Body(parts[k])| <= |expanded| && expanded[at..at+|Body(parts[k])|] == Body(parts[k])
  {
    StoredTurnExpands(raw);
    BodyStands(Sanitize(raw).value, k);
  }

  // ----- what becomes of each part -------------------------------------------------------

  /** Parts of one list are kept in front of those of the next; either spoils both. */
  lemma {:induction false} SanitizeJoins(a: seq<Json>, b: seq<Json>)
    ensures SanitizeItems(a + b) == Both(SanitizeItems(a), SanitizeItems(b))
  {
    if b == [] {
      assert a + b == a;
      BothOrNothing(SanitizeItems(a));
    } else {
      var init, last := b[..|b|-1], b[|b|-1];
      SanitizeJoins(a, init);
      SnocJoins(a, init, last);
      assert b == init + [last] && a + b == a + init + [last];
    }
  }

  lemma SnocJoins(a: seq<Json>, b: seq<Json>, item: Json)
    requires SanitizeItems(a + b) == Both(SanitizeItems(a), SanitizeItems(b))
    ensures SanitizeItems(a + b + [item]) == Both(SanitizeItems(a), SanitizeItems(b + [item]))
  {
    SnocItems(b, item);
    SnocItems(a + b, item);
    ExtendBoth(SanitizeItems(a), SanitizeItems(b), SanitizeItem(item));
  }

  function Both(x: Option<seq<Part>>, y: Option<seq<Part>>): Option<seq<Part>> {
    match (x, y)
    case (Some(p), Some(q)) => Some(p + q)
    case (_, _) => None
  }

  lemma BothOrNothing(x: Option<seq<Part>>)
    ensures Both(x, Some([])) == x
  {
    if x.Some? {
      Reassociate(x.value, [], []);
    }
  }

  lemma ExtendBoth(x: Option<seq<Part>>, y: Option<seq<Part>>, v: Verdict)
    ensures Extend(Both(x, y), v) == Both(x, Extend(y, v))
  {
    if x.Some? && y.Some? && v.Keep? {
      Reassociate(x.value, y.value, [v.part]);
    }
  }

  lemma {:induction false} RefusalHasReason(items: seq<Json>) returns (k: nat)
    requires SanitizeItems(items).None?
    ensures k < |items| && SanitizeItem(items[k]).Bad?
  {
    var init, last := items[..|items|-1], items[|items|-1];
    if SanitizeItem(last).Bad? {
      k := |items| - 1;
    } else {
      assert items == init + [last];
      SnocItems(init, last);
      k := RefusalHasReason(init);
    }
  }

  /** A turn is refused exactly when one of its parts is bad. */
  lemma RefusedIffBadItem(items: seq<Json>)
    ensures SanitizeItems(items).None? <==> exists k: nat :: k < |items| && SanitizeItem(items[k]).Bad?
  {
    if SanitizeItems(items).None? {
      var k := RefusalHasReason(items);
    } else {
      forall k: nat | k < |items|
        ensures !SanitizeItem(items[k]).Bad?
      {
        if SanitizeItem(items[k]).Bad? {
          BadItemSpoils(items, k);
        }
      }
    }
  }

  /** A text must be a text; a paste must also have an id and a readable count; a file is never refused, but left out
      when its id is no UUID; everything else is refused. */
  lemma ItemFates(item: Json)
    ensures var v := SanitizeItem(item);
            if !item.Object? then v.Bad?
            else
              var kind, text := Get(item.fields, "type"), Get(item.fields, "text");
              if kind == String("text") then
                v == if text.String? then Keep(TextPart(text.s)) else Bad
              else if kind == String("large_paste") then
                var id := Strip(PyTextOr(Get(item.fields, "id"), ""));
                var title := Strip(PyTextOr(Get(item.fields, "label"), "Pasted text"));
                if text.String? && id != "" && CountIsReadable(Get(item.fields, "char_count"))
                then v == Keep(LargePaste(id, if title != "" then title else "Pasted text", text.s, |text.s|))
                else v.Bad?
              else if kind == String("file_ref") then
                var fileId := CanonicalUuid(Strip(PyTextOr(Get(item.fields, "file_id"), "")));
                v == if fileId.Some? then Keep(FileRef(fileId.value, NormalName(PyTextOr(Get(item.fields, "name"), "image"))))
                     else Skip
              else v.Bad?
  {
  }

  predicate DigitsBetween(s: string) {
    && s != "" && IsDigit(s[0]) && IsDigit(s[|s|-1])
    && (forall k | 0 <= k < |s| :: IsDigit(s[k]) || s[k] == '_')
    && forall k | 0 < k < |s| :: s[k-1] != '_' || s[k] != '_'
  }

  /** Digits, with single underscores between them only. */
  lemma {:induction false} GroupsAreDigits(s: string)
    ensures DigitGroups(s) <==> DigitsBetween(s)
    decreases |s|
  {
    if |s| > 1 && IsDigit(s[0]) {
      var t := if s[1] == '_' then s[2..] else s[1..];
      GroupsAreDigits(t);
      if DigitsBetween(s) {
        assert |s| > 2 || s[1] != '_';
        assert t != "" && IsDigit(t[0]);
        assert DigitsBetween(t);
      }
      if DigitsBetween(t) {
        assert forall k | 0 <= k < |t| :: t[k] == s[|s|-|t|+k];
        assert DigitsBetween(s);
      }
    }
  }

  /** Empty texts are dropped and nothing else. */
  lemma {:induction false} CompactJoins(a: seq<Part>, b: seq<Part>)
    ensures CompactParts(a + b) == CompactParts(a) + CompactParts(b)
  {
    if b == [] {
      assert a + b == a;
    } else {
      var init, last := b[..|b|-1], b[|b|-1];
      CompactJoins(a, init);
      assert (a + b)[..|a+b|-1] == a + init;
      Reassociate(CompactParts(a), CompactParts(init), if last == TextPart("") then [] else [last]);
    }
  }

  lemma CompactOne(part: Part)
    ensures CompactParts([part]) == if part == TextPart("") then [] else [part]
  {
    assert [part][..0] == [];
  }

  // ----- what is stored --------------------------------------------------------------------

  function Member(key: string, text: string): string {
    "\"" + key + "\": " + text
  }

  function Braced(members: seq<string>): string {
    "{" + Join(members, ", ") + "}"
  }

  /** The members of a part in the envelope. */
  function PartMembers(part: Part): seq<string> {
    match part
    case TextPart(text) => [Member("type", "\"text\""), Member("text", Quoted(text))]
    case LargePaste(id, title, body, n) =>
      [Member("type", "\"large_paste\""), Member("id", Quoted(id)), Member("label", Quoted(title)),
       Member("text", Quoted(body)), Member("char_count", NatToString(n))]
    case FileRef(fileId, name) =>
      [Member("type", "\"file_ref\""), Member("file_id", Quoted(fileId)), Member("name", Quoted(name))]
  }

  function PartText(part: Part): string {
    Braced(PartMembers(part))
  }

  function PartTexts(parts: seq<Part>): (r: seq<string>)
    ensures |r| == |parts| && forall k | 0 <= k < |r| :: r[k] == PartText(parts[k])
  {
    seq(|parts|, k requires 0 <= k < |parts| => PartText(parts[k]))
  }

  lemma PlainQuoted(s: string)
    requires NeedsNoEscape(s)
    ensures Quoted(s) == "\"" + s + "\""
  {
    PlainStays(s);
  }

  lemma MemberText(f: Field)
    requires NeedsNoEscape(f.key)
    ensures Quoted(f.key) + ColonOf(Default) + Dumps(Default, f.value) == Member(f.key, Dumps(Default, f.value))
  {
    PlainQuoted(f.key);
  }

  ghost predicate PlainKeys(fields: seq<Field>) {
    forall k | 0 <= k < |fields| :: NeedsNoEscape(fields[k].key)
  }

  function Members(fields: seq<Field>): (r: seq<string>)
    ensures |r| == |fields| && forall k | 0 <= k < |r| :: r[k] == Member(fields[k].key, Dumps(Default, fields[k].value))
  {
    seq(|fields|, k requires 0 <= k < |fields| => Member(fields[k].key, Dumps(Default, fields[k].value)))
  }

  lemma ObjectText(fields: seq<Field>)
    requires PlainKeys(fields)
    ensures Dumps(Default, Object(fields)) == Braced(Members(fields))
  {
    DumpsReads(Default, Object(fields));
    forall k | 0 <= k < |fields|
      ensures FieldTexts(Default, fields)[k] == Members(fields)[k]
    {
      MemberText(fields[k]);
    }
    assert FieldTexts(Default, fields) == Members(fields);
  }

  lemma PlainText(s: string)
    requires NeedsNoEscape(s)
    ensures Dumps(Default, String(s)) == "\"" + s + "\""
  {
    DumpsReads(Default, String(s));
    PlainQuoted(s);
  }

  lemma TypeMember(kind: string)
    requires NeedsNoEscape(kind)
    ensures Member("type", Dumps(Default, String(kind))) == Member("type", "\"" + kind + "\"")
  {
    PlainText(kind);
  }

  lemma StringMember(key: string, s: string)
    ensures Member(key, Dumps(Default, String(s))) == Member(key, Quoted(s))
  {
    DumpsReads(Default, String(s));
  }

  lemma TextPartText(text: string)
    ensures Members(PartJson(TextPart(text)).fields) == PartMembers(TextPart(text))
  {
    TypeMember("text");
    StringMember("text", text);
    assert "\"" + "text" + "\"" == "\"text\"";
  }

  lemma PastePartText(id: string, title: string, body: string, n: nat)
    ensures Members(PartJson(LargePaste(id, title, body, n)).fields) == PartMembers(LargePaste(id, title, body, n))
  {
    TypeMember("large_paste");
    StringMember("id", id);
    StringMember("label", title);
    StringMember("text", body);
    CountMember(n);
    assert "\"" + "large_paste" + "\"" == "\"large_paste\"";
  }

  lemma CountMember(n: nat)
    ensures Member("char_count", Dumps(Default, Int(n))) == Member("char_count", NatToString(n))
  {
    DumpsReads(Default, Int(n));
  }

  lemma FilePartText(fileId: string, name: string)
    ensures Members(PartJson(FileRef(fileId, name)).fields) == PartMembers(FileRef(fileId, name))
  {
    TypeMember("file_ref");
    StringMember("file_id", fileId);
    StringMember("name", name);
    assert "\"" + "file_ref" + "\"" == "\"file_ref\"";
  }

  lemma PartTextReads(part: Part)
    ensures Dumps(Default, PartJson(part)) == PartText(part)
  {
    KeysArePlain(part);
    ObjectText(PartJson(part).fields);
    PartMembersRead(part);
  }

  lemma KeysArePlain(part: Part)
    ensures PlainKeys(PartJson(part).fields)
  {
  }

  lemma PartMembersRead(part: Part)
    ensures Members(PartJson(part).fields) == PartMembers(part)
  {
    match part {
      case TextPart(text) => TextPartText(text);
      case LargePaste(id, title, body, n) => PastePartText(id, title, body, n);
      case FileRef(fileId, name) => FilePartText(fileId, name);
    }
  }

  /** The envelope: a version, a kind and the parts in their order. */
  lemma EnvelopeText(parts: seq<Part>)
    ensures Dumps(Default, Envelope(parts)) ==
            Braced(["\"ben\": 1", "\"kind\": \"user_turn\"", "\"parts\": [" + Join(PartTexts(parts), ", ") + "]"])
  {
    var fields := Envelope(parts).fields;
    ObjectText(fields);
    HeadText();
    PartsText(parts);
    var list := "[" + Join(PartTexts(parts), ", ") + "]";
    assert Members(fields)[2] == Member("parts", list);
    PartsMember(Join(PartTexts(parts), ", "));
    assert Members(fields) == [Members(fields)[0], Members(fields)[1], Members(fields)[2]];
  }

  lemma HeadText()
    ensures Member("ben", Dumps(Default, Int(1))) == "\"ben\": 1"
    ensures Member("kind", Dumps(Default, String(KIND))) == "\"kind\": \"user_turn\""
  {
    DumpsReads(Default, Int(1));
    PlainText("user_turn");
  }

  lemma PartsMember(inner: string)
    ensures Member("parts", "[" + inner + "]") == "\"parts\": [" + inner + "]"
  {
    assert "\"parts\": " + ("[" + inner + "]") == "\"parts\": [" + inner + "]";
  }

  lemma PartsText(parts: seq<Part>)
    ensures Dumps(Default, Array(PartsJson(parts))) == "[" + Join(PartTexts(parts), ", ") + "]"
  {
    DumpsReads(Default, Array(PartsJson(parts)));
    forall k | 0 <= k < |parts|
      ensures ItemTexts(Default, PartsJson(parts))[k] == PartTexts(parts)[k]
    {
      PartTextReads(parts[k]);
    }
    assert ItemTexts(Default, PartsJson(parts)) == PartTexts(parts);
  }

  /** What is stored: nothing for a refused turn, the envelope of the parts that are not empty when one of them is no
      text, and plain text otherwise. */
  lemma TurnIsStoredAs(raw: Json)
    ensures match Sanitize(raw)
            case None => EncodeUserTurn(raw) == ""
            case Some(parts) =>
              EncodeUserTurn(raw) ==
              if exists k | 0 <= k < |parts| :: !parts[k].TextPart? then
                Braced(["\"ben\": 1", "\"kind\": \"user_turn\"",
                        "\"parts\": [" + Join(PartTexts(CompactParts(parts)), ", ") + "]"])
              else ExpandParts(parts)
  {
    if Sanitize(raw).Some? {
      var parts := Sanitize(raw).value;
      var compact := CompactParts(parts);
      AttachedSurvive(parts);
      EnvelopeText(compact);
      if !AnyAttached(compact) {
        TextTurnEncodes(raw);
      }
    }
  }

  lemma {:induction false} AttachedSurvive(parts: seq<Part>)
    ensures AnyAttached(CompactParts(parts)) <==> exists k | 0 <= k < |parts| :: !parts[k].TextPart?
  {
    if parts != [] {
      var init, last := parts[..|parts|-1], parts[|parts|-1];
      AttachedSurvive(init);
      var c := CompactParts(init);
      if last.TextPart? {
        if AnyAttached(c) {
          var k :| 0 <= k < |c| && Attached(c[k]);
          assert Attached(CompactParts(parts)[k]);
        }
      } else {
        assert Attached(CompactParts(parts)[|c|]);
      }
    }
  }

  /** A text is read as a turn exactly when it starts as the writer starts one and is an object of version one and this
      kind whose parts are acceptable. */
  lemma ReadsAsTurnIff(content: string)
    ensures ParseUserTurnParts(content).Some? <==>
              && |content| >= 7 && content[..7] == "{\"ben\":"
              && Loads(content).Some? && Loads(content).value.Object?
              && var fields := Loads(content).value.fields;
                 && (Get(fields, "ben") == Int(1) || Get(fields, "ben") == Bool(true))
                 && Get(fields, "kind") == String("user_turn")
                 && Sanitize(Get(fields, "parts")).Some?
    ensures ParseUserTurnParts(content).Some? ==>
              ParseUserTurnParts(content) == Sanitize(Get(Loads(content).value.fields, "parts"))
  {
  }
}

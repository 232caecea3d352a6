/**
 The two texts a file reference is normalised to (services/message_format.py):
 a UUID in canonical form and a display name.
 */
module Names {
  import opened Wrappers
  import opened Text

  // ----- the canonical text of an id --------------------------------------------------

  /** A text without the occurrences of a word. */
  function Remove(s: string, word: string): (r: string)
    requires word != ""
    decreases |s|
  {
    if s == "" then ""
    else if |word| <= |s| && s[..|word|] == word then Remove(s[|word|..], word)
    else [s[0]] + Remove(s[1..], word)
  }

  function StripBraces(s: string): string {
    var t := DropBraces(s);
    Reverse(DropBraces(Reverse(t)))
  }

  function DropBraces(s: string): string {
    if s != "" && (s[0] == '{' || s[0] == '}') then DropBraces(s[1..]) else s
  }

  function Reverse(s: string): string {
    if s == "" then "" else Reverse(s[1..]) + [s[0]]
  }

  predicate IsHex(c: char) {
    IsDigit(c) || 'a' <= c <= 'f' || 'A' <= c <= 'F'
  }

  predicate IsLowerHex(c: char) {
    IsDigit(c) || 'a' <= c <= 'f'
  }

  function LowerHex(c: char): (r: char)
    requires IsHex(c)
    ensures IsLowerHex(r) && (IsLowerHex(c) ==> r == c)
  {
    if 'A' <= c <= 'F' then 'a' + (c - 'A') else c
  }

  predicate IsHexText(h: string) {
    |h| == 32 && forall k | 0 <= k < 32 :: IsLowerHex(h[k])
  }

  function Hyphenate(h: string): string
    requires |h| == 32
  {
    h[..8] + "-" + h[8..12] + "-" + h[12..16] + "-" + h[16..20] + "-" + h[20..]
  }

  function HexOf(raw: string): string {
    Remove(StripBraces(Remove(Remove(raw, "urn:"), "uuid:")), "-")
  }

  function LowerAll(hex: string): (r: string)
    requires forall k | 0 <= k < |hex| :: IsHex(hex[k])
    ensures |r| == |hex| && forall k | 0 <= k < |hex| :: r[k] == LowerHex(hex[k])
  {
    seq(|hex|, k requires 0 <= k < |hex| => LowerHex(hex[k]))
  }

  function CanonicalUuid(raw: string): Option<string> {
    var hex := HexOf(raw);
    if |hex| != 32 || exists k | 0 <= k < |hex| :: !IsHex(hex[k]) then None
    else Some(Hyphenate(LowerAll(hex)))
  }

  lemma {:induction false} RemoveAbsent(s: string, word: string)
    requires word != "" && word[0] !in s
    ensures Remove(s, word) == s
  {
    if s != "" {
      assert s == [s[0]] + s[1..];
      RemoveAbsent(s[1..], word);
      assert |word| <= |s| ==> s[..|word|][0] == s[0];
    }
  }

  lemma {:induction false} RemoveHyphenConcat(a: string, b: string)
    ensures Remove(a + b, "-") == Remove(a, "-") + Remove(b, "-")
    decreases |a|
  {
    if a == "" {
      assert a + b == b;
    } else {
      assert (a + b)[1..] == a[1..] + b;
      assert (a + b)[..1] == [a[0]] && a[..1] == [a[0]];
      RemoveHyphenConcat(a[1..], b);
    }
  }

  lemma UnhyphenatePart(part: string, b: string)
    requires '-' !in part
    ensures Remove(part + "-" + b, "-") == part + Remove(b, "-")
  {
    assert part + "-" + b == part + ("-" + b);
    RemoveHyphenConcat(part, "-" + b);
    RemoveAbsent(part, "-");
    assert ("-" + b)[..1] == "-" && ("-" + b)[1..] == b;
  }

  lemma HyphenatedChars(h: string)
    requires IsHexText(h)
    ensures var u := Hyphenate(h);
            |u| == 36 && u[0] == h[0] && u[35] == h[31] && forall c | c in u :: c == '-' || IsLowerHex(c)
  {
  }

  lemma {:induction false} ReverseSnoc(s: string, c: char)
    ensures Reverse(s + [c]) == [c] + Reverse(s)
  {
    if s == "" {
      assert [c][1..] == "";
    } else {
      assert (s + [c])[1..] == s[1..] + [c];
      ReverseSnoc(s[1..], c);
    }
  }

  lemma {:induction false} ReverseTwice(s: string)
    ensures Reverse(Reverse(s)) == s
  {
    if s != "" {
      ReverseTwice(s[1..]);
      ReverseSnoc(Reverse(s[1..]), s[0]);
    }
  }

  lemma HexOfCanonical(h: string)
    requires IsHexText(h)
    ensures HexOf(Hyphenate(h)) == h
  {
    var u := Hyphenate(h);
    HyphenatedChars(h);
    assert "urn:"[0] !in u && "uuid:"[0] !in u;
    RemoveAbsent(u, "urn:");
    RemoveAbsent(u, "uuid:");
    BracesDrop(u);
    HyphensDrop(h);
  }

  /** The canonical form is its own canonical form. */
  lemma CanonicalIsFixed(raw: string)
    requires CanonicalUuid(raw).Some?
    ensures CanonicalUuid(CanonicalUuid(raw).value) == CanonicalUuid(raw)
  {
    var h := LowerAll(HexOf(raw));
    HexOfCanonical(h);
    assert LowerAll(h) == h;
  }

  /** The value of a hexadecimal digit, in either case. */
  function DigitOf(c: char): nat
    requires IsHex(c)
  {
    if IsDigit(c) then DigitValue(c) else if c >= 'a' then 10 + (c - 'a') as nat else 10 + (c - 'A') as nat
  }

  predicate IsHexAnyCase(h: string) {
    |h| == 32 && forall k | 0 <= k < 32 :: IsHex(h[k])
  }

  lemma LowerHexKeepsDigit(c: char)
    requires IsHex(c)
    ensures DigitOf(LowerHex(c)) == DigitOf(c)
  {
  }

  lemma BracesDrop(u: string)
    requires u != "" && u[0] !in "{}" && u[|u|-1] !in "{}"
    ensures StripBraces(u) == u && StripBraces("{" + u + "}") == u
  {
    var init, last := u[..|u|-1], u[|u|-1];
    assert u == init + [last];
    ReverseSnoc(init, last);
    ReverseTwice(u);
    assert ("{" + u + "}")[1..] == u + "}";
    assert DropBraces("{" + u + "}") == u + ['}'];
    ReverseSnoc(u, '}');
    assert (['}'] + Reverse(u))[1..] == Reverse(u);
  }

  lemma WordRemoved(word: string, s: string)
    requires word != "" && word[0] !in s
    ensures Remove(word + s, word) == s
  {
    RemoveAbsent(s, word);
    assert (word + s)[..|word|] == word && (word + s)[|word|..] == s;
  }

  predicate Spells(u: string, h: string)
    requires |h| == 32
  {
    u == h || u == Hyphenate(h)
  }

  lemma SpelledChars(u: string, h: string)
    requires IsHexAnyCase(h) && Spells(u, h)
    ensures u != "" && u[0] == h[0] && u[|u|-1] == h[31] && forall c | c in u :: c == '-' || IsHex(c)
    ensures Remove(u, "-") == h
  {
    if u == h {
      RemoveAbsent(h, "-");
    } else {
      HyphenatedHex(h);
      HyphensDrop(h);
    }
  }

  lemma HyphenatedHex(h: string)
    requires IsHexAnyCase(h)
    ensures var u := Hyphenate(h);
            |u| == 36 && u[0] == h[0] && u[35] == h[31] && forall c | c in u :: c == '-' || IsHex(c)
  {
  }

  lemma HexOfSpelled(u: string, h: string)
    requires IsHexAnyCase(h) && Spells(u, h)
    ensures HexOf(u) == h
  {
    SpelledChars(u, h);
    RemoveAbsent(u, "urn:");
    RemoveAbsent(u, "uuid:");
    BracesDrop(u);
  }

  lemma HexOfBraced(u: string, h: string)
    requires IsHexAnyCase(h) && Spells(u, h)
    ensures HexOf("{" + u + "}") == h
  {
    var braced := "{" + u + "}";
    SpelledChars(u, h);
    assert forall c | c in braced :: c in u || c == '{' || c == '}';
    RemoveAbsent(braced, "urn:");
    RemoveAbsent(braced, "uuid:");
    BracesDrop(u);
  }

  lemma HexOfUrn(u: string, h: string)
    requires IsHexAnyCase(h) && Spells(u, h)
    ensures HexOf("urn:uuid:" + u) == h
  {
    SpelledChars(u, h);
    SchemeDrops(u);
    BracesDrop(u);
  }

  /** Thirty-two digits, with or without hyphens, braces or the name of the scheme, are the same id. */
  lemma UuidForms(u: string, h: string)
    requires IsHexAnyCase(h) && Spells(u, h)
    ensures var canonical := Some(Hyphenate(LowerAll(h)));
            && CanonicalUuid(u) == canonical && CanonicalUuid("{" + u + "}") == canonical
            && CanonicalUuid("urn:uuid:" + u) == canonical
  {
    HexOfSpelled(u, h);
    HexOfBraced(u, h);
    HexOfUrn(u, h);
  }

  lemma SchemeDrops(u: string)
    requires 'u' !in u && ':' !in u
    ensures Remove(Remove("urn:uuid:" + u, "urn:"), "uuid:") == u
  {
    var s := "uuid:" + u;
    assert "urn:uuid:" + u == "urn:" + s;
    assert ("urn:" + s)[..4] == "urn:" && ("urn:" + s)[4..] == s;
    KeepsScheme(u);
    WordRemoved("uuid:", u);
  }

  lemma KeepsScheme(u: string)
    requires 'u' !in u
    ensures Remove("uuid:" + u, "urn:") == "uuid:" + u
  {
    var s1 := [':'] + u;
    var s2 := ['d'] + s1;
    var s3 := ['i'] + s2;
    var s4 := ['u'] + s3;
    RemoveAbsent(u, "urn:");
    RemovePasses(':', u, "urn:");
    RemovePasses('d', s1, "urn:");
    RemovePasses('i', s2, "urn:");
    RemovePasses('u', s3, "urn:");
    RemovePasses('u', s4, "urn:");
    SchemeSpelled(u);
  }

  lemma SchemeSpelled(u: string)
    ensures "uuid:" + u == ['u'] + (['u'] + (['i'] + (['d'] + ([':'] + u))))
  {
  }

  lemma RemovePasses(c: char, s: string, word: string)
    requires |word| > 1 && (c != word[0] || s == "" || s[0] != word[1])
    ensures Remove([c] + s, word) == [c] + Remove(s, word)
  {
    var t := [c] + s;
    assert t[1..] == s;
    if |word| <= |t| {
      assert t[..|word|][0] == c && t[..|word|][1] == s[0];
    }
  }

  lemma HyphensDrop(h: string)
    requires IsHexAnyCase(h)
    ensures Remove(Hyphenate(h), "-") == h
  {
    var e := h[20..];
    var d := h[16..20] + "-" + e;
    var c := h[12..16] + "-" + d;
    var b := h[8..12] + "-" + c;
    assert Hyphenate(h) == h[..8] + "-" + b;
    UnhyphenatePart(h[..8], b);
    UnhyphenatePart(h[8..12], c);
    UnhyphenatePart(h[12..16], d);
    UnhyphenatePart(h[16..20], e);
    RemoveAbsent(e, "-");
    assert h == h[..8] + (h[8..12] + (h[12..16] + (h[16..20] + e)));
  }

  /** Groups of eight, four, four, four and twelve digits. */
  lemma HyphensStand(h: string)
    requires |h| == 32
    ensures var u := Hyphenate(h);
            && |u| == 36 && u[8] == u[13] == u[18] == u[23] == '-'
            && u[..8] + u[9..13] + u[14..18] + u[19..23] + u[24..] == h
  {
    var u := Hyphenate(h);
    assert u[..8] == h[..8] && u[9..13] == h[8..12] && u[14..18] == h[12..16] && u[19..23] == h[16..20] && u[24..] == h[20..];
  }

  // ----- the normal form of a file name ---------------------------------------------

  function FirstWord(s: string): (w: string)
    ensures |w| <= |s| && w == s[..|w|]
    ensures forall i | 0 <= i < |w| :: !IsSpace(w[i])
    ensures |w| < |s| ==> IsSpace(s[|w|])
  {
    if s == "" || IsSpace(s[0]) then "" else [s[0]] + FirstWord(s[1..])
  }

  function Words(s: string): seq<string>
    decreases |s|
  {
    var t := LStrip(s);
    if t == "" then [] else [FirstWord(t)] + Words(t[|FirstWord(t)|..])
  }

  function Collapse(s: string): string {
    Join(Words(s), " ")
  }

  function Unquote(s: string): (r: string)
    ensures |r| == |s| && forall k | 0 <= k < |s| :: r[k] == if s[k] == '"' then '\'' else s[k]
  {
    seq(|s|, k requires 0 <= k < |s| => if s[k] == '"' then '\'' else s[k])
  }

  const NAME_MAX := 256

  function CutName(s: string): string {
    if |s| > NAME_MAX then s[..NAME_MAX] else s
  }

  function NormalName(raw: string): (r: string)
    ensures r != ""
  {
    var t := CutName(Unquote(Collapse(raw)));
    if t == "" then "image" else t
  }

  /** Single blanks only, none in front; one may stand at the end. */
  predicate Spaced(s: string) {
    && (s != "" ==> !IsSpace(s[0]))
    && (forall k | 0 <= k < |s| && IsSpace(s[k]) :: s[k] == ' ')
    && forall k | 0 < k < |s| :: !(IsSpace(s[k-1]) && IsSpace(s[k]))
  }

  predicate EndsBlank(s: string) {
    s != "" && IsSpace(s[|s|-1])
  }

  function TrimEnd(s: string): string {
    if EndsBlank(s) then s[..|s|-1] else s
  }

  predicate IsWord(w: string) {
    w != "" && forall k | 0 <= k < |w| :: !IsSpace(w[k])
  }

  lemma WordIsSpaced(w: string)
    requires IsWord(w)
    ensures Spaced(w) && !EndsBlank(w)
  {
  }

  lemma PutWord(w: string, c: string)
    requires IsWord(w) && c != "" && Spaced(c)
    ensures Spaced(w + " " + c) && (EndsBlank(w + " " + c) <==> EndsBlank(c))
  {
    var r := w + " " + c;
    forall k | 0 <= k < |r|
      ensures IsSpace(r[k]) ==> r[k] == ' '
      ensures k > 0 ==> !(IsSpace(r[k-1]) && IsSpace(r[k]))
    {
      if k > |w| + 1 {
        assert r[k] == c[k-|w|-1] && r[k-1] == c[k-|w|-2];
      }
    }
  }

  lemma {:induction false} CollapseIsSpaced(s: string)
    ensures Spaced(Collapse(s)) && !EndsBlank(Collapse(s))
    ensures LStrip(s) != "" ==> Words(s) != [] && Collapse(s) != ""
    decreases |s|
  {
    var t := LStrip(s);
    if t != "" {
      var w := FirstWord(t);
      var rest := t[|w|..];
      WordIsSpaced(w);
      CollapseIsSpaced(rest);
      if Words(rest) != [] {
        assert LStrip(rest) != "";
        PutWord(w, Collapse(rest));
      }
    }
  }

  /** A spaced text is one word, one word and a blank, or a word, a blank and a spaced text. */
  lemma SplitWord(s: string) returns (w: string, u: string)
    requires Spaced(s) && s != ""
    ensures IsWord(w) && Spaced(u)
    ensures s == w || s == w + " " || (u != "" && s == w + " " + u)
    ensures Words(s) == [w] + Words(u)
    ensures u != "" <==> s != w && s != w + " "
  {
    assert LStrip(s) == s;
    w := FirstWord(s);
    var rest := s[|w|..];
    if rest == "" {
      u := "";
      assert s == w;
    } else {
      assert rest[0] == s[|w|] == ' ';
      u := rest[1..];
      assert rest == " " + u;
      assert s == w + " " + u;
      assert u != "" ==> u[0] == s[|w|+1];
      assert Spaced(u) by {
        assert forall k | 0 <= k < |u| :: u[k] == s[|w|+1+k];
      }
      assert LStrip(rest) == LStrip(u) == u;
    }
  }

  lemma {:induction false} CollapseSpaced(s: string)
    requires Spaced(s)
    ensures Collapse(s) == TrimEnd(s)
    decreases |s|
  {
    if s != "" {
      var w, u := SplitWord(s);
      if u == "" {
        assert Words(s) == [w];
      } else {
        CollapseSpaced(u);
        CollapseIsSpaced(u);
        TrimWord(w, u);
      }
    }
  }

  lemma TrimWord(w: string, u: string)
    requires u != ""
    ensures TrimEnd(w + " " + u) == w + " " + TrimEnd(u)
  {
    var s := w + " " + u;
    assert s[|s|-1] == u[|u|-1];
    assert s[..|s|-1] == w + " " + u[..|u|-1];
  }

  /** What normalising leaves: a name that normalising changes at most by dropping one final blank. */
  predicate IsNormal(s: string) {
    s != "" && Spaced(s) && |s| <= NAME_MAX && forall k | 0 <= k < |s| :: s[k] != '"'
  }

  lemma NormalNameIsNormal(raw: string)
    ensures IsNormal(NormalName(raw))
  {
    CollapseIsSpaced(raw);
    UnquoteKeepsSpaces(Collapse(raw));
    CutIsSpaced(Unquote(Collapse(raw)));
    CutHasNoQuote(Collapse(raw));
  }

  lemma CutHasNoQuote(s: string)
    ensures var t := CutName(Unquote(s));
            |t| <= NAME_MAX && forall k | 0 <= k < |t| :: t[k] != '"'
  {
  }

  lemma UnquoteKeepsSpaces(s: string)
    requires Spaced(s)
    ensures Spaced(Unquote(s)) && (EndsBlank(Unquote(s)) <==> EndsBlank(s))
  {
    assert !IsSpace('"') && !IsSpace('\'');
  }

  lemma CutIsSpaced(s: string)
    requires Spaced(s)
    ensures Spaced(CutName(s))
  {
  }

  /** Normalising once more drops the final blank, and then nothing more. */
  lemma NormalAgain(s: string)
    requires IsNormal(s)
    ensures NormalName(s) == TrimEnd(s) && IsNormal(TrimEnd(s)) && !EndsBlank(TrimEnd(s))
  {
    CollapseSpaced(s);
    assert |s| == 1 ==> !EndsBlank(s);
    assert Unquote(TrimEnd(s)) == TrimEnd(s);
  }

  /** A name that normalising changes once at most, and only by its final blank. */
  predicate Settles(name: string) {
    && NormalName(name) == TrimEnd(name)
    && NormalName(TrimEnd(name)) == TrimEnd(name)
    && TrimEnd(TrimEnd(name)) == TrimEnd(name)
  }

  lemma NormalNameSettles(raw: string)
    ensures Settles(NormalName(raw)) && Settles(TrimEnd(NormalName(raw)))
  {
    NormalNameIsNormal(raw);
    NormalAgain(NormalName(raw));
    NormalAgain(TrimEnd(NormalName(raw)));
  }

  /** The final blank comes from the cut, and from nothing else. */
  lemma BlankComesFromCut(raw: string)
    ensures EndsBlank(NormalName(raw)) <==> |Collapse(raw)| > NAME_MAX && Collapse(raw)[NAME_MAX-1] == ' '
  {
    CollapseIsSpaced(raw);
    UnquoteKeepsSpaces(Collapse(raw));
  }

  // ----- what normalising keeps ---------------------------------------------------------

  lemma {:induction false} LStripOn(a: string, tail: string)
    ensures LStrip(a + tail) == if LStrip(a) == "" then LStrip(tail) else LStrip(a) + tail
  {
    if a == "" {
      assert a + tail == tail;
    } else if IsSpace(a[0]) {
      assert (a + tail)[1..] == a[1..] + tail;
      LStripOn(a[1..], tail);
    }
  }

  lemma {:induction false} FirstWordOn(t: string, c: char, b: string)
    requires IsSpace(c)
    ensures FirstWord(t + ([c] + b)) == FirstWord(t)
  {
    if t == "" {
      assert t + ([c] + b) == [c] + b;
    } else if !IsSpace(t[0]) {
      assert (t + ([c] + b))[1..] == t[1..] + ([c] + b);
      FirstWordOn(t[1..], c, b);
    }
  }

  lemma WordsOf(s: string)
    ensures var t := LStrip(s); Words(s) == if t == "" then [] else [FirstWord(t)] + Words(t[|FirstWord(t)|..])
  {
  }

  /** White space parts words, wherever it stands. */
  lemma {:induction false} WordsPart(a: string, c: char, b: string)
    requires IsSpace(c)
    ensures Words(a + ([c] + b)) == Words(a) + Words(b)
    decreases |a|
  {
    var t, tail := LStrip(a), [c] + b;
    LStripOn(a, tail);
    WordsOf(a + tail);
    WordsOf(a);
    if t == "" {
      assert tail[1..] == b;
      WordsOf(b);
      assert [] + Words(b) == Words(b);
    } else {
      var w := FirstWord(t);
      FirstWordOn(t, c, b);
      SplitBehind(t, tail, |w|);
      WordsPart(t[|w|..], c, b);
      Reassociate([w], Words(t[|w|..]), Words(b));
    }
  }

  lemma SplitBehind(t: string, tail: string, n: nat)
    requires n <= |t|
    ensures (t + tail)[n..] == t[n..] + tail
  {
  }

  lemma Reassociate<T>(x: seq<T>, y: seq<T>, z: seq<T>)
    ensures x + (y + z) == x + y + z && x + [] == x
  {
  }

  /** And nothing else does. */
  lemma WordAlone(w: string)
    requires IsWord(w)
    ensures Words(w) == [w]
  {
    assert FirstWord(w) == w;
    assert w[|w|..] == "";
  }

  /** A name is the words of the text given, single blanks between them and its quotes made single, or the first 256
      characters of that; a text without words makes an image. */
  lemma NormalNameReads(raw: string)
    ensures var words := Unquote(Join(Words(raw), " "));
            NormalName(raw) == if words == "" then "image" else if |words| <= 256 then words else words[..256]
  {
  }
}

/**
 The last explicit language request of a message (services/chat_language.py).
 The text comes in cut to length and case-folded.
 */
module LanguageOverride {
  import opened Wrappers
  import opened Text

  datatype Phrase = Phrase(words: string, code: string)

  const PATTERNS := [
    Phrase("respond in english", "en"),
    Phrase("reply in english", "en"),
    Phrase("answer in english", "en"),
    Phrase("באנגלית", "en"),
    Phrase("תענה בעברית", "he"),
    Phrase("ענה בעברית", "he"),
    Phrase("בעברית", "he")
  ]

  predicate OccursAt(text: string, words: string, i: int) {
    0 <= i && i + |words| <= |text| && text[i..i+|words|] == words
  }

  /** The first occurrence from `start` on, or a negative number. */
  method Find(text: string, words: string, start: nat) returns (idx: int)
    ensures idx < 0 ==> forall i | start <= i :: !OccursAt(text, words, i)
    ensures idx >= 0 ==> start <= idx && OccursAt(text, words, idx) && forall i | start <= i < idx :: !OccursAt(text, words, i)
  {
    idx := start;
    while idx + |words| <= |text|
      invariant start <= idx && forall i | start <= i < idx :: !OccursAt(text, words, i)
    {
      if text[idx..idx+|words|] == words {
        assert OccursAt(text, words, idx);
        return;
      }
      assert !OccursAt(text, words, idx);
      idx := idx + 1;
    }
    assert forall i | start <= i :: !OccursAt(text, words, i);
    idx := -1;
  }

  /** Phrase `k` of the table occurs at `i` and ends at `end`. */
  predicate Ends(text: string, table: seq<Phrase>, k: int, i: int, end: int) {
    0 <= k < |table| && OccursAt(text, table[k].words, i) && end == i + |table[k].words|
  }

  /** None when no phrase occurs, otherwise the code of one whose occurrence ends last. */
  ghost predicate IsLastRequest(text: string, table: seq<Phrase>, r: Option<string>) {
    match r
    case None => forall k, i, end :: !Ends(text, table, k, i, end)
    case Some(code) => exists k, i, end :: IsLast(text, table, k, i, end) && table[k].code == code
  }

  ghost predicate IsLast(text: string, table: seq<Phrase>, k: int, i: int, end: int) {
    Ends(text, table, k, i, end) && forall k', i', end' | Ends(text, table, k', i', end') :: end' <= end
  }

  predicate NotBlank(s: string) {
    exists j | 0 <= j < |s| :: !IsSpace(s[j])
  }

  /** Every phrase has a visible character. */
  predicate Visible(table: seq<Phrase>) {
    forall k | 0 <= k < |table| :: NotBlank(table[k].words)
  }

  method ExtractInMessageLanguageOverride(text: string, table: seq<Phrase>) returns (r: Option<string>)
    requires Visible(table)
    ensures IsLastRequest(text, table, r)
  {
    if Strip(text) == "" {
      BlankHoldsNothing(text, table);
      return None;
    }
    var bestEnd := -1;
    r := None;
    ghost var bestK, bestI := 0, 0;
    for k := 0 to |table|
      invariant bestEnd >= 0 ==> Ends(text, table, bestK, bestI, bestEnd) && r == Some(table[bestK].code)
      invariant bestEnd < 0 ==> bestEnd == -1 && r == None
      invariant forall k', i, end | k' < k && Ends(text, table, k', i, end) :: end <= bestEnd
    {
      var Phrase(words, code) := table[k];
      var start := 0;
      while true
        invariant start <= |text| + 1
        invariant bestEnd >= 0 ==> Ends(text, table, bestK, bestI, bestEnd) && r == Some(table[bestK].code)
        invariant bestEnd < 0 ==> bestEnd == -1 && r == None
        invariant forall k', i, end | k' < k && Ends(text, table, k', i, end) :: end <= bestEnd
        invariant forall i, end | i < start && Ends(text, table, k, i, end) :: end <= bestEnd
        decreases |text| + 1 - start
      {
        var idx := Find(text, words, start);
        if idx < 0 {
          break;
        }
        var end := idx + |words|;
        assert Ends(text, table, k, idx, end);
        if end > bestEnd {
          bestEnd, r := end, Some(code);
          bestK, bestI := k, idx;
        }
        start := idx + 1;
      }
    }
    assert bestEnd >= 0 ==> IsLast(text, table, bestK, bestI, bestEnd);
  }

  /** A text with a visible character is not blank. */
  lemma {:induction false} VisibleStaysLeft(s: string, i: nat)
    requires i < |s| && !IsSpace(s[i])
    ensures LStrip(s) != "" && !IsSpace(LStrip(s)[0])
  {
    if IsSpace(s[0]) {
      VisibleStaysLeft(s[1..], i - 1);
    }
  }

  lemma {:induction false} VisibleStaysRight(s: string)
    requires s != "" && !IsSpace(s[0])
    ensures RStrip(s) != ""
  {
    if IsSpace(s[|s|-1]) {
      VisibleStaysRight(s[..|s|-1]);
    }
  }

  lemma FoundIsNotBlank(text: string, table: seq<Phrase>, k: int, i: int, end: int)
    requires Visible(table) && Ends(text, table, k, i, end)
    ensures Strip(text) != ""
  {
    var words := table[k].words;
    var j :| 0 <= j < |words| && !IsSpace(words[j]);
    assert text[i..i+|words|][j] == text[i+j];
    VisibleStaysLeft(text, i + j);
    VisibleStaysRight(LStrip(text));
  }

  lemma BlankHoldsNothing(text: string, table: seq<Phrase>)
    requires Visible(table)
    ensures Strip(text) == "" ==> forall k, i, end :: !Ends(text, table, k, i, end)
  {
    forall k, i, end | Ends(text, table, k, i, end)
      ensures Strip(text) != ""
    {
      FoundIsNotBlank(text, table, k, i, end);
    }
  }

  // ----- the order of the table does not matter -----------------------------------------

  predicate IsSuffix(a: string, b: string) {
    |a| <= |b| && b[|b|-|a|..] == a
  }

  /** Where one phrase is the end of another, both ask for the same language. */
  predicate Consistent(table: seq<Phrase>) {
    forall j, k | 0 <= j < |table| && 0 <= k < |table| && IsSuffix(table[j].words, table[k].words) ::
      table[j].code == table[k].code
  }

  lemma SameEndIsSuffix(text: string, a: string, b: string, i: int, j: int)
    requires OccursAt(text, a, i) && OccursAt(text, b, j) && i + |a| == j + |b| && |a| <= |b|
    ensures IsSuffix(a, b)
  {
    assert text[j..j+|b|][|b|-|a|..] == text[i..i+|a|];
  }

  /** Any two tables with the same phrases give the same answer. */
  lemma TableOrderDoesNotMatter(text: string, table: seq<Phrase>, table': seq<Phrase>, r: Option<string>, r': Option<string>)
    requires Consistent(table) && forall p: Phrase :: p in table <==> p in table'
    requires IsLastRequest(text, table, r) && IsLastRequest(text, table', r')
    ensures r == r'
  {
    if r.Some? {
      var k, i, end :| IsLast(text, table, k, i, end) && table[k].code == r.value;
      var m := Elsewhere(text, table, table', k, i, end);
      if r'.Some? {
        var k', i', end' :| IsLast(text, table', k', i', end') && table'[k'].code == r'.value;
        var m' := Elsewhere(text, table', table, k', i', end');
        assert end == end';
        if |table[k].words| <= |table[m'].words| {
          SameEndIsSuffix(text, table[k].words, table[m'].words, i, i');
        } else {
          SameEndIsSuffix(text, table[m'].words, table[k].words, i', i);
        }
      }
    } else if r'.Some? {
      var k', i', end' :| IsLast(text, table', k', i', end') && table'[k'].code == r'.value;
      var m' := Elsewhere(text, table', table, k', i', end');
    }
  }

  lemma Elsewhere(text: string, table: seq<Phrase>, table': seq<Phrase>, k: int, i: int, end: int) returns (m: int)
    requires forall p: Phrase :: p in table <==> p in table'
    requires Ends(text, table, k, i, end)
    ensures 0 <= m < |table'| && table'[m] == table[k] && Ends(text, table', m, i, end)
  {
    assert table[k] in table';
    m :| 0 <= m < |table'| && table'[m] == table[k];
  }

  /** The third letter from the end already tells the language: a resh asks for Hebrew. */
  predicate Telling(p: Phrase) {
    && |p.words| >= 3 && !IsSpace(p.words[0])
    && p.code == if p.words[|p.words|-3] == 'ר' then "he" else "en"
  }

  lemma PatternsAreTelling(k: nat)
    requires k < |PATTERNS|
    ensures Telling(PATTERNS[k])
  {
  }

  /** The table in use asks for one language only where phrases end alike, and has no blank phrase. */
  lemma PatternsAreConsistent()
    ensures Consistent(PATTERNS) && Visible(PATTERNS)
  {
    var table := PATTERNS;
    forall k | 0 <= k < |table|
      ensures Telling(table[k])
    {
      PatternsAreTelling(k);
    }
  }
}

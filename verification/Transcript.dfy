/**
 The bounded transcript of a session (services/adhoc_transcript.py): one line for
 each message that has one, the oldest lines cut first.
 */
module Transcript {
  import opened Text

  /** A synthesis with its session key and body, or any other message with the line it makes, empty for none. */
  datatype Message = Synthesis(session: string, body: string) | Other(line: string)

  function KeyOf(session: string): string {
    if session == "" then "_" else session
  }

  function LabelOf(n: nat): string {
    "BEN (Synthesis Summary Round " + NatToString(n) + ")"
  }

  function SynthesisLine(body: string, n: nat): (r: string)
    ensures r != ""
  {
    if body != "" then LabelOf(n) + ": " + body else LabelOf(n)
  }

  /** How many syntheses of a session there are. */
  function Rounds(messages: seq<Message>, key: string): nat {
    if messages == [] then 0
    else
      var m := messages[|messages|-1];
      Rounds(messages[..|messages|-1], key) + if m.Synthesis? && KeyOf(m.session) == key then 1 else 0
  }

  /** Sessions are the same by their name; those without one count together, also with one that is called `_`. */
  predicate SameSession(a: string, b: string) {
    a == b || (a in {"", "_"} && b in {"", "_"})
  }

  /** The line of message `i`: the n-th synthesis of a session is its round n. */
  function LineOf(messages: seq<Message>, i: nat): string
    requires i < |messages|
  {
    match messages[i]
    case Synthesis(session, body) => SynthesisLine(body, Rounds(messages[..i+1], KeyOf(session)))
    case Other(line) => line
  }

  function Lines(messages: seq<Message>): seq<string> {
    if messages == [] then []
    else
      var k := |messages| - 1;
      var r := Lines(messages[..k]);
      if LineOf(messages, k) != "" then r + [LineOf(messages, k)] else r
  }

  function Cost(lines: seq<string>): nat {
    if lines == [] then 0 else |lines[0]| + 1 + Cost(lines[1..])
  }

  /** The last `n` lines, if there are more: but zero keeps all of them, and a negative `n` drops that many in front. */
  function LastOf(lines: seq<string>, n: int): seq<string> {
    if |lines| <= n || n == 0 then lines
    else if n > 0 then lines[|lines|-n..]
    else if -n <= |lines| then lines[-n..]
    else []
  }

  function Trim(lines: seq<string>, maxChars: int): seq<string> {
    if lines != [] && Cost(lines) > maxChars then Trim(lines[1..], maxChars) else lines
  }

  function Kept(messages: seq<Message>, maxMessages: int, maxChars: int): seq<string> {
    Trim(LastOf(Lines(messages), maxMessages), maxChars)
  }

  method RenderLines(messages: seq<Message>) returns (lines: seq<string>)
    ensures lines == Lines(messages)
  {
    lines := [];
    var round: map<string, nat> := map[];
    for k := 0 to |messages|
      invariant lines == Lines(messages[..k])
      invariant forall key :: (if key in round then round[key] else 0) == Rounds(messages[..k], key)
    {
      assert messages[..k+1][..k] == messages[..k];
      var line;
      match messages[k] {
        case Synthesis(session, body) =>
          var sid := KeyOf(session);
          round := round[sid := (if sid in round then round[sid] else 0) + 1];
          line := SynthesisLine(body, round[sid]);
        case Other(text) =>
          line := text;
      }
      SameLine(messages, k);
      if line != "" {
        lines := lines + [line];
      }
    }
    assert messages[..|messages|] == messages;
  }

  lemma SameLine(messages: seq<Message>, k: nat)
    requires k < |messages|
    ensures LineOf(messages[..k+1], k) == LineOf(messages, k)
  {
    assert messages[..k+1][..k+1] == messages[..k+1];
  }

  method BuildTranscriptLines(messages: seq<Message>, maxMessages: int, maxChars: int) returns (text: string, lines: seq<string>)
    ensures lines == Kept(messages, maxMessages, maxChars)
    ensures text == Join(lines, "\n\n")
  {
    lines := RenderLines(messages);
    if |lines| > maxMessages {
      lines := LastOf(lines, maxMessages);
    }
    while lines != [] && Cost(lines) > maxChars
      invariant Trim(lines, maxChars) == Kept(messages, maxMessages, maxChars)
      decreases |lines|
    {
      lines := lines[1..];
    }
    text := Join(lines, "\n\n");
  }

  // ----- what is kept ---------------------------------------------------------------

  /** Lines from `i` on are within both bounds. */
  predicate Fits(lines: seq<string>, i: nat, maxMessages: int, maxChars: int)
    requires i <= |lines|
  {
    |lines| - i <= maxMessages && (i == |lines| || Cost(lines[i..]) <= maxChars)
  }

  lemma LastOfIsSuffix(lines: seq<string>, n: int) returns (i: nat)
    ensures i <= |lines| && LastOf(lines, n) == lines[i..]
  {
    i := if |lines| <= n || n == 0 then 0 else if n > 0 then |lines| - n else if -n <= |lines| then -n else |lines|;
  }

  /** Popping from `from` on stops at the first position behind which the lines are short enough. */
  lemma {:induction false} TrimAt(lines: seq<string>, from: nat, maxChars: int) returns (i: nat)
    requires from <= |lines|
    ensures from <= i <= |lines| && Trim(lines[from..], maxChars) == lines[i..]
    ensures i == |lines| || Cost(lines[i..]) <= maxChars
    ensures forall j | from <= j < i :: Cost(lines[j..]) > maxChars
    decreases |lines| - from
  {
    if from < |lines| && Cost(lines[from..]) > maxChars {
      i := TrimAt(lines, from + 1, maxChars);
      assert lines[from..][1..] == lines[from+1..];
    } else {
      i := from;
    }
  }

  /** With a positive number of messages allowed, the transcript is the longest run of latest lines that
      keeps both bounds. */
  lemma LongestSuffixThatFits(messages: seq<Message>, maxMessages: int, maxChars: int) returns (i: nat)
    requires maxMessages > 0
    ensures var all := Lines(messages);
            && i <= |all| && Kept(messages, maxMessages, maxChars) == all[i..]
            && Fits(all, i, maxMessages, maxChars)
            && forall j | 0 <= j < i :: !Fits(all, j, maxMessages, maxChars)
  {
    var all := Lines(messages);
    var from := if |all| <= maxMessages then 0 else |all| - maxMessages;
    assert LastOf(all, maxMessages) == all[from..] by {
      assert all[0..] == all;
    }
    i := TrimAt(all, from, maxChars);
  }

  /** The number of lines is bounded exactly when a positive bound is given, or zero is and nothing is kept
      anyway: a bound of zero bounds nothing. */
  lemma LineBoundHoldsIff(messages: seq<Message>, maxMessages: int, maxChars: int)
    ensures var all := Lines(messages);
            |Kept(messages, maxMessages, maxChars)| <= maxMessages <==>
              maxMessages > 0 || (maxMessages == 0 && (all == [] || |all[|all|-1]| + 1 > maxChars))
    ensures maxMessages == 0 ==> Kept(messages, 0, maxChars) == Trim(Lines(messages), maxChars)
  {
    var all := Lines(messages);
    if maxMessages > 0 {
      var i := LongestSuffixThatFits(messages, maxMessages, maxChars);
    } else if maxMessages == 0 {
      assert all[0..] == all;
      var i := TrimAt(all, 0, maxChars);
      if all != [] {
        var last := all[|all|-1..];
        assert last == [all[|all|-1]] && last[1..] == [];
        assert Cost(last) == |all[|all|-1]| + 1;
        if i < |all| {
          CostOfSuffix(all, i, |all| - 1);
        }
      }
    }
  }

  lemma {:induction false} CostOfSuffix(lines: seq<string>, i: nat, j: nat)
    requires i <= j <= |lines|
    ensures Cost(lines[j..]) <= Cost(lines[i..])
    decreases j - i
  {
    if i < j {
      CostOfSuffix(lines, i + 1, j);
      assert lines[i..][1..] == lines[i+1..];
    }
  }

  lemma {:induction false} JoinedLength(lines: seq<string>)
    requires lines != []
    ensures |Join(lines, "\n\n")| == Cost(lines) + |lines| - 2
  {
    if |lines| == 1 {
      assert lines[1..] == [];
    } else {
      JoinedLength(lines[1..]);
    }
  }

  /** The joined text may exceed the character bound, by less than one character a line. */
  lemma TextIsBounded(messages: seq<Message>, maxMessages: int, maxChars: int)
    ensures var lines := Kept(messages, maxMessages, maxChars);
            lines != [] ==> |Join(lines, "\n\n")| <= maxChars + |lines| - 2
  {
    var all := Lines(messages);
    var from := LastOfIsSuffix(all, maxMessages);
    var i := TrimAt(all, from, maxChars);
    if all[i..] != [] {
      JoinedLength(all[i..]);
    }
  }

  // ----- what the lines show --------------------------------------------------------

  lemma RoundsStep(messages: seq<Message>, m: Message, key: string)
    ensures Rounds(messages + [m], key) == Rounds(messages, key) + if m.Synthesis? && KeyOf(m.session) == key then 1 else 0
  {
    assert (messages + [m])[..|messages|] == messages;
  }

  /** The syntheses of a session before position `i`. */
  ghost function Earlier(messages: seq<Message>, i: nat, session: string): set<nat>
    requires i <= |messages|
  {
    set j: nat | j < i && messages[j].Synthesis? && SameSession(messages[j].session, session)
  }

  lemma EarlierStep(messages: seq<Message>, i: nat, session: string)
    requires i < |messages|
    ensures |Earlier(messages, i + 1, session)| ==
            |Earlier(messages, i, session)| + if messages[i].Synthesis? && SameSession(messages[i].session, session) then 1 else 0
  {
    var before := Earlier(messages, i, session);
    if messages[i].Synthesis? && SameSession(messages[i].session, session) {
      assert Earlier(messages, i + 1, session) == before + {i};
    } else {
      assert Earlier(messages, i + 1, session) == before;
    }
  }

  lemma KeysMatch(a: string, b: string)
    ensures KeyOf(a) == KeyOf(b) <==> SameSession(a, b)
  {
  }

  lemma {:induction false} RoundsAreEarlier(messages: seq<Message>, i: nat, session: string)
    requires i <= |messages|
    ensures Rounds(messages[..i], KeyOf(session)) == |Earlier(messages, i, session)|
  {
    if i > 0 {
      RoundsAreEarlier(messages, i - 1, session);
      EarlierStep(messages, i - 1, session);
      RoundsStep(messages[..i-1], messages[i-1], KeyOf(session));
      assert messages[..i] == messages[..i-1] + [messages[i-1]];
      if messages[i-1].Synthesis? {
        KeysMatch(messages[i-1].session, session);
      }
    }
  }

  /** A line shows its message: a synthesis its text and its round, which is one more than the syntheses of the
      same session before it, whatever other sessions say. */
  ghost predicate Shows(messages: seq<Message>, i: nat, line: string) {
    && i < |messages|
    && match messages[i]
       case Other(text) => line == text
       case Synthesis(session, body) => line == SynthesisLine(body, 1 + |Earlier(messages, i, session)|)
  }

  lemma LineShows(messages: seq<Message>, i: nat)
    requires i < |messages|
    ensures Shows(messages, i, LineOf(messages, i))
  {
    var m := messages[i];
    if m.Synthesis? {
      RoundsAreEarlier(messages, i, m.session);
      assert messages[..i+1][..i] == messages[..i];
    }
  }

  /** The positions of the messages that have a line. */
  function Speaking(messages: seq<Message>): seq<nat> {
    if messages == [] then []
    else
      var k := |messages| - 1;
      var r := Speaking(messages[..k]);
      if messages[k] != Other("") then r + [k] else r
  }

  lemma {:induction false} SpeakingIsAll(messages: seq<Message>)
    ensures forall k: nat :: k in Speaking(messages) <==> k < |messages| && messages[k] != Other("")
    ensures forall j, k | 0 <= j < k < |Speaking(messages)| :: Speaking(messages)[j] < Speaking(messages)[k]
  {
    if messages != [] {
      var init := messages[..|messages|-1];
      SpeakingIsAll(init);
      assert forall j | 0 <= j < |Speaking(init)| :: Speaking(init)[j] in Speaking(init);
    }
  }

  /** `lines` show the messages at `at`. */
  ghost predicate SpokenAt(messages: seq<Message>, at: seq<nat>, lines: seq<string>) {
    && |at| == |lines|
    && forall k | 0 <= k < |at| :: Shows(messages, at[k], lines[k])
  }

  lemma ShowsLonger(messages: seq<Message>, i: nat, line: string)
    requires messages != [] && Shows(messages[..|messages|-1], i, line)
    ensures Shows(messages, i, line)
  {
    var init := messages[..|messages|-1];
    if messages[i].Synthesis? {
      assert Earlier(init, i, messages[i].session) == Earlier(messages, i, messages[i].session);
    }
  }

  lemma SpokenLonger(messages: seq<Message>, at: seq<nat>, lines: seq<string>)
    requires messages != [] && SpokenAt(messages[..|messages|-1], at, lines)
    ensures SpokenAt(messages, at, lines)
    ensures SpokenAt(messages, at + [|messages| - 1], lines + [LineOf(messages, |messages| - 1)])
  {
    forall k | 0 <= k < |at|
      ensures Shows(messages, at[k], lines[k])
    {
      ShowsLonger(messages, at[k], lines[k]);
    }
    LineShows(messages, |messages| - 1);
  }

  lemma {:induction false} LinesAreSpoken(messages: seq<Message>)
    ensures SpokenAt(messages, Speaking(messages), Lines(messages))
  {
    if messages != [] {
      var init := messages[..|messages|-1];
      LinesAreSpoken(init);
      SpokenLonger(messages, Speaking(init), Lines(init));
    }
  }

  lemma SuffixIsSpoken(messages: seq<Message>, at: seq<nat>, lines: seq<string>, i: nat)
    requires SpokenAt(messages, at, lines) && i <= |at|
    ensures SpokenAt(messages, at[i..], lines[i..])
  {
  }

  /** However much is cut, the lines left are those of the latest messages that have one, in order, each with
      the round it has in its whole session. */
  lemma KeptLinesKeepTheirRounds(messages: seq<Message>, maxMessages: int, maxChars: int) returns (at: seq<nat>, i: nat)
    ensures forall k: nat :: k in at <==> k < |messages| && messages[k] != Other("")
    ensures forall j, k | 0 <= j < k < |at| :: at[j] < at[k]
    ensures i <= |at| && SpokenAt(messages, at[i..], Kept(messages, maxMessages, maxChars))
  {
    at := Speaking(messages);
    SpeakingIsAll(messages);
    var all := Lines(messages);
    var from := LastOfIsSuffix(all, maxMessages);
    i := TrimAt(all, from, maxChars);
    LinesAreSpoken(messages);
    SuffixIsSpoken(messages, Speaking(messages), all, i);
  }

  /** Two labels, with any text behind them, only look the same for the same round and the same text. */
  lemma RoundsLookDifferent(m: nat, n: nat, a: string, b: string)
    requires LabelOf(m) + a == LabelOf(n) + b
    ensures m == n && a == b
  {
    var head := "BEN (Synthesis Summary Round ";
    var x, y := NatToString(m), NatToString(n);
    OnlyDigits(m, "");
    OnlyDigits(n, "");
    CloseApart(head, x, y, a, b);
    NatToStringInjective(m, n);
    assert |LabelOf(m)| == |head| + |x| + 1;
    assert (LabelOf(m) + a)[|head|+|x|+1..] == a && (LabelOf(n) + b)[|head|+|x|+1..] == b;
  }

  lemma CloseApart(head: string, x: string, y: string, a: string, b: string)
    requires head + x + ")" + a == head + y + ")" + b
    requires (forall c | c in x :: IsDigit(c)) && forall c | c in y :: IsDigit(c)
    ensures x == y
  {
    var s, t := head + x + ")" + a, head + y + ")" + b;
    assert s[|head|+|x|] == ')' && t[|head|+|y|] == ')';
    assert forall k | 0 <= k < |x| :: s[|head|+k] == x[k] && x[k] in x;
    assert forall k | 0 <= k < |y| :: t[|head|+k] == y[k] && y[k] in y;
    assert |x| == |y|;
    assert s[|head|..|head|+|x|] == x && t[|head|..|head|+|y|] == y;
  }

  /** The line of a synthesis tells its round and its text. */
  lemma SynthesisLineTells(body: string, n: nat, body': string, n': nat)
    requires SynthesisLine(body, n) == SynthesisLine(body', n')
    ensures body == body' && n == n'
  {
    var tail, tail' := if body == "" then "" else ": " + body, if body' == "" then "" else ": " + body';
    assert SynthesisLine(body, n) == LabelOf(n) + tail;
    assert SynthesisLine(body', n') == LabelOf(n') + tail';
    RoundsLookDifferent(n, n', tail, tail');
    assert body != "" ==> tail[2..] == body;
    assert body' != "" ==> tail'[2..] == body';
  }

  lemma SynthesisLineReads()
    ensures SynthesisLine("Agreed.", 2) == "BEN (Synthesis Summary Round 2): Agreed."
    ensures SynthesisLine("", 10) == "BEN (Synthesis Summary Round 10)"
  {
  }
}

/**
 What the records of a streamed request tell: about its output, and about what the
 shared breaker hears.
 */
module GatewayRecords {
  import opened Wrappers
  import opened Breaker
  import opened Gateway
  import opened GatewayLaws

  // ----- what records tell ---------------------------------------------------------

  /** A disconnect is recorded behind the dispatch itself, an interruption behind output of that very attempt. */
  ghost predicate TellsOutput(log: seq<Step>, k: int) {
    0 <= k < |log| && log[k].Account? ==>
      && (log[k].outcome == ClientDisconnect ==> k > 0 && log[k-1] == Dispatch(log[k].a))
      && (log[k].outcome == StreamInterrupted ==>
            k > 0 && log[k-1].Yield? && log[k-1].text != "" && log[k-1].provider == log[k].a.provider)
  }

  ghost predicate Tells(log: seq<Step>) {
    forall k | 0 <= k < |log| :: TellsOutput(log, k)
  }

  lemma TellsConcat(a: seq<Step>, b: seq<Step>)
    requires Tells(a) && Tells(b)
    ensures Tells(a + b)
  {
    var log := a + b;
    forall k | 0 <= k < |log|
      ensures TellsOutput(log, k)
    {
      if k < |a| {
        assert TellsOutput(a, k);
      } else {
        assert TellsOutput(b, k - |a|);
      }
    }
  }

  lemma {:induction false} RelayEnds(chunks: seq<string>, a: Attempt)
    ensures var out := YieldAll(chunks, a);
            && (out != [] <==> StreamedAny(chunks))
            && forall k | 0 <= k < |out| :: out[k].Yield? && out[k].text != "" && out[k].provider == a.provider
  {
    if chunks != [] {
      var k := |chunks| - 1;
      RelayEnds(chunks[..k], a);
      StreamedAnyStep(chunks, k);
      assert chunks[..k+1] == chunks;
    }
  }

  lemma AttemptTells(chunks: seq<string>, a: Attempt, o: Outcome)
    requires o == ClientDisconnect ==> !StreamedAny(chunks)
    requires o == StreamInterrupted ==> StreamedAny(chunks)
    ensures Tells([Dispatch(a)] + YieldAll(chunks, a) + [Account(a, o)])
  {
    RelayEnds(chunks, a);
    var out := YieldAll(chunks, a);
    var log := [Dispatch(a)] + out + [Account(a, o)];
    forall k | 0 <= k < |log|
      ensures TellsOutput(log, k)
    {
      if 0 < k <= |out| {
        assert log[k] == out[k-1];
      } else if k > |out| && out != [] {
        assert log[k-1] == out[|out|-1];
      }
    }
  }

  /** Whether a cancelled attempt is recorded as a disconnect or as an interruption says what was streamed of it. */
  lemma {:induction false} RecordsTellOutput(explicit: bool, attempts: seq<Attempt>, worlds: string -> World,
                                             h: seq<Event>, last: Last)
    ensures Tells(Stream(explicit, attempts, worlds, h, last).log)
    decreases |attempts|
  {
    if attempts != [] {
      var a := attempts[0];
      var w := worlds(a.provider);
      var turn := StreamTurn(explicit, a, w, h, last);
      AttemptTells(w.chunks, a, if w.ending.Finished? then Success else Classify(w.ending.failure, StreamedAny(w.chunks)));
      if turn.Next? {
        RecordsTellOutput(explicit, attempts[1..], worlds, turn.history, turn.last);
        TellsConcat(turn.log, Stream(explicit, attempts[1..], worlds, turn.history, turn.last).log);
      }
    }
  }

  /** A record of an attempt that was tried says how it ended, and of one cut off whether it had said anything. */
  ghost predicate TellsEnding(record: (Attempt, Outcome), worlds: string -> World) {
    var (a, o) := record;
    var w := worlds(a.provider);
    var cut := w.ending == Raised(Cancelled) || w.ending == Raised(ConsumerClosed);
    o != Rejected ==>
      && (o == Success <==> w.ending == Finished)
      && (o == Timeout <==> w.ending == Raised(TimedOut))
      && (o == Error <==> w.ending == Raised(OtherError))
      && (o == StreamInterrupted <==> cut && exists k | 0 <= k < |w.chunks| :: w.chunks[k] != "")
      && (o == ClientDisconnect <==> cut && forall k | 0 <= k < |w.chunks| :: w.chunks[k] == "")
  }

  lemma RecordsTellEnding(explicit: bool, attempts: seq<Attempt>, worlds: string -> World, h: seq<Event>, last: Last,
                          record: (Attempt, Outcome))
    requires Distinct(attempts) && record in Recorded(Stream(explicit, attempts, worlds, h, last).log)
    ensures TellsEnding(record, worlds)
  {
    var records := Recorded(Stream(explicit, attempts, worlds, h, last).log);
    EachAttemptIsAccounted(explicit, attempts, worlds, h, last);
    RecordIsListed(records, record);
    var i := ListedAt(attempts, record.0.provider);
    DueTellsEnding(explicit, attempts[i], worlds, ReachedAt(explicit, attempts, worlds, h, i), record);
  }

  lemma DueTellsEnding(explicit: bool, a: Attempt, worlds: string -> World, met: Option<seq<Event>>, record: (Attempt, Outcome))
    requires record in RecordsDue(explicit, a, worlds(a.provider), met)
    ensures TellsEnding(record, worlds)
  {
  }

  predicate IsCut(o: Outcome) {
    o == ClientDisconnect || o == StreamInterrupted
  }

  /** A run is cut off exactly when one of its attempts is: that attempt is the last, and what cut it gets out. */
  ghost predicate CutByLast(worlds: string -> World, r: Run) {
    var c := Recorded(r.log);
    && (forall k | 0 <= k < |c| && IsCut(c[k].1) :: k == |c| - 1 && r.raised.Some?)
    && (r.raised.Some? ==>
          && c != [] && IsCut(c[|c|-1].1)
          && worlds(c[|c|-1].0.provider).ending == Raised(r.raised.value))
  }

  lemma TurnCut(explicit: bool, a: Attempt, worlds: string -> World, h: seq<Event>, last: Last)
    ensures match StreamTurn(explicit, a, worlds(a.provider), h, last)
            case Stop(run) => CutByLast(worlds, run)
            case Next(log, _, _) => forall k | 0 <= k < |Recorded(log)| :: !IsCut(Recorded(log)[k].1)
  {
    TurnRecords(explicit, a, worlds(a.provider), h, last);
  }

  lemma {:induction false} CancellationEndsRun(explicit: bool, attempts: seq<Attempt>, worlds: string -> World,
                                               h: seq<Event>, last: Last)
    ensures CutByLast(worlds, Stream(explicit, attempts, worlds, h, last))
    decreases |attempts|
  {
    if attempts == [] {
      FinalLog(last);
    } else {
      var a, rest := attempts[0], attempts[1..];
      var turn := StreamTurn(explicit, a, worlds(a.provider), h, last);
      TurnCut(explicit, a, worlds, h, last);
      if turn.Next? {
        CancellationEndsRun(explicit, rest, worlds, turn.history, turn.last);
        CutBehind(worlds, turn.log, Stream(explicit, rest, worlds, turn.history, turn.last));
      }
    }
  }

  lemma CutBehind(worlds: string -> World, log: seq<Step>, more: Run)
    requires CutByLast(worlds, more) && forall k | 0 <= k < |Recorded(log)| :: !IsCut(Recorded(log)[k].1)
    ensures CutByLast(worlds, more.(log := log + more.log))
  {
    DispatchedConcat(log, more.log);
  }

  /** A verdict the breaker hears: of which provider, whether it is good, and when. */
  datatype Verdict = Verdict(name: string, good: bool, at: real)

  function Verdicts(h: seq<Event>): seq<Verdict> {
    if h == [] then []
    else
      var r, ev := Verdicts(h[..|h|-1]), h[|h|-1];
      if ev.kind == Checked then r else r + [Verdict(ev.name, ev.kind == Succeeded, ev.at)]
  }

  lemma {:induction false} VerdictsConcat(a: seq<Event>, b: seq<Event>)
    ensures Verdicts(a + b) == Verdicts(a) + Verdicts(b)
  {
    if b == [] {
      assert a + b == a;
    } else {
      VerdictsConcat(a, b[..|b|-1]);
      assert (a + b)[..|a+b|-1] == a + b[..|b|-1];
    }
  }

  /** What the breaker must hear by one record: the verdicts of other requests while the attempt lasted, and
      its own when it ended, good exactly for a success; of a rejection only those of others. Written `early`, a
      good verdict stands before those that others give while the record is written. */
  function Judgement(record: (Attempt, Outcome), worlds: string -> World, early: bool): seq<Verdict> {
    var (a, o) := record;
    var w := worlds(a.provider);
    if o == Rejected then Verdicts(w.settling)
    else if o == Success && early then Verdicts(w.during) + ([Verdict(a.provider, true, w.endedAt)] + Verdicts(w.settling))
    else Verdicts(w.during + w.settling) + [Verdict(a.provider, o == Success, w.endedAt)]
  }

  function Judged(records: seq<(Attempt, Outcome)>, worlds: string -> World, early: bool): seq<Verdict> {
    if records == [] then []
    else Judged(records[..|records|-1], worlds, early) + Judgement(records[|records|-1], worlds, early)
  }

  lemma {:induction false} JudgedConcat(a: seq<(Attempt, Outcome)>, b: seq<(Attempt, Outcome)>, worlds: string -> World,
                                        early: bool)
    ensures Judged(a + b, worlds, early) == Judged(a, worlds, early) + Judged(b, worlds, early)
  {
    if b == [] {
      assert a + b == a;
      Regroup(Judged(a, worlds, early), [], []);
    } else {
      var init, last := b[..|b|-1], b[|b|-1];
      JudgedConcat(a, init, worlds, early);
      assert (a + b)[..|a+b|-1] == a + init && (a + b)[|a+b|-1] == last;
      Regroup(Judged(a, worlds, early), Judged(init, worlds, early), Judgement(last, worlds, early));
    }
  }

  lemma JudgedOne(record: (Attempt, Outcome), worlds: string -> World, early: bool)
    ensures Judged([record], worlds, early) == Judgement(record, worlds, early)
  {
    assert [record][..0] == [];
  }

  ghost predicate Hears(h: seq<Event>, log: seq<Step>, worlds: string -> World, h': seq<Event>, early: bool) {
    Verdicts(h') == Verdicts(h) + Judged(Recorded(log), worlds, early)
  }

  lemma SettleHeard(h: seq<Event>, a: Attempt, w: World)
    ensures Verdicts(Settle(h, a, w)) == Verdicts(h) + (Verdicts(w.during + w.settling) + [Verdict(a.provider, w.ending.Finished?, w.endedAt)])
  {
    var check := [Check(a, w)];
    var verdict := [Event(if w.ending.Finished? then Succeeded else Failed, a.provider, w.endedAt)];
    assert check[..0] == [] && verdict[..0] == [];
    assert Settle(h, a, w) == h + check + (w.during + w.settling) + verdict;
    VerdictsConcat(h, check);
    VerdictsConcat(h + check, w.during + w.settling);
    VerdictsConcat(h + check + (w.during + w.settling), verdict);
  }

  lemma CheckHeard(h: seq<Event>, a: Attempt, w: World)
    ensures Verdicts(h + [Check(a, w)]) == Verdicts(h)
  {
    assert (h + [Check(a, w)])[..|h|] == h;
  }

  lemma SkipHeard(h: seq<Event>, worlds: string -> World, h': seq<Event>, early: bool)
    requires Verdicts(h') == Verdicts(h)
    ensures Hears(h, [], worlds, h', early)
  {
  }

  lemma RejectHeard(h: seq<Event>, worlds: string -> World, h': seq<Event>, a: Attempt, text: string)
    requires Verdicts(h') == Verdicts(h)
    ensures Hears(h, [Account(a, Rejected), Yield(text, "", a.provider)], worlds, h' + worlds(a.provider).settling, false)
  {
    RejectLog(a, text);
    JudgedOne((a, Rejected), worlds, false);
    VerdictsConcat(h', worlds(a.provider).settling);
  }

  lemma AttemptHeard(h: seq<Event>, a: Attempt, worlds: string -> World, o: Outcome)
    requires o != Rejected && (o == Success <==> worlds(a.provider).ending.Finished?)
    ensures var w := worlds(a.provider);
            Hears(h, [Dispatch(a)] + YieldAll(w.chunks, a) + [Account(a, o)], worlds, Settle(h, a, w), false)
  {
    AttemptLog(worlds(a.provider).chunks, a, o);
    JudgedOne((a, o), worlds, false);
    SettleHeard(h, a, worlds(a.provider));
  }

  lemma HearsThen(h: seq<Event>, log: seq<Step>, worlds: string -> World, h': seq<Event>, more: seq<Step>, h'': seq<Event>,
                  early: bool)
    requires Hears(h, log, worlds, h', early) && Hears(h', more, worlds, h'', early)
    ensures Hears(h, log + more, worlds, h'', early)
  {
    DispatchedConcat(log, more);
    JudgedConcat(Recorded(log), Recorded(more), worlds, early);
    Regroup(Verdicts(h), Judged(Recorded(log), worlds, early), Judged(Recorded(more), worlds, early));
  }

  lemma TurnHeard(explicit: bool, a: Attempt, worlds: string -> World, h: seq<Event>, last: Last)
    ensures match StreamTurn(explicit, a, worlds(a.provider), h, last)
            case Stop(run) => Hears(h, run.log, worlds, run.history, false)
            case Next(log, h', _) => Hears(h, log, worlds, h', false)
  {
    var w := worlds(a.provider);
    if !w.hasKey {
      SkipHeard(h, worlds, h, false);
      RejectHeard(h, worlds, h, a, w.errorText);
    } else if Refuses(Replay(h, a.provider), w.checkedAt) || !w.knownModel {
      CheckHeard(h, a, w);
      SkipHeard(h, worlds, h + [Check(a, w)], false);
      RejectHeard(h, worlds, h + [Check(a, w)], a, w.errorText);
    } else {
      AttemptHeard(h, a, worlds, if w.ending.Finished? then Success else Classify(w.ending.failure, StreamedAny(w.chunks)));
    }
  }

  /** The breaker hears one verdict for each record of a dispatched attempt, in the same order, good exactly
      when the record is a success; of a rejection or a skipped provider it hears none. Between them stand
      the verdicts of the other requests that act while an attempt lasts or its record is written. */
  lemma {:induction false} BreakerHearsRecords(explicit: bool, attempts: seq<Attempt>, worlds: string -> World,
                                               h: seq<Event>, last: Last)
    ensures var r := Stream(explicit, attempts, worlds, h, last); Hears(h, r.log, worlds, r.history, false)
    decreases |attempts|
  {
    if attempts == [] {
      FinalLog(last);
      SkipHeard(h, worlds, h, false);
    } else {
      var a := attempts[0];
      var turn := StreamTurn(explicit, a, worlds(a.provider), h, last);
      TurnHeard(explicit, a, worlds, h, last);
      if turn.Next? {
        var more := Stream(explicit, attempts[1..], worlds, turn.history, turn.last);
        BreakerHearsRecords(explicit, attempts[1..], worlds, turn.history, turn.last);
        HearsThen(h, turn.log, worlds, turn.history, more.log, more.history, false);
      }
    }
  }

  // ----- the collecting form -------------------------------------------------------------

  lemma SentRejectHeard(h: seq<Event>, worlds: string -> World, h': seq<Event>, a: Attempt)
    requires Verdicts(h') == Verdicts(h)
    ensures Hears(h, [Account(a, Rejected)], worlds, h' + worlds(a.provider).settling, true)
  {
    assert [Account(a, Rejected)][..0] == [];
    JudgedOne((a, Rejected), worlds, true);
    VerdictsConcat(h', worlds(a.provider).settling);
  }

  lemma SentLog(a: Attempt, o: Outcome)
    ensures Recorded([Dispatch(a), Account(a, o)]) == [(a, o)]
  {
    AttemptLog([], a, o);
    assert [Dispatch(a)] + YieldAll([], a) + [Account(a, o)] == [Dispatch(a), Account(a, o)];
  }

  lemma SuccessHeardEarly(h: seq<Event>, a: Attempt, worlds: string -> World)
    ensures var w := worlds(a.provider);
            Hears(h, [Dispatch(a), Account(a, Success)], worlds,
                  h + [Check(a, w)] + w.during + [Event(Succeeded, a.provider, w.endedAt)] + w.settling, true)
  {
    SentLog(a, Success);
    JudgedOne((a, Success), worlds, true);
    EarlyVerdicts(h, a, worlds(a.provider));
  }

  lemma EarlyVerdicts(h: seq<Event>, a: Attempt, w: World)
    ensures Verdicts(h + [Check(a, w)] + w.during + [Event(Succeeded, a.provider, w.endedAt)] + w.settling) ==
            Verdicts(h) + (Verdicts(w.during) + ([Verdict(a.provider, true, w.endedAt)] + Verdicts(w.settling)))
  {
    var verdict := [Event(Succeeded, a.provider, w.endedAt)];
    var met := h + [Check(a, w)];
    assert verdict[..0] == [];
    CheckHeard(h, a, w);
    VerdictsConcat(met, w.during);
    VerdictsConcat(met + w.during, verdict);
    VerdictsConcat(met + w.during + verdict, w.settling);
    FourInARow(Verdicts(h), Verdicts(w.during), Verdicts(verdict), Verdicts(w.settling));
  }

  lemma FourInARow<T>(x: seq<T>, y: seq<T>, z: seq<T>, t: seq<T>)
    ensures x + y + z + t == x + (y + (z + t))
  {
  }

  lemma FailureHeard(h: seq<Event>, a: Attempt, worlds: string -> World, o: Outcome)
    requires worlds(a.provider).ending.Raised? && o != Rejected && o != Success
    ensures Hears(h, [Dispatch(a), Account(a, o)], worlds, Settle(h, a, worlds(a.provider)), true)
  {
    SentLog(a, o);
    JudgedOne((a, o), worlds, true);
    SettleHeard(h, a, worlds(a.provider));
  }

  lemma SendTurnHeard(explicit: bool, a: Attempt, worlds: string -> World, h: seq<Event>, last: Last)
    ensures match SendTurn(explicit, a, worlds(a.provider), h, last)
            case Stop(run) => Hears(h, run.log, worlds, run.history, true)
            case Next(log, h', _) => Hears(h, log, worlds, h', true)
  {
    var w := worlds(a.provider);
    if !w.hasKey {
      SkipHeard(h, worlds, h, true);
      SentRejectHeard(h, worlds, h, a);
    } else if Refuses(Replay(h, a.provider), w.checkedAt) || !w.knownModel {
      CheckHeard(h, a, w);
      SkipHeard(h, worlds, h + [Check(a, w)], true);
      SentRejectHeard(h, worlds, h + [Check(a, w)], a);
    } else if w.ending.Finished? {
      SuccessHeardEarly(h, a, worlds);
    } else {
      FailureHeard(h, a, worlds, Classify(w.ending.failure, false));
    }
  }

  /** In the collecting form the breaker hears the same, but of a success before it is recorded. */
  lemma {:induction false} BreakerHearsSent(explicit: bool, attempts: seq<Attempt>, worlds: string -> World,
                                            h: seq<Event>, last: Last)
    ensures var s := Send(explicit, attempts, worlds, h, last); Hears(h, s.log, worlds, s.history, true)
    decreases |attempts|
  {
    if attempts == [] {
      SkipHeard(h, worlds, h, true);
    } else {
      var a := attempts[0];
      var turn := SendTurn(explicit, a, worlds(a.provider), h, last);
      SendTurnHeard(explicit, a, worlds, h, last);
      if turn.Next? {
        var more := Send(explicit, attempts[1..], worlds, turn.history, turn.last);
        BreakerHearsSent(explicit, attempts[1..], worlds, turn.history, turn.last);
        HearsThen(h, turn.log, worlds, turn.history, more.log, more.history, true);
      }
    }
  }
}

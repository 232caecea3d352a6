/**
 The streaming and the collecting form of the gateway side by side.
 */
module GatewayForms {
  import opened Wrappers
  import opened Breaker
  import opened Gateway
  import opened GatewayLaws

  // ----- the two forms agree ---------------------------------------------------------

  /** What one provider said in the stream. */
  function Said(log: seq<Step>, provider: string): string {
    if log == [] then ""
    else
      var r, s := Said(log[..|log|-1], provider), log[|log|-1];
      if s.Yield? && s.model != "" && s.provider == provider then r + s.text else r
  }

  lemma {:induction false} SaidConcat(a: seq<Step>, b: seq<Step>, p: string)
    ensures Said(a + b, p) == Said(a, p) + Said(b, p)
  {
    if b == [] {
      assert a + b == a;
      Regroup(Said(a, p), "", "");
    } else {
      var init, s := b[..|b|-1], b[|b|-1];
      SaidConcat(a, init, p);
      assert (a + b)[..|a+b|-1] == a + init && a + b == a + init + [s];
      if s.Yield? && s.model != "" && s.provider == p {
        assert Said(b, p) == Said(init, p) + s.text;
        Regroup(Said(a, p), Said(init, p), s.text);
      } else {
        assert Said(b, p) == Said(init, p);
      }
    }
  }

  lemma {:induction false} SaidByRelay(chunks: seq<string>, a: Attempt, p: string)
    requires a.model != ""
    ensures Said(YieldAll(chunks, a), p) == if p == a.provider then Concat(chunks) else ""
  {
    if chunks != [] {
      var k := |chunks| - 1;
      SaidByRelay(chunks[..k], a, p);
      var init := YieldAll(chunks[..k], a);
      var tail := if chunks[k] != "" then [Yield(chunks[k], a.model, a.provider)] else [];
      assert YieldAll(chunks, a) == init + tail;
      SaidConcat(init, tail, p);
      assert tail != [] ==> tail[..0] == [];
    }
  }

  lemma SaidInAttempt(chunks: seq<string>, a: Attempt, o: Outcome, p: string)
    requires a.model != ""
    ensures Said([Dispatch(a)] + YieldAll(chunks, a) + [Account(a, o)], p) == if p == a.provider then Concat(chunks) else ""
  {
    SaidConcat([Dispatch(a)], YieldAll(chunks, a), p);
    SaidConcat([Dispatch(a)] + YieldAll(chunks, a), [Account(a, o)], p);
    SaidByRelay(chunks, a, p);
    assert [Dispatch(a)][..0] == [] && [Account(a, o)][..0] == [];
  }

  /** No cancellation, and nothing else touches the breaker while the record of a success is written, which
      one form does before and the other behind the verdict. */
  predicate Calm(w: World) {
    if w.ending.Finished? then w.settling == [] else !StopsStream(w.ending.failure)
  }

  ghost predicate Agree(r: Run, s: SendRun) {
    && r.raised.None?
    && r.history == s.history
    && Recorded(r.log) == Recorded(s.log) && Dispatched(r.log) == Dispatched(s.log)
    && (r.served.Some? ==> s.reply == Reply(Said(r.log, r.served.value.provider), r.served.value.model, r.served.value.provider))
    && (r.served.None? ==>
          && r.log != [] && s.reply.model == ""
          && r.log[|r.log|-1] == Yield(s.reply.content, "", s.reply.provider))
  }

  /** What the two loops share after a turn that goes on. */
  ghost predicate TurnsAgree(a: Attempt, t: Turn<Run>, u: Turn<SendRun>) {
    match (t, u)
    case (Stop(r), Stop(s)) => Agree(r, s) && (r.served.Some? ==> r.served.value == a)
    case (Next(log, h, last), Next(log', h', last')) =>
      && h == h' && last == last'
      && Recorded(log) == Recorded(log') && Dispatched(log) == Dispatched(log')
      && forall p | p != a.provider :: Said(log, p) == ""
    case (_, _) => false
  }

  lemma OneTurnAgrees(explicit: bool, a: Attempt, w: World, h: seq<Event>, last: Last)
    requires a.model != "" && Calm(w)
    ensures TurnsAgree(a, StreamTurn(explicit, a, w, h, last), SendTurn(explicit, a, w, h, last))
  {
    RejectionAgrees(a, w.errorText);
    if w.ending.Finished? {
      SuccessAgrees(a, w, h);
    } else {
      FailureAgrees(a, w);
    }
  }

  lemma RejectionAgrees(a: Attempt, text: string)
    ensures forall h :: Agree(Run([Account(a, Rejected), Yield(text, "", a.provider)], h, None, None),
                              SendRun([Account(a, Rejected)], h, Reply(text, "", a.provider)))
  {
    RejectLog(a, text);
    assert [Account(a, Rejected)][..0] == [];
  }

  lemma SuccessAgrees(a: Attempt, w: World, h: seq<Event>)
    requires a.model != "" && Calm(w) && w.ending.Finished?
    ensures Agree(Run([Dispatch(a)] + YieldAll(w.chunks, a) + [Account(a, Success)], Settle(h, a, w), None, Some(a)),
                  SendRun([Dispatch(a), Account(a, Success)],
                          h + [Check(a, w)] + w.during + [Event(Succeeded, a.provider, w.endedAt)] + w.settling,
                          Reply(Concat(w.chunks), a.model, a.provider)))
  {
    AttemptLog(w.chunks, a, Success);
    ShortLog(a, Success);
    SaidInAttempt(w.chunks, a, Success, a.provider);
  }

  lemma ShortLog(a: Attempt, o: Outcome)
    ensures Dispatched([Dispatch(a), Account(a, o)]) == [a] && Recorded([Dispatch(a), Account(a, o)]) == [(a, o)]
  {
    AttemptLog([], a, o);
    assert [Dispatch(a)] + YieldAll([], a) + [Account(a, o)] == [Dispatch(a), Account(a, o)];
  }

  lemma FailureAgrees(a: Attempt, w: World)
    requires a.model != "" && Calm(w) && w.ending.Raised?
    ensures var o := Classify(w.ending.failure, StreamedAny(w.chunks));
            var log, log' := [Dispatch(a)] + YieldAll(w.chunks, a) + [Account(a, o)],
                             [Dispatch(a), Account(a, Classify(w.ending.failure, false))];
            && Recorded(log) == Recorded(log') && Dispatched(log) == Dispatched(log')
            && forall p | p != a.provider :: Said(log, p) == ""
  {
    var o := Classify(w.ending.failure, false);
    AttemptLog(w.chunks, a, o);
    ShortLog(a, o);
    forall p | p != a.provider
      ensures Said([Dispatch(a)] + YieldAll(w.chunks, a) + [Account(a, o)], p) == ""
    {
      SaidInAttempt(w.chunks, a, o, p);
    }
  }

  lemma AgreeExtends(a: Attempt, log: seq<Step>, log': seq<Step>, more: Run, moreSent: SendRun)
    requires Agree(more, moreSent)
    requires Recorded(log) == Recorded(log') && Dispatched(log) == Dispatched(log')
    requires forall p | p != a.provider :: Said(log, p) == ""
    requires more.served.Some? ==> more.served.value.provider != a.provider
    ensures Agree(more.(log := log + more.log), moreSent.(log := log' + moreSent.log))
  {
    DispatchedConcat(log, more.log);
    DispatchedConcat(log', moreSent.log);
    if more.served.Some? {
      SaidConcat(log, more.log, more.served.value.provider);
    }
  }

  /** Same keys, breaker, clock and providers: both forms end on the same provider and model, with the
      same text, the same breaker and the same records. */
  lemma {:induction false} FormsAgree(explicit: bool, attempts: seq<Attempt>, worlds: string -> World,
                                      h: seq<Event>, last: Last)
    requires Distinct(attempts) && Named(attempts)
    requires forall a | a in attempts :: Calm(worlds(a.provider))
    ensures Agree(Stream(explicit, attempts, worlds, h, last), Send(explicit, attempts, worlds, h, last))
    ensures var r := Stream(explicit, attempts, worlds, h, last);
            r.served.Some? ==> r.served.value in attempts
    decreases |attempts|
  {
    if attempts == [] {
      FinalLog(last);
    } else {
      var a, rest := attempts[0], attempts[1..];
      var t := StreamTurn(explicit, a, worlds(a.provider), h, last);
      var u := SendTurn(explicit, a, worlds(a.provider), h, last);
      assert a in attempts;
      OneTurnAgrees(explicit, a, worlds(a.provider), h, last);
      if t.Next? {
        FormsAgree(explicit, rest, worlds, t.history, t.last);
        AgreeExtends(a, t.log, u.log, Stream(explicit, rest, worlds, t.history, t.last),
                     Send(explicit, rest, worlds, t.history, t.last));
      }
    }
  }

  /** What both forms record before the cancelled attempt, and what becomes of them behind it. */
  ghost predicate Parted(explicit: bool, attempts: seq<Attempt>, worlds: string -> World, i: nat, met: seq<Event>,
                         before: seq<(Attempt, Outcome)>, r: Run, s: SendRun)
    requires i < |attempts|
  {
    var a := attempts[i];
    var w := worlds(a.provider);
    var more := Send(explicit, attempts[i+1..], worlds, Settle(met, a, w), Last(a.provider, w.errorText));
    && r.raised.Some? && StopsStream(r.raised.value) && w.ending == Raised(r.raised.value)
    && r.history == Settle(met, a, w)
    && Recorded(r.log) == before + [(a, if StreamedAny(w.chunks) then StreamInterrupted else ClientDisconnect)]
    && Recorded(s.log) == before + [(a, ClientDisconnect)] + Recorded(more.log)
    && Dispatched(s.log) == Dispatched(r.log) + Dispatched(more.log)
    && s.reply == more.reply && s.history == more.history
  }

  lemma CancelledTurn(explicit: bool, a: Attempt, w: World, h: seq<Event>, last: Last)
    requires FateOf(explicit, a, w, h) == Tried && w.ending.Raised? && StopsStream(w.ending.failure)
    ensures var t, u := StreamTurn(explicit, a, w, h, last), SendTurn(explicit, a, w, h, last);
            && t.Stop? && t.run.raised == Some(w.ending.failure) && t.run.history == Settle(h, a, w)
            && Recorded(t.run.log) == [(a, if StreamedAny(w.chunks) then StreamInterrupted else ClientDisconnect)]
            && Dispatched(t.run.log) == [a]
            && u == Next([Dispatch(a), Account(a, ClientDisconnect)], Settle(h, a, w), Last(a.provider, w.errorText))
            && Recorded(u.log) == [(a, ClientDisconnect)] && Dispatched(u.log) == [a]
  {
    AttemptLog(w.chunks, a, Classify(w.ending.failure, StreamedAny(w.chunks)));
    ShortLog(a, ClientDisconnect);
  }

  /** Turns that both loops leave behind, as they do any that is not cancelled. */
  lemma PassedTurn(explicit: bool, a: Attempt, w: World, h: seq<Event>, last: Last)
    requires GoesOn(explicit, a, w, h)
    ensures var t, u := StreamTurn(explicit, a, w, h, last), SendTurn(explicit, a, w, h, last);
            && t.Next? && u.Next? && t.history == u.history == Behind(a, w, h) && t.last == u.last
            && Recorded(t.log) == Recorded(u.log) && Dispatched(t.log) == Dispatched(u.log)
  {
    if FateOf(explicit, a, w, h) == Tried {
      AttemptLog(w.chunks, a, Classify(w.ending.failure, StreamedAny(w.chunks)));
      ShortLog(a, Classify(w.ending.failure, false));
    }
  }

  lemma Unrolls(explicit: bool, attempts: seq<Attempt>, worlds: string -> World, h: seq<Event>, last: Last)
    requires attempts != [] && GoesOn(explicit, attempts[0], worlds(attempts[0].provider), h)
    ensures var a, rest := attempts[0], attempts[1..];
            var t, u := StreamTurn(explicit, a, worlds(a.provider), h, last), SendTurn(explicit, a, worlds(a.provider), h, last);
            && t.Next? && u.Next?
            && (var r := Stream(explicit, rest, worlds, t.history, t.last);
                Stream(explicit, attempts, worlds, h, last) == r.(log := t.log + r.log))
            && var s := Send(explicit, rest, worlds, u.history, u.last);
               Send(explicit, attempts, worlds, h, last) == s.(log := u.log + s.log)
  {
    PassedTurn(explicit, attempts[0], worlds(attempts[0].provider), h, last);
  }

  lemma PartedExtends(explicit: bool, attempts: seq<Attempt>, worlds: string -> World, i: nat, met: seq<Event>,
                      before: seq<(Attempt, Outcome)>, r: Run, s: SendRun, log: seq<Step>, log': seq<Step>)
    requires i + 1 < |attempts| && Parted(explicit, attempts[1..], worlds, i, met, before, r, s)
    requires Recorded(log) == Recorded(log') && Dispatched(log) == Dispatched(log')
    ensures Parted(explicit, attempts, worlds, i + 1, met, Recorded(log) + before, r.(log := log + r.log), s.(log := log' + s.log))
  {
    var a := attempts[i+1];
    var w := worlds(a.provider);
    var more := Send(explicit, attempts[i+2..], worlds, Settle(met, a, w), Last(a.provider, w.errorText));
    assert attempts[1..][i+1..] == attempts[i+2..] && attempts[1..][i] == a;
    DispatchedConcat(log, r.log);
    DispatchedConcat(log', s.log);
    Regroup(Recorded(log), before, [(a, if StreamedAny(w.chunks) then StreamInterrupted else ClientDisconnect)]);
    Regroup(Recorded(log), before, [(a, ClientDisconnect)]);
    Regroup(Recorded(log), before + [(a, ClientDisconnect)], Recorded(more.log));
    Regroup(Dispatched(log), Dispatched(r.log), Dispatched(more.log));
  }

  lemma PartedLater(explicit: bool, attempts: seq<Attempt>, worlds: string -> World, h: seq<Event>, last: Last,
                    i: nat, met: seq<Event>, before: seq<(Attempt, Outcome)>)
    requires i + 1 < |attempts| && GoesOn(explicit, attempts[0], worlds(attempts[0].provider), h)
    requires var t := StreamTurn(explicit, attempts[0], worlds(attempts[0].provider), h, last);
             && t.Next?
             && Parted(explicit, attempts[1..], worlds, i, met, before,
                       Stream(explicit, attempts[1..], worlds, t.history, t.last), Send(explicit, attempts[1..], worlds, t.history, t.last))
    requires var a := attempts[0];
             ReachedAt(explicit, attempts[1..], worlds, Behind(a, worlds(a.provider), h), i) == Some(met)
    ensures ReachedAt(explicit, attempts, worlds, h, i + 1) == Some(met)
    ensures var t := StreamTurn(explicit, attempts[0], worlds(attempts[0].provider), h, last);
            Parted(explicit, attempts, worlds, i + 1, met, Recorded(t.log) + before,
                   Stream(explicit, attempts, worlds, h, last), Send(explicit, attempts, worlds, h, last))
  {
    var a, rest := attempts[0], attempts[1..];
    var w := worlds(a.provider);
    var t, u := StreamTurn(explicit, a, w, h, last), SendTurn(explicit, a, w, h, last);
    PassedTurn(explicit, a, w, h, last);
    Unrolls(explicit, attempts, worlds, h, last);
    PartedExtends(explicit, attempts, worlds, i, met, before, Stream(explicit, rest, worlds, t.history, t.last),
                  Send(explicit, rest, worlds, t.history, t.last), t.log, u.log);
  }

  lemma CancelledFirst(explicit: bool, attempts: seq<Attempt>, worlds: string -> World, h: seq<Event>, last: Last)
    requires attempts != [] && Stream(explicit, attempts, worlds, h, last).raised.Some?
    requires !GoesOn(explicit, attempts[0], worlds(attempts[0].provider), h)
    ensures Parted(explicit, attempts, worlds, 0, h, [], Stream(explicit, attempts, worlds, h, last),
                   Send(explicit, attempts, worlds, h, last))
  {
    var a := attempts[0];
    TurnRecords(explicit, a, worlds(a.provider), h, last);
    CancelledTurn(explicit, a, worlds(a.provider), h, last);
    var u := SendTurn(explicit, a, worlds(a.provider), h, last);
    var more := Send(explicit, attempts[1..], worlds, u.history, u.last);
    DispatchedConcat(u.log, more.log);
    assert [] + Recorded(u.log) == Recorded(u.log);
  }

  /** Whenever a cancellation ends the stream, the collecting form has the same records up to the cancelled
      attempt, and then goes on with the attempts behind it. */
  lemma {:induction false} CancellationParts(explicit: bool, attempts: seq<Attempt>, worlds: string -> World,
                                             h: seq<Event>, last: Last)
    returns (i: nat, met: seq<Event>, before: seq<(Attempt, Outcome)>)
    requires Stream(explicit, attempts, worlds, h, last).raised.Some?
    ensures i < |attempts| && ReachedAt(explicit, attempts, worlds, h, i) == Some(met)
    ensures Parted(explicit, attempts, worlds, i, met, before,
                   Stream(explicit, attempts, worlds, h, last), Send(explicit, attempts, worlds, h, last))
    decreases |attempts|
  {
    var a, rest := attempts[0], attempts[1..];
    var w := worlds(a.provider);
    if GoesOn(explicit, a, w, h) {
      var t := StreamTurn(explicit, a, w, h, last);
      Unrolls(explicit, attempts, worlds, h, last);
      var j, rests;
      j, met, rests := CancellationParts(explicit, rest, worlds, t.history, t.last);
      PartedLater(explicit, attempts, worlds, h, last, j, met, rests);
      i, before := j + 1, Recorded(t.log) + rests;
    } else {
      i, met, before := 0, h, [];
      CancelledFirst(explicit, attempts, worlds, h, last);
    }
  }
}

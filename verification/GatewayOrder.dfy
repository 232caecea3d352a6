/**
 In which order a streamed request goes through its attempts, and what it takes to
 get from one to the next.
 */
module GatewayOrder {
  import opened Wrappers
  import opened Breaker
  import opened Gateway
  import opened GatewayLaws

  /** The breaker held this attempt off when it was checked. */
  ghost predicate HeldOff(history: seq<Event>, a: Attempt, w: World, k: nat) {
    k < |history| && history[k] == Check(a, w) && Refuses(Replay(history[..k], a.provider), w.checkedAt)
  }

  /** What lets a request go on behind an attempt: it has no key and was not asked for, the breaker held it off, or it
      was tried and failed, and not by a cancellation. */
  ghost predicate Passed(explicit: bool, a: Attempt, w: World, r: Run) {
    || (!w.hasKey && !explicit)
    || (w.hasKey && exists k: nat :: HeldOff(r.history, a, w, k))
    || (a in Dispatched(r.log) && (w.ending == Raised(TimedOut) || w.ending == Raised(OtherError)))
  }

  /** The request got as far as this attempt and tried it or turned it away. */
  ghost predicate Met(a: Attempt, r: Run) {
    a in Dispatched(r.log) || (a, Rejected) in Recorded(r.log)
  }

  ghost predicate Exhausted(r: Run) {
    r.raised.None? && r.served.None? && forall record | record in Recorded(r.log) :: record.1 != Rejected
  }

  /** Whatever was met stands behind attempts passed, and a run that nothing ended has passed all of them. */
  ghost predicate InOrder(explicit: bool, attempts: seq<Attempt>, worlds: string -> World, r: Run) {
    && (forall i, j | 0 <= i < j < |attempts| && Met(attempts[j], r) ::
          Passed(explicit, attempts[i], worlds(attempts[i].provider), r))
    && (Exhausted(r) ==> forall i | 0 <= i < |attempts| :: Passed(explicit, attempts[i], worlds(attempts[i].provider), r))
  }

  /** What a single turn leaves behind: it met its own attempt at most, and goes on only once that is passed. */
  lemma TurnPasses(explicit: bool, a: Attempt, worlds: string -> World, h: seq<Event>, last: Last)
    ensures match StreamTurn(explicit, a, worlds(a.provider), h, last)
            case Stop(run) => !Exhausted(run) && forall b | Met(b, run) :: b == a
            case Next(log, h', _) =>
              && (forall b | Met(b, Run(log, h', None, None)) :: b == a)
              && Passed(explicit, a, worlds(a.provider), Run(log, h', None, None))
  {
    var w := worlds(a.provider);
    match FateOf(explicit, a, w, h) {
      case Skipped =>
        if w.hasKey {
          assert (h + [Check(a, w)])[..|h|] == h;
          assert HeldOff(h + [Check(a, w)], a, w, |h|);
        }
      case Turned =>
        RejectionMeets(a, w.errorText, StreamTurn(explicit, a, w, h, last).run.history);
      case Tried =>
        AttemptMeets(a, w.chunks, if w.ending.Finished? then Success else Classify(w.ending.failure, StreamedAny(w.chunks)),
                     Settle(h, a, w));
    }
  }

  lemma RejectionMeets(a: Attempt, text: string, h: seq<Event>)
    ensures var r := Run([Account(a, Rejected), Yield(text, "", a.provider)], h, None, None);
            !Exhausted(r) && forall b | Met(b, r) :: b == a
  {
    RejectLog(a, text);
    assert (a, Rejected) in [(a, Rejected)];
  }

  lemma AttemptMeets(a: Attempt, chunks: seq<string>, o: Outcome, h: seq<Event>)
    requires o != Rejected
    ensures var log := [Dispatch(a)] + YieldAll(chunks, a) + [Account(a, o)];
            a in Dispatched(log) && forall raised, served, b | Met(b, Run(log, h, raised, served)) :: b == a
  {
    AttemptLog(chunks, a, o);
  }

  lemma PassedStill(explicit: bool, a: Attempt, w: World, log: seq<Step>, h: seq<Event>, more: Run)
    requires h <= more.history
    ensures Passed(explicit, a, w, Run(log, h, None, None)) ==> Passed(explicit, a, w, more.(log := log + more.log))
    ensures Passed(explicit, a, w, more) ==> Passed(explicit, a, w, more.(log := log + more.log))
  {
    DispatchedConcat(log, more.log);
    if k: nat :| HeldOff(h, a, w, k) {
      assert more.history[..|h|] == h;
      assert more.history[..k] == h[..k];
      assert HeldOff(more.history, a, w, k);
    }
  }

  lemma OrderGoesOn(explicit: bool, attempts: seq<Attempt>, worlds: string -> World, log: seq<Step>, h: seq<Event>, more: Run)
    requires attempts != [] && Distinct(attempts) && h <= more.history
    requires forall b | Met(b, Run(log, h, None, None)) :: b == attempts[0]
    requires Passed(explicit, attempts[0], worlds(attempts[0].provider), Run(log, h, None, None))
    requires InOrder(explicit, attempts[1..], worlds, more)
    ensures InOrder(explicit, attempts, worlds, more.(log := log + more.log))
  {
    var rest, r := attempts[1..], more.(log := log + more.log);
    DispatchedConcat(log, more.log);
    PassedStill(explicit, attempts[0], worlds(attempts[0].provider), log, h, more);
    forall j | 1 <= j < |attempts| && Met(attempts[j], r)
      ensures Met(rest[j-1], more)
    {
      assert attempts[j] == rest[j-1] && rest[j-1] in rest;
      assert !Met(attempts[j], Run(log, h, None, None));
    }
    forall i | 1 <= i < |attempts|
      ensures Passed(explicit, attempts[i], worlds(attempts[i].provider), more) ==>
              Passed(explicit, attempts[i], worlds(attempts[i].provider), r)
    {
      PassedStill(explicit, attempts[i], worlds(attempts[i].provider), log, h, more);
    }
    assert Exhausted(r) ==> Exhausted(more);
    forall i, j | 0 <= i < j < |attempts| && Met(attempts[j], r)
      ensures Passed(explicit, attempts[i], worlds(attempts[i].provider), r)
    {
      if i > 0 {
        assert rest[i-1] == attempts[i];
      }
    }
    forall i | 0 <= i < |attempts| && Exhausted(r)
      ensures Passed(explicit, attempts[i], worlds(attempts[i].provider), r)
    {
      if i > 0 {
        assert rest[i-1] == attempts[i];
      }
    }
  }

  /** An attempt is tried or turned away only once all attempts before it are passed, so an unknown model ends the
      request, and so does a success; and a request that runs out of attempts has passed every one. */
  lemma {:induction false} FailoverIsInOrder(explicit: bool, attempts: seq<Attempt>, worlds: string -> World,
                                             h: seq<Event>, last: Last)
    requires Distinct(attempts)
    ensures InOrder(explicit, attempts, worlds, Stream(explicit, attempts, worlds, h, last))
    decreases |attempts|
  {
    if attempts != [] {
      var a, rest := attempts[0], attempts[1..];
      var turn := StreamTurn(explicit, a, worlds(a.provider), h, last);
      TurnPasses(explicit, a, worlds, h, last);
      if turn.Next? {
        FailoverIsInOrder(explicit, rest, worlds, turn.history, turn.last);
        HistoryGrows(explicit, rest, worlds, turn.history, turn.last);
        OrderGoesOn(explicit, attempts, worlds, turn.log, turn.history, Stream(explicit, rest, worlds, turn.history, turn.last));
      } else {
        OnlyFirstMet(explicit, attempts, worlds, turn.run);
      }
    }
  }

  lemma OnlyFirstMet(explicit: bool, attempts: seq<Attempt>, worlds: string -> World, r: Run)
    requires attempts != [] && Distinct(attempts) && !Exhausted(r) && forall b | Met(b, r) :: b == attempts[0]
    ensures InOrder(explicit, attempts, worlds, r)
  {
    forall j | 0 < j < |attempts|
      ensures attempts[j] != attempts[0]
    {
      assert attempts[j] == attempts[1..][j-1] && attempts[1..][j-1] in attempts[1..];
    }
  }

  // ----- what makes no difference -------------------------------------------------------

  function Keyed(attempts: seq<Attempt>, worlds: string -> World): seq<Attempt> {
    if attempts == [] then []
    else
      var r := Keyed(attempts[1..], worlds);
      if worlds(attempts[0].provider).hasKey then [attempts[0]] + r else r
  }

  /** Unless a provider is asked for, those without a key might as well not be listed. */
  lemma {:induction false} KeylessIsInvisible(attempts: seq<Attempt>, worlds: string -> World, h: seq<Event>, last: Last)
    ensures Stream(false, attempts, worlds, h, last) == Stream(false, Keyed(attempts, worlds), worlds, h, last)
    decreases |attempts|
  {
    if attempts != [] {
      var a, rest := attempts[0], attempts[1..];
      var w := worlds(a.provider);
      var turn := StreamTurn(false, a, w, h, last);
      if turn.Next? {
        KeylessIsInvisible(rest, worlds, turn.history, turn.last);
      }
      if w.hasKey {
        assert ([a] + Keyed(rest, worlds))[1..] == Keyed(rest, worlds);
      } else {
        var more := Stream(false, rest, worlds, h, last);
        assert [] + more.log == more.log;
      }
    }
  }
}

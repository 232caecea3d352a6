/**
 What the two forms of the gateway keep, whatever the providers, the clock and
 the other requests do.
 */
module GatewayLaws {
  import opened Wrappers
  import opened Breaker
  import opened Gateway

  // ----- the protocol of one run ----------------------------------------------------

  /** Where a run stands: between attempts, inside one, having refused one, or finished. */
  datatype Phase = Idle | Busy(a: Attempt) | Refused(p: string) | Closed(served: bool) | Broken

  function Advance(ph: Phase, s: Step): Phase {
    match (ph, s)
    case (Idle, Dispatch(a)) => Busy(a)
    case (Idle, Account(a, o)) => if o == Rejected then Refused(a.provider) else Broken
    case (Idle, Yield(_, m, _)) => if m == "" then Closed(false) else Broken
    case (Busy(a), Yield(text, m, p)) => if text != "" && m == a.model && p == a.provider then ph else Broken
    case (Busy(a), Account(b, o)) =>
      if b != a || o == Rejected then Broken else if o == Success then Closed(true) else Idle
    case (Refused(q), Yield(_, m, p)) => if m == "" && p == q then Closed(false) else Broken
    case (_, _) => Broken
  }

  function Runs(ph: Phase, log: seq<Step>): Phase {
    if log == [] then ph else Advance(Runs(ph, log[..|log|-1]), log[|log|-1])
  }

  lemma {:induction false} RunsConcat(ph: Phase, a: seq<Step>, b: seq<Step>)
    ensures Runs(ph, a + b) == Runs(Runs(ph, a), b)
  {
    if b == [] {
      assert a + b == a;
    } else {
      RunsConcat(ph, a, b[..|b|-1]);
      assert (a + b)[..|a+b|-1] == a + b[..|b|-1];
    }
  }

  lemma {:induction false} RelayStaysBusy(chunks: seq<string>, a: Attempt)
    ensures Runs(Busy(a), YieldAll(chunks, a)) == Busy(a)
  {
    if chunks != [] {
      var k := |chunks| - 1;
      RelayStaysBusy(chunks[..k], a);
      RunsConcat(Busy(a), YieldAll(chunks[..k], a), YieldAll(chunks, a)[|YieldAll(chunks[..k], a)|..]);
      assert YieldAll(chunks, a) == YieldAll(chunks[..k], a) + YieldAll(chunks, a)[|YieldAll(chunks[..k], a)|..];
    }
  }

  lemma AttemptRuns(chunks: seq<string>, a: Attempt, o: Outcome)
    requires o != Rejected
    ensures Runs(Idle, [Dispatch(a)] + YieldAll(chunks, a) + [Account(a, o)]) == if o == Success then Closed(true) else Idle
  {
    assert Runs(Idle, [Dispatch(a)]) == Busy(a);
    RunsConcat(Idle, [Dispatch(a)], YieldAll(chunks, a));
    RelayStaysBusy(chunks, a);
  }

  ghost predicate EndsWell(r: Run) {
    && Runs(Idle, r.log) == (if r.raised.Some? then Idle else Closed(r.served.Some?))
    && (r.raised.Some? ==> r.served.None? && StopsStream(r.raised.value))
  }

  lemma TurnKeepsProtocol(explicit: bool, a: Attempt, w: World, h: seq<Event>, last: Last)
    ensures match StreamTurn(explicit, a, w, h, last)
            case Stop(run) => EndsWell(run)
            case Next(log, _, _) => Runs(Idle, log) == Idle
  {
    RejectLog(a, w.errorText);
    AttemptRuns(w.chunks, a, if w.ending.Finished? then Success else Classify(w.ending.failure, StreamedAny(w.chunks)));
  }

  /** Every run keeps the protocol and ends finished, or between attempts when it was cut off. */
  lemma {:induction false} StreamKeepsProtocol(explicit: bool, attempts: seq<Attempt>, worlds: string -> World,
                                               h: seq<Event>, last: Last)
    ensures EndsWell(Stream(explicit, attempts, worlds, h, last))
    decreases |attempts|
  {
    if attempts == [] {
      FinalLog(last);
    } else {
      var a, rest := attempts[0], attempts[1..];
      var turn := StreamTurn(explicit, a, worlds(a.provider), h, last);
      TurnKeepsProtocol(explicit, a, worlds(a.provider), h, last);
      if turn.Next? {
        StreamKeepsProtocol(explicit, rest, worlds, turn.history, turn.last);
        RunsConcat(Idle, turn.log, Stream(explicit, rest, worlds, turn.history, turn.last).log);
      }
    }
  }

  // ----- accounting -------------------------------------------------------------------

  function Dispatched(log: seq<Step>): seq<Attempt> {
    if log == [] then []
    else Dispatched(log[..|log|-1]) + if log[|log|-1].Dispatch? then [log[|log|-1].a] else []
  }

  function Recorded(log: seq<Step>): seq<(Attempt, Outcome)> {
    if log == [] then []
    else Recorded(log[..|log|-1]) + if log[|log|-1].Account? then [(log[|log|-1].a, log[|log|-1].outcome)] else []
  }

  function Firsts(records: seq<(Attempt, Outcome)>): (r: seq<Attempt>)
    ensures |r| == |records| && forall k | 0 <= k < |r| :: r[k] == records[k].0
  {
    seq(|records|, k requires 0 <= k < |records| => records[k].0)
  }

  predicate AllTried(records: seq<(Attempt, Outcome)>) {
    forall k | 0 <= k < |records| :: records[k].1 != Rejected
  }

  /** A run that keeps the protocol writes one record for each dispatch, in the same order, and after
      them at most one more, for an explicit rejection. */
  ghost predicate Balanced(log: seq<Step>, ph: Phase) {
    var d, r := Dispatched(log), Recorded(log);
    match ph
    case Busy(a) => d == Firsts(r) + [a] && AllTried(r)
    case Idle => d == Firsts(r) && AllTried(r)
    case Refused(_) => |r| == |d| + 1 && d == Firsts(r)[..|d|] && AllTried(r[..|d|]) && r[|d|].1 == Rejected
    case Closed(true) => d == Firsts(r) && AllTried(r)
    case Closed(false) =>
      || (d == Firsts(r) && AllTried(r))
      || (|r| == |d| + 1 && d == Firsts(r)[..|d|] && AllTried(r[..|d|]) && r[|d|].1 == Rejected)
    case Broken => true
  }

  lemma {:induction false} ProtocolBalances(log: seq<Step>)
    ensures Balanced(log, Runs(Idle, log))
  {
    if log != [] {
      var init, s := log[..|log|-1], log[|log|-1];
      ProtocolBalances(init);
      var ph, r := Runs(Idle, init), Recorded(init);
      match (ph, s) {
        case (Busy(a), Account(b, o)) =>
          assert Firsts(r + [(b, o)]) == Firsts(r) + [b];
        case (Idle, Account(b, o)) =>
          assert Firsts(r + [(b, o)])[..|r|] == Firsts(r);
          assert (r + [(b, o)])[..|r|] == r;
        case (_, _) =>
      }
    }
  }

  /** Once finished, any further step breaks the protocol, for good. */
  lemma {:induction false} BrokenStays(log: seq<Step>, k: nat)
    requires k <= |log| && Runs(Idle, log[..k]) == Broken
    ensures Runs(Idle, log) == Broken
    decreases |log|
  {
    if k < |log| {
      assert log[..|log|-1][..k] == log[..k];
      BrokenStays(log[..|log|-1], k);
    } else {
      assert log[..k] == log;
    }
  }

  /** A success is the last thing a run does: no second one, and no output behind it. */
  lemma {:induction false} SuccessIsLast(log: seq<Step>, k: nat)
    requires k < |log| && log[k].Account? && log[k].outcome == Success
    requires Runs(Idle, log) != Broken
    ensures k == |log| - 1 && Runs(Idle, log) == Closed(true)
  {
    if k + 1 < |log| {
      NothingFollowsSuccess(log, k);
    }
  }

  lemma NothingFollowsSuccess(log: seq<Step>, k: nat)
    requires k + 1 < |log| && log[k].Account? && log[k].outcome == Success
    ensures Runs(Idle, log) == Broken
  {
    var upTo, next := log[..k+1], log[..k+2];
    assert upTo[..k] == log[..k] && next[..k+1] == upTo;
    assert Runs(Idle, upTo) == Closed(true) || Runs(Idle, upTo) == Broken;
    BrokenStays(log, k + 2);
  }

  lemma {:induction false} DispatchedConcat(a: seq<Step>, b: seq<Step>)
    ensures Dispatched(a + b) == Dispatched(a) + Dispatched(b)
    ensures Recorded(a + b) == Recorded(a) + Recorded(b)
  {
    if b == [] {
      assert a + b == a;
    } else {
      DispatchedConcat(a, b[..|b|-1]);
      assert (a + b)[..|a+b|-1] == a + b[..|b|-1];
    }
  }

  lemma {:induction false} RelayOnlyYields(chunks: seq<string>, a: Attempt)
    ensures Dispatched(YieldAll(chunks, a)) == [] && Recorded(YieldAll(chunks, a)) == []
  {
    if chunks != [] {
      var k := |chunks| - 1;
      RelayOnlyYields(chunks[..k], a);
      var init := YieldAll(chunks[..k], a);
      DispatchedConcat(init, YieldAll(chunks, a)[|init|..]);
      assert YieldAll(chunks, a) == init + YieldAll(chunks, a)[|init|..];
      assert |YieldAll(chunks, a)[|init|..]| <= 1;
    }
  }

  lemma AttemptLog(chunks: seq<string>, a: Attempt, o: Outcome)
    ensures var log := [Dispatch(a)] + YieldAll(chunks, a) + [Account(a, o)];
            Dispatched(log) == [a] && Recorded(log) == [(a, o)]
  {
    RelayOnlyYields(chunks, a);
    DispatchedConcat([Dispatch(a)], YieldAll(chunks, a));
    DispatchedConcat([Dispatch(a)] + YieldAll(chunks, a), [Account(a, o)]);
    assert [Dispatch(a)][..0] == [] && [Account(a, o)][..0] == [];
  }

  lemma RejectLog(a: Attempt, text: string)
    ensures var log := [Account(a, Rejected), Yield(text, "", a.provider)];
            Dispatched(log) == [] && Recorded(log) == [(a, Rejected)] && Runs(Idle, log) == Closed(false)
  {
    var s, s' := Account(a, Rejected), Yield(text, "", a.provider);
    assert [s, s'] == [s] + [s'];
    assert [s][..0] == [] && [s'][..0] == [];
    DispatchedConcat([s], [s']);
    RunsConcat(Idle, [s], [s']);
  }

  lemma FinalLog(last: Last)
    ensures var log := [Yield(FinalText(last), "", FinalProvider(last))];
            Dispatched(log) == [] && Recorded(log) == [] && Runs(Idle, log) == Closed(false)
  {
    assert [Yield(FinalText(last), "", FinalProvider(last))][..0] == [];
  }

  /** The breaker let this attempt through when it was checked. */
  ghost predicate LetThrough(history: seq<Event>, a: Attempt, w: World, k: nat) {
    k < |history| && history[k] == Check(a, w) && !Refuses(Replay(history[..k], a.provider), w.checkedAt)
  }

  /** Only attempts with a key and a known model that the breaker let through are dispatched. */
  ghost predicate Admitted(attempts: seq<Attempt>, worlds: string -> World, history: seq<Event>, a: Attempt) {
    && a in attempts
    && worlds(a.provider).hasKey && worlds(a.provider).knownModel
    && exists k: nat :: LetThrough(history, a, worlds(a.provider), k)
  }

  ghost predicate Dispatches(attempts: seq<Attempt>, worlds: string -> World, r: Run) {
    && Distinct(Dispatched(r.log))
    && forall a | a in Dispatched(r.log) :: Admitted(attempts, worlds, r.history, a)
  }

  /** A turn that starts at `h` dispatches its own attempt or nothing. */
  ghost predicate Tries(a: Attempt, w: World, h: seq<Event>, log: seq<Step>, h': seq<Event>) {
    && h <= h'
    && (Dispatched(log) == [] || (Dispatched(log) == [a] && w.hasKey && w.knownModel && LetThrough(h', a, w, |h|)))
  }

  lemma TurnTries(explicit: bool, a: Attempt, w: World, h: seq<Event>, last: Last)
    ensures match StreamTurn(explicit, a, w, h, last)
            case Stop(run) => Tries(a, w, h, run.log, run.history)
            case Next(log, h', _) => Tries(a, w, h, log, h')
  {
    RejectLog(a, w.errorText);
    AttemptLog(w.chunks, a, if w.ending.Finished? then Success else Classify(w.ending.failure, StreamedAny(w.chunks)));
    assert Settle(h, a, w)[..|h|] == h && Settle(h, a, w)[|h|] == Check(a, w);
  }

  lemma {:induction false} HistoryGrows(explicit: bool, attempts: seq<Attempt>, worlds: string -> World,
                                        h: seq<Event>, last: Last)
    ensures h <= Stream(explicit, attempts, worlds, h, last).history
    decreases |attempts|
  {
    if attempts != [] {
      var a := attempts[0];
      var turn := StreamTurn(explicit, a, worlds(a.provider), h, last);
      TurnTries(explicit, a, worlds(a.provider), h, last);
      if turn.Next? {
        HistoryGrows(explicit, attempts[1..], worlds, turn.history, turn.last);
      }
    }
  }

  /** Each provider is dispatched at most once, and none that was skipped. */
  lemma {:induction false} DispatchesOnce(explicit: bool, attempts: seq<Attempt>, worlds: string -> World,
                                          h: seq<Event>, last: Last)
    requires Distinct(attempts)
    ensures Dispatches(attempts, worlds, Stream(explicit, attempts, worlds, h, last))
    decreases |attempts|
  {
    if attempts == [] {
      FinalLog(last);
    } else {
      var a, rest := attempts[0], attempts[1..];
      var turn := StreamTurn(explicit, a, worlds(a.provider), h, last);
      TurnTries(explicit, a, worlds(a.provider), h, last);
      match turn {
        case Stop(run) =>
        case Next(log, h', last') =>
          DispatchesOnce(explicit, rest, worlds, h', last');
          HistoryGrows(explicit, rest, worlds, h', last');
          var more := Stream(explicit, rest, worlds, h', last');
          DispatchedConcat(log, more.log);
          DispatchesExtend(attempts, worlds, h, log, h', more);
      }
    }
  }

  lemma DispatchesExtend(attempts: seq<Attempt>, worlds: string -> World, h: seq<Event>, log: seq<Step>,
                         h': seq<Event>, more: Run)
    requires Distinct(attempts) && attempts != []
    requires Tries(attempts[0], worlds(attempts[0].provider), h, log, h') && h' <= more.history
    requires Dispatches(attempts[1..], worlds, more)
    requires Dispatched(log + more.log) == Dispatched(log) + Dispatched(more.log)
    ensures Dispatches(attempts, worlds, more.(log := log + more.log))
  {
    var a, d := attempts[0], Dispatched(more.log);
    forall b | b in d
      ensures b.provider != a.provider && Admitted(attempts, worlds, more.history, b)
    {
      assert Admitted(attempts[1..], worlds, more.history, b);
    }
    if Dispatched(log) == [] {
      assert [] + d == d;
    } else {
      assert ([a] + d)[1..] == d;
      assert more.history[..|h|] == h'[..|h|];
      assert LetThrough(more.history, a, worlds(a.provider), |h|);
    }
  }

  lemma Regroup<T>(x: seq<T>, y: seq<T>, z: seq<T>)
    ensures x + (y + z) == x + y + z && x + [] == x
  {
  }

  // ----- what becomes of each attempt --------------------------------------------------

  datatype Fate = Skipped | Turned | Tried

  /** An attempt met at `h`: without a key it is skipped, or turned away if it was asked for; the breaker may
      skip it; an unknown model is turned away; every other one is tried. */
  function FateOf(explicit: bool, a: Attempt, w: World, h: seq<Event>): Fate {
    if !w.hasKey then (if explicit then Turned else Skipped)
    else if Refuses(Replay(h, a.provider), w.checkedAt) then Skipped
    else if !w.knownModel then Turned
    else Tried
  }

  /** The request lives on behind a skipped attempt, and behind a failure that is no cancellation. */
  predicate GoesOn(explicit: bool, a: Attempt, w: World, h: seq<Event>) {
    match FateOf(explicit, a, w, h)
    case Skipped => true
    case Turned => false
    case Tried => w.ending.Raised? && !StopsStream(w.ending.failure)
  }

  function Behind(a: Attempt, w: World, h: seq<Event>): seq<Event> {
    if !w.hasKey then h
    else if Refuses(Replay(h, a.provider), w.checkedAt) then h + [Check(a, w)]
    else Settle(h, a, w)
  }

  /** The history at which a request meets attempt `i`; none if it ends before. */
  function ReachedAt(explicit: bool, attempts: seq<Attempt>, worlds: string -> World, h: seq<Event>, i: nat): Option<seq<Event>>
    requires i < |attempts|
    decreases i
  {
    var a := attempts[0];
    if i == 0 then Some(h)
    else if GoesOn(explicit, a, worlds(a.provider), h) then
      ReachedAt(explicit, attempts[1..], worlds, Behind(a, worlds(a.provider), h), i - 1)
    else None
  }

  /** The records an attempt must have: one when it was tried or turned away, none when it was skipped or
      never met. */
  function RecordsDue(explicit: bool, a: Attempt, w: World, met: Option<seq<Event>>): seq<(Attempt, Outcome)> {
    if met.None? then []
    else
      match FateOf(explicit, a, w, met.value)
      case Skipped => []
      case Turned => [(a, Rejected)]
      case Tried => [(a, if w.ending.Finished? then Success else Classify(w.ending.failure, StreamedAny(w.chunks)))]
  }

  function RecordsOf(records: seq<(Attempt, Outcome)>, provider: string): seq<(Attempt, Outcome)> {
    if records == [] then []
    else
      var r, record := RecordsOf(records[..|records|-1], provider), records[|records|-1];
      if record.0.provider == provider then r + [record] else r
  }

  predicate Lists(attempts: seq<Attempt>, provider: string) {
    exists a | a in attempts :: a.provider == provider
  }

  /** Exactly the records due are there, provider by provider. */
  ghost predicate Accounted(explicit: bool, attempts: seq<Attempt>, worlds: string -> World, h: seq<Event>, log: seq<Step>) {
    && (forall i: nat | i < |attempts| ::
          RecordsOf(Recorded(log), attempts[i].provider) ==
          RecordsDue(explicit, attempts[i], worlds(attempts[i].provider), ReachedAt(explicit, attempts, worlds, h, i)))
    && forall p | !Lists(attempts, p) :: RecordsOf(Recorded(log), p) == []
  }

  lemma {:induction false} RecordsOfConcat(a: seq<(Attempt, Outcome)>, b: seq<(Attempt, Outcome)>, p: string)
    ensures RecordsOf(a + b, p) == RecordsOf(a, p) + RecordsOf(b, p)
  {
    if b == [] {
      assert a + b == a;
    } else {
      RecordsOfConcat(a, b[..|b|-1], p);
      assert (a + b)[..|a+b|-1] == a + b[..|b|-1];
    }
  }

  lemma TurnRecords(explicit: bool, a: Attempt, w: World, h: seq<Event>, last: Last)
    ensures match StreamTurn(explicit, a, w, h, last)
            case Stop(run) => !GoesOn(explicit, a, w, h) && Recorded(run.log) == RecordsDue(explicit, a, w, Some(h))
            case Next(log, h', _) =>
              GoesOn(explicit, a, w, h) && h' == Behind(a, w, h) && Recorded(log) == RecordsDue(explicit, a, w, Some(h))
  {
    RejectLog(a, w.errorText);
    AttemptLog(w.chunks, a, if w.ending.Finished? then Success else Classify(w.ending.failure, StreamedAny(w.chunks)));
  }

  lemma DueToOne(explicit: bool, a: Attempt, w: World, met: Option<seq<Event>>, p: string)
    ensures var due := RecordsDue(explicit, a, w, met); RecordsOf(due, p) == if p == a.provider then due else []
  {
    var due := RecordsDue(explicit, a, w, met);
    assert due != [] ==> due[..0] == [];
  }

  /** The first attempt's records in front of those of the rest. */
  lemma AccountedExtends(explicit: bool, attempts: seq<Attempt>, worlds: string -> World, h: seq<Event>,
                         log: seq<Step>, more: seq<Step>)
    requires attempts != [] && Distinct(attempts)
    requires Recorded(log) == RecordsDue(explicit, attempts[0], worlds(attempts[0].provider), Some(h)) + Recorded(more)
    requires if GoesOn(explicit, attempts[0], worlds(attempts[0].provider), h)
             then Accounted(explicit, attempts[1..], worlds, Behind(attempts[0], worlds(attempts[0].provider), h), more)
             else Recorded(more) == []
    ensures Accounted(explicit, attempts, worlds, h, log)
  {
    var a, rest := attempts[0], attempts[1..];
    var w := worlds(a.provider);
    var due := RecordsDue(explicit, a, w, Some(h));
    assert attempts == [a] + rest;
    assert !Lists(rest, a.provider);
    forall i: nat | i < |attempts|
      ensures RecordsOf(Recorded(log), attempts[i].provider) ==
              RecordsDue(explicit, attempts[i], worlds(attempts[i].provider), ReachedAt(explicit, attempts, worlds, h, i))
    {
      var p := attempts[i].provider;
      RecordsOfConcat(due, Recorded(more), p);
      DueToOne(explicit, a, w, Some(h), p);
      if i > 0 {
        assert attempts[i] == rest[i-1] && rest[i-1] in rest;
        assert ReachedAt(explicit, attempts, worlds, h, i) ==
               if GoesOn(explicit, a, w, h) then ReachedAt(explicit, rest, worlds, Behind(a, w, h), i - 1) else None;
      }
    }
    forall p | !Lists(attempts, p)
      ensures RecordsOf(Recorded(log), p) == []
    {
      assert a in attempts && !Lists(rest, p);
      RecordsOfConcat(due, Recorded(more), p);
      DueToOne(explicit, a, w, Some(h), p);
    }
  }

  /** Every attempt a request meets has exactly the record due to it, whatever becomes of it, and nothing else
      is recorded. */
  lemma {:induction false} EachAttemptIsAccounted(explicit: bool, attempts: seq<Attempt>, worlds: string -> World,
                                                  h: seq<Event>, last: Last)
    requires Distinct(attempts)
    ensures Accounted(explicit, attempts, worlds, h, Stream(explicit, attempts, worlds, h, last).log)
    decreases |attempts|
  {
    if attempts == [] {
      FinalLog(last);
    } else {
      var a, rest := attempts[0], attempts[1..];
      var turn := StreamTurn(explicit, a, worlds(a.provider), h, last);
      TurnRecords(explicit, a, worlds(a.provider), h, last);
      match turn {
        case Stop(run) =>
          assert Recorded(run.log) + Recorded([]) == Recorded(run.log);
          AccountedExtends(explicit, attempts, worlds, h, run.log, []);
        case Next(log, h', last') =>
          var more := Stream(explicit, rest, worlds, h', last').log;
          EachAttemptIsAccounted(explicit, rest, worlds, h', last');
          DispatchedConcat(log, more);
          AccountedExtends(explicit, attempts, worlds, h, log + more, more);
      }
    }
  }

  /** What a turn leaves of the moment it began: the check of the breaker, if it came to that. */
  ghost predicate Checks(a: Attempt, w: World, h: seq<Event>, h': seq<Event>) {
    if w.hasKey then h + [Check(a, w)] <= h' else h <= h'
  }

  lemma TurnChecks(explicit: bool, a: Attempt, w: World, h: seq<Event>, last: Last)
    ensures match StreamTurn(explicit, a, w, h, last)
            case Stop(run) => Checks(a, w, h, run.history)
            case Next(_, h', _) => Checks(a, w, h, h')
  {
    assert h + [Check(a, w)] <= Settle(h, a, w);
  }

  lemma {:induction false} MetBefore(explicit: bool, attempts: seq<Attempt>, worlds: string -> World, h: seq<Event>,
                                     last: Last, i: nat)
    requires i < |attempts| && ReachedAt(explicit, attempts, worlds, h, i).Some?
    ensures Checks(attempts[i], worlds(attempts[i].provider), ReachedAt(explicit, attempts, worlds, h, i).value,
                   Stream(explicit, attempts, worlds, h, last).history)
    decreases i
  {
    var a := attempts[0];
    var turn := StreamTurn(explicit, a, worlds(a.provider), h, last);
    TurnRecords(explicit, a, worlds(a.provider), h, last);
    if i > 0 {
      MetBefore(explicit, attempts[1..], worlds, turn.history, turn.last, i - 1);
    } else {
      TurnChecks(explicit, a, worlds(a.provider), h, last);
      if turn.Next? {
        HistoryGrows(explicit, attempts[1..], worlds, turn.history, turn.last);
      }
    }
  }

  /** A rejection is explicit: a provider was asked for that has no key, or the model of an attempt that the
      breaker let through is not known. */
  ghost predicate Explicit(explicit: bool, attempts: seq<Attempt>, worlds: string -> World, history: seq<Event>, a: Attempt) {
    var w := worlds(a.provider);
    && a in attempts
    && ((explicit && !w.hasKey) || (w.hasKey && !w.knownModel && exists k: nat :: LetThrough(history, a, w, k)))
  }

  lemma {:induction false} RecordIsListed(records: seq<(Attempt, Outcome)>, record: (Attempt, Outcome))
    requires record in records
    ensures record in RecordsOf(records, record.0.provider)
  {
    var last := records[|records|-1];
    assert records == records[..|records|-1] + [last];
    if last != record {
      RecordIsListed(records[..|records|-1], record);
    }
  }

  /** A recorded rejection was due to the attempt it names, where the request met it. */
  lemma RejectionIsDue(explicit: bool, attempts: seq<Attempt>, worlds: string -> World, h: seq<Event>,
                       log: seq<Step>, a: Attempt) returns (i: nat)
    requires Accounted(explicit, attempts, worlds, h, log) && (a, Rejected) in Recorded(log)
    ensures i < |attempts| && attempts[i] == a
    ensures var met := ReachedAt(explicit, attempts, worlds, h, i);
            met.Some? && FateOf(explicit, a, worlds(a.provider), met.value) == Turned
  {
    RecordIsListed(Recorded(log), (a, Rejected));
    i := ListedAt(attempts, a.provider);
    DueRejection(explicit, attempts[i], worlds(a.provider), ReachedAt(explicit, attempts, worlds, h, i), a);
  }

  lemma ListedAt(attempts: seq<Attempt>, provider: string) returns (i: nat)
    requires Lists(attempts, provider)
    ensures i < |attempts| && attempts[i].provider == provider
  {
    var b :| b in attempts && b.provider == provider;
    i :| 0 <= i < |attempts| && attempts[i] == b;
  }

  lemma DueRejection(explicit: bool, b: Attempt, w: World, met: Option<seq<Event>>, a: Attempt)
    requires (a, Rejected) in RecordsDue(explicit, b, w, met)
    ensures a == b && met.Some? && FateOf(explicit, b, w, met.value) == Turned
  {
  }

  lemma RejectionsAreExplicit(explicit: bool, attempts: seq<Attempt>, worlds: string -> World, h: seq<Event>,
                              last: Last, a: Attempt)
    requires Distinct(attempts) && (a, Rejected) in Recorded(Stream(explicit, attempts, worlds, h, last).log)
    ensures Explicit(explicit, attempts, worlds, Stream(explicit, attempts, worlds, h, last).history, a)
  {
    var r := Stream(explicit, attempts, worlds, h, last);
    EachAttemptIsAccounted(explicit, attempts, worlds, h, last);
    var i := RejectionIsDue(explicit, attempts, worlds, h, r.log, a);
    MetBefore(explicit, attempts, worlds, h, last, i);
    TurnedIsExplicit(explicit, attempts, worlds, ReachedAt(explicit, attempts, worlds, h, i).value, r.history, a);
  }

  ghost predicate AllExplicit(explicit: bool, attempts: seq<Attempt>, worlds: string -> World, r: Run) {
    forall a | (a, Rejected) in Recorded(r.log) :: Explicit(explicit, attempts, worlds, r.history, a)
  }

  lemma AllRejectionsAreExplicit(explicit: bool, attempts: seq<Attempt>, worlds: string -> World, h: seq<Event>, last: Last)
    requires Distinct(attempts)
    ensures AllExplicit(explicit, attempts, worlds, Stream(explicit, attempts, worlds, h, last))
  {
    var r := Stream(explicit, attempts, worlds, h, last);
    forall a | (a, Rejected) in Recorded(r.log)
      ensures Explicit(explicit, attempts, worlds, r.history, a)
    {
      RejectionsAreExplicit(explicit, attempts, worlds, h, last, a);
    }
  }

  lemma TurnedIsExplicit(explicit: bool, attempts: seq<Attempt>, worlds: string -> World, met: seq<Event>,
                         history: seq<Event>, a: Attempt)
    requires a in attempts && FateOf(explicit, a, worlds(a.provider), met) == Turned
    requires Checks(a, worlds(a.provider), met, history)
    ensures Explicit(explicit, attempts, worlds, history, a)
  {
    if worlds(a.provider).hasKey {
      assert history[..|met|] == met && history[|met|] == Check(a, worlds(a.provider));
      assert LetThrough(history, a, worlds(a.provider), |met|);
    }
  }

  lemma SuccessEndsRun(r: Run)
    requires EndsWell(r)
    ensures OneRecordEach(r.log) && forall k | IsSuccess(r.log, k) :: k == |r.log| - 1
    ensures r.served.Some? <==> IsSuccess(r.log, |r.log| - 1)
  {
    ProtocolBalances(r.log);
    BalancedRecords(r.log);
    ClosedBySuccess(r.log);
    forall k | IsSuccess(r.log, k)
      ensures k == |r.log| - 1 && r.served.Some?
    {
      SuccessIsLast(r.log, k);
    }
    assert IsSuccess(r.log, |r.log| - 1) ==> r.served.Some?;
  }

  /** The accounting of one streamed request, whatever else happens in the process: one record for each
      dispatch and each explicit rejection, none for what was skipped or never met. */
  lemma StreamAccounts(explicit: bool, attempts: seq<Attempt>, worlds: string -> World, h: seq<Event>)
    requires Distinct(attempts)
    ensures var r := Stream(explicit, attempts, worlds, h, Nothing);
            && OneRecordEach(r.log)
            && Dispatches(attempts, worlds, r)
            && Accounted(explicit, attempts, worlds, h, r.log)
            && AllExplicit(explicit, attempts, worlds, r)
            && (forall k | IsSuccess(r.log, k) :: k == |r.log| - 1)
            && (r.served.Some? <==> IsSuccess(r.log, |r.log| - 1))
  {
    var r := Stream(explicit, attempts, worlds, h, Nothing);
    StreamKeepsProtocol(explicit, attempts, worlds, h, Nothing);
    SuccessEndsRun(r);
    DispatchesOnce(explicit, attempts, worlds, h, Nothing);
    EachAttemptIsAccounted(explicit, attempts, worlds, h, Nothing);
    AllRejectionsAreExplicit(explicit, attempts, worlds, h, Nothing);
  }

  /** Each dispatch has its own record, in order; one more only for an explicit rejection. */
  ghost predicate OneRecordEach(log: seq<Step>) {
    var d, c := Dispatched(log), Recorded(log);
    && |d| <= |c| <= |d| + 1 && Firsts(c)[..|d|] == d
    && (forall k | 0 <= k < |d| :: c[k].1 != Rejected)
    && (forall k | |d| <= k < |c| :: c[k].1 == Rejected)
  }

  predicate IsSuccess(log: seq<Step>, k: int) {
    0 <= k < |log| && log[k].Account? && log[k].outcome == Success
  }

  lemma ClosedBySuccess(log: seq<Step>)
    ensures Runs(Idle, log) == Closed(true) ==> IsSuccess(log, |log| - 1)
  {
  }

  lemma BalancedRecords(log: seq<Step>)
    requires Balanced(log, Runs(Idle, log)) && (Runs(Idle, log).Idle? || Runs(Idle, log).Closed?)
    ensures OneRecordEach(log)
  {
    var d, c := Dispatched(log), Recorded(log);
    assert Firsts(c)[..|c|] == Firsts(c);
    if |c| == |d| + 1 {
      forall k | 0 <= k < |d|
        ensures c[k].1 != Rejected
      {
        assert c[..|d|][k] == c[k];
      }
    }
  }
}

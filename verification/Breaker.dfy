/**
 The circuit breaker that all chat requests of one process share
 (services/model_gateway.py). Every access is one atomic step, so any number of
 requests in flight amounts to one history of steps.
 */
module Breaker {
  import opened Wrappers

  datatype Entry = Entry(n: int, until: real)

  datatype Kind = Checked | Succeeded | Failed

  /** One step on the breaker: which one, for which provider, and the monotonic clock, in seconds. */
  datatype Event = Event(kind: Kind, name: string, at: real)

  const FRESH := Entry(0, 0.0)
  const COOLDOWN := 60.0

  predicate Refuses(e: Entry, now: real) {
    now < e.until
  }

  function Next(e: Entry, ev: Event): Entry {
    match ev.kind
    case Checked => if Refuses(e, ev.at) || e.until == 0.0 then e else FRESH
    case Succeeded => FRESH
    case Failed => if e.n + 1 >= 3 then Entry(0, ev.at + COOLDOWN) else Entry(e.n + 1, e.until)
  }

  /** The state of one provider after a history of steps; steps on other providers do not touch it. */
  function Replay(h: seq<Event>, name: string): Entry {
    if h == [] then FRESH
    else
      var ev := h[|h|-1];
      var e := Replay(h[..|h|-1], name);
      if ev.name == name then Next(e, ev) else e
  }

  lemma ReplayStep(h: seq<Event>, ev: Event, name: string)
    ensures Replay(h + [ev], name) == if ev.name == name then Next(Replay(h, name), ev) else Replay(h, name)
  {
    assert (h + [ev])[..|h|] == h;
  }

  class CircuitBreaker {
    var cb: map<string, Entry>
    ghost var history: seq<Event>

    ghost predicate Valid()
      reads this
    {
      forall name :: Get(name) == Replay(history, name)
    }

    function Get(name: string): Entry
      reads this
    {
      if name in cb then cb[name] else FRESH
    }

    constructor ()
      ensures Valid() && history == []
    {
      cb, history := map[], [];
    }

    method Ready(name: string, now: real) returns (ready: bool)
      requires Valid()
      modifies this
      ensures Valid() && history == old(history) + [Event(Checked, name, now)]
      ensures ready == !Refuses(Replay(old(history), name), now)
    {
      StepAll(Event(Checked, name, now));
      history := history + [Event(Checked, name, now)];
      if name !in cb {
        cb := cb[name := Entry(0, 0.0)];
      }
      var s := cb[name];
      if now < s.until {
        return false;
      }
      if s.until != 0.0 {
        cb := cb[name := Entry(0, 0.0)];
      }
      return true;
    }

    method Ok(name: string, ghost now: real)
      requires Valid()
      modifies this
      ensures Valid() && history == old(history) + [Event(Succeeded, name, now)]
    {
      StepAll(Event(Succeeded, name, now));
      history := history + [Event(Succeeded, name, now)];
      cb := cb[name := Entry(0, 0.0)];
    }

    method Fail(name: string, now: real)
      requires Valid()
      modifies this
      ensures Valid() && history == old(history) + [Event(Failed, name, now)]
    {
      StepAll(Event(Failed, name, now));
      history := history + [Event(Failed, name, now)];
      var s := if name in cb then cb[name] else Entry(0, 0.0);
      s := s.(n := s.n + 1);
      if s.n >= 3 {
        s := s.(until := now + 60.0);
        s := s.(n := 0);
      }
      cb := cb[name := s];
    }

    /** Steps that other requests take while this one waits. */
    method Others(events: seq<Event>)
      requires Valid()
      modifies this
      ensures Valid() && history == old(history) + events
    {
      for k := 0 to |events|
        invariant Valid() && history == old(history) + events[..k]
      {
        var ev := events[k];
        match ev.kind {
          case Checked => var _ := Ready(ev.name, ev.at);
          case Succeeded => Ok(ev.name, ev.at);
          case Failed => Fail(ev.name, ev.at);
        }
        assert events[..k+1] == events[..k] + [ev];
      }
      assert events[..|events|] == events;
    }

    lemma StepAll(ev: Event)
      ensures forall name :: Replay(history + [ev], name) ==
                if ev.name == name then Next(Replay(history, name), ev) else Replay(history, name)
    {
      forall name {
        ReplayStep(history, ev, name);
      }
    }
  }

  // ----- what holds over every history ---------------------------------------------

  /** The clock starts at zero at the earliest and never runs backwards. */
  ghost predicate Monotone(h: seq<Event>) {
    && (forall i | 0 <= i < |h| :: h[i].at >= 0.0)
    && forall i, j | 0 <= i < j < |h| :: h[i].at <= h[j].at
  }

  lemma {:induction false} CountBounded(h: seq<Event>, name: string)
    ensures 0 <= Replay(h, name).n <= 2
  {
    if h != [] {
      CountBounded(h[..|h|-1], name);
    }
  }

  ghost predicate Is(h: seq<Event>, name: string, kind: Kind, i: nat)
    requires i < |h|
  {
    h[i].kind == kind && h[i].name == name
  }

  /** How often `name` failed in the steps `start` to `end`, the latter excluded. */
  ghost function Failures(h: seq<Event>, name: string, start: nat, end: nat): nat
    requires start <= end <= |h|
    decreases end - start
  {
    if start == end then 0
    else
      var before := Failures(h, name, start, end - 1);
      if Is(h, name, Failed, end - 1) then before + 1 else before
  }

  /** Where the failures that still count begin before step `j`: behind the last success, the last trip, or the
      last check past a deadline. */
  ghost function Since(h: seq<Event>, name: string, j: nat): (k: nat)
    requires j <= |h|
    ensures k <= j
    decreases j, 0
  {
    if j == 0 then 0
    else if Is(h, name, Succeeded, j - 1) || Trips(h, name, j - 1) || Expires(h, name, j - 1) then j
    else Since(h, name, j - 1)
  }

  /** Step `i` is the third failure that counts: it opens the breaker of `name`. */
  ghost predicate Trips(h: seq<Event>, name: string, i: nat)
    requires i < |h|
    decreases i, 1
  {
    Is(h, name, Failed, i) && Failures(h, name, Since(h, name, i), i) == 2
  }

  /** The trip before step `j` that neither a success nor a check past its deadline has ended, the last one if
      there are several. */
  ghost function Standing(h: seq<Event>, name: string, j: nat): (i: Option<nat>)
    requires j <= |h|
    ensures i.Some? ==> i.value < j && Trips(h, name, i.value)
    decreases j, 0
  {
    if j == 0 then None
    else if Trips(h, name, j - 1) then Some(j - 1)
    else if Is(h, name, Succeeded, j - 1) || Expires(h, name, j - 1) then None
    else Standing(h, name, j - 1)
  }

  /** Step `j` is a check that finds the deadline of a trip behind it. */
  ghost predicate Expires(h: seq<Event>, name: string, j: nat)
    requires j < |h|
    decreases j, 1
  {
    && Is(h, name, Checked, j)
    && var i := Standing(h, name, j);
    && i.Some?
    && h[i.value].at + COOLDOWN <= h[j].at
  }

  ghost function Deadline(h: seq<Event>, name: string, j: nat): real
    requires j <= |h|
  {
    var i := Standing(h, name, j);
    if i.None? then 0.0 else h[i.value].at + COOLDOWN
  }

  lemma DeadlineStep(h: seq<Event>, name: string, j: nat)
    requires j < |h| && forall i | 0 <= i < |h| :: h[i].at >= 0.0
    ensures Deadline(h, name, j + 1) ==
            if Trips(h, name, j) then h[j].at + COOLDOWN
            else if Is(h, name, Succeeded, j) || Expires(h, name, j) then 0.0
            else Deadline(h, name, j)
    ensures Expires(h, name, j) <==>
            Is(h, name, Checked, j) && Deadline(h, name, j) != 0.0 && Deadline(h, name, j) <= h[j].at
  {
  }

  /** How many failures count before step `j`. */
  ghost function Count(h: seq<Event>, name: string, j: nat): nat
    requires j <= |h|
  {
    Failures(h, name, Since(h, name, j), j)
  }

  lemma CountStep(h: seq<Event>, name: string, j: nat)
    requires j < |h|
    ensures Count(h, name, j + 1) ==
            if Is(h, name, Succeeded, j) || Trips(h, name, j) || Expires(h, name, j) then 0
            else if Is(h, name, Failed, j) then Count(h, name, j) + 1
            else Count(h, name, j)
  {
  }

  /** The failures that still count are never more than two. */
  lemma {:induction false} CountBelowThree(h: seq<Event>, name: string, j: nat)
    requires j <= |h|
    ensures Count(h, name, j) <= 2
  {
    if j > 0 {
      CountBelowThree(h, name, j - 1);
      CountStep(h, name, j - 1);
    }
  }

  lemma NextReads(e: Entry, h: seq<Event>, name: string, j: nat)
    requires j < |h| && h[j].name == name && e == Entry(Count(h, name, j), Deadline(h, name, j))
    requires forall i | 0 <= i < |h| :: h[i].at >= 0.0
    ensures Next(e, h[j]) == Entry(Count(h, name, j + 1), Deadline(h, name, j + 1))
  {
    CountBelowThree(h, name, j);
    CountStep(h, name, j);
    DeadlineStep(h, name, j);
  }

  /** The entry that one step after another updates is what the events say of it: the failures that still count,
      and the deadline of the trip that stands. */
  lemma {:induction false} ReplayReads(h: seq<Event>, name: string, j: nat)
    requires j <= |h| && forall i | 0 <= i < |h| :: h[i].at >= 0.0
    ensures Replay(h[..j], name) == Entry(Count(h, name, j), Deadline(h, name, j))
  {
    if j == 0 {
    } else {
      var ev := h[j-1];
      ReplayReads(h, name, j - 1);
      assert h[..j] == h[..j-1] + [ev];
      ReplayStep(h[..j-1], ev, name);
      if ev.name == name {
        NextReads(Replay(h[..j-1], name), h, name, j - 1);
      } else {
        CountStep(h, name, j - 1);
        DeadlineStep(h, name, j - 1);
      }
    }
  }

  ghost predicate NoSuccess(h: seq<Event>, name: string, start: nat, end: nat)
    requires start <= end <= |h|
  {
    forall j | start <= j < end :: !Is(h, name, Succeeded, j)
  }

  /** Step `i` opened the breaker of `name` and no success before step `j` has closed it since. */
  ghost predicate OpenTrip(h: seq<Event>, name: string, i: nat, j: nat)
    requires j <= |h|
  {
    i < j && Trips(h, name, i) && NoSuccess(h, name, i + 1, j)
  }

  lemma {:induction false} StandingIsOpen(h: seq<Event>, name: string, j: nat)
    requires j <= |h| && Standing(h, name, j).Some?
    ensures OpenTrip(h, name, Standing(h, name, j).value, j)
  {
    if !Trips(h, name, j - 1) {
      StandingIsOpen(h, name, j - 1);
    }
  }

  /** An open trip still stands, or a later one does, or its cooldown is over. */
  lemma {:induction false} OpenTripStands(h: seq<Event>, name: string, i: nat, j: nat, now: real)
    requires Monotone(h) && j <= |h| && OpenTrip(h, name, i, j) && forall k | 0 <= k < j :: h[k].at <= now
    ensures h[i].at + COOLDOWN <= now ||
            (Standing(h, name, j).Some? && h[i].at <= h[Standing(h, name, j).value].at)
    decreases j
  {
    if i < j - 1 {
      OpenTripStands(h, name, i, j - 1, h[j-1].at);
      assert !Is(h, name, Succeeded, j - 1);
    }
  }

  ghost predicate Explains(h: seq<Event>, name: string, i: nat) {
    OpenTrip(h, name, i, |h|) && Replay(h, name).until == h[i].at + COOLDOWN
  }

  /** The deadline is that of an open trip, and every open trip has run out or ends by the deadline. */
  lemma DeadlineIsLastOpenTrip(h: seq<Event>, name: string, now: real)
    requires Monotone(h) && forall i | 0 <= i < |h| :: h[i].at <= now
    ensures Replay(h, name).until == 0.0 || exists i: nat :: Explains(h, name, i)
    ensures forall i: nat | OpenTrip(h, name, i, |h|) ::
              h[i].at + COOLDOWN <= now || h[i].at + COOLDOWN <= Replay(h, name).until
  {
    ReplayReads(h, name, |h|);
    assert h[..|h|] == h;
    var s := Standing(h, name, |h|);
    if s.Some? {
      StandingIsOpen(h, name, |h|);
      assert Explains(h, name, s.value);
    }
    forall i: nat | OpenTrip(h, name, i, |h|)
      ensures h[i].at + COOLDOWN <= now || h[i].at + COOLDOWN <= Replay(h, name).until
    {
      OpenTripStands(h, name, i, |h|, now);
    }
  }

  /** At time `now` the breaker refuses exactly when some trip less than a cooldown old has not been
      followed by a success. */
  lemma RefusesIffOpenTrip(h: seq<Event>, name: string, now: real)
    requires Monotone(h) && 0.0 <= now && forall i | 0 <= i < |h| :: h[i].at <= now
    ensures Refuses(Replay(h, name), now) <==> exists i: nat :: OpenTrip(h, name, i, |h|) && now < h[i].at + COOLDOWN
  {
    DeadlineIsLastOpenTrip(h, name, now);
    if Refuses(Replay(h, name), now) {
      var i: nat :| Explains(h, name, i);
    }
  }

  lemma {:induction false} FailuresSplit(h: seq<Event>, name: string, start: nat, mid: nat, end: nat)
    requires start <= mid <= end <= |h|
    ensures Failures(h, name, start, end) == Failures(h, name, start, mid) + Failures(h, name, mid, end)
    decreases end - mid
  {
    if mid < end {
      FailuresSplit(h, name, start, mid, end - 1);
    }
  }

  lemma {:induction false} NoFailures(h: seq<Event>, name: string, start: nat, end: nat)
    requires start <= end <= |h| && Failures(h, name, start, end) == 0
    ensures forall k | start <= k < end :: !Is(h, name, Failed, k)
    decreases end - start
  {
    if start < end {
      NoFailures(h, name, start, end - 1);
    }
  }

  /** While no trip stands and none happens, only a success makes the breaker forget failures. */
  lemma {:induction false} QuietStretch(h: seq<Event>, name: string, start: nat, end: nat)
    requires start <= end <= |h| && Standing(h, name, start).None? && NoSuccess(h, name, start, end)
    requires forall t: nat | start <= t < end :: !Trips(h, name, t)
    ensures Since(h, name, end) == Since(h, name, start) && Standing(h, name, end).None?
    decreases end - start
  {
    if start < end {
      QuietStretch(h, name, start, end - 1);
    }
  }

  /** Three failures without a success among them open the breaker, unless a trip stood when they began. */
  lemma {:induction false} ThreeFailuresTrip(h: seq<Event>, name: string, start: nat, end: nat) returns (t: nat)
    requires start <= end <= |h| && Standing(h, name, start).None? && NoSuccess(h, name, start, end)
    requires Failures(h, name, start, end) >= 3
    ensures start <= t < end && Trips(h, name, t)
    decreases end - start
  {
    if exists t: nat :: start <= t < end - 1 && Trips(h, name, t) {
      t :| start <= t < end - 1 && Trips(h, name, t);
    } else {
      t := end - 1;
      QuietStretch(h, name, start, t);
      FailuresSplit(h, name, Since(h, name, start), start, t);
      if !Trips(h, name, t) {
        CountBelowThree(h, name, t);
      }
    }
  }

  /** A provider that fails three times and never succeeds is refused for sixty seconds from its third failure on. */
  lemma ThirdFailureOpens(h: seq<Event>, name: string, i: nat, now: real)
    requires Monotone(h) && 0.0 <= now && forall k | 0 <= k < |h| :: h[k].at <= now
    requires i < |h| && NoSuccess(h, name, 0, |h|)
    requires Is(h, name, Failed, i) && Failures(h, name, 0, i + 1) == 3
    ensures now < h[i].at + 60.0 ==> Refuses(Replay(h, name), now)
  {
    var t := ThreeFailuresTrip(h, name, 0, i + 1);
    FailuresSplit(h, name, 0, t, i);
    FailuresSplit(h, name, 0, Since(h, name, t), t);
    NoFailures(h, name, t, i);
    assert OpenTrip(h, name, i, |h|);
    RefusesIffOpenTrip(h, name, now);
  }

  /** The count is that of the failures behind the last success, trip or check past a deadline. */
  lemma CountIsStreak(h: seq<Event>, name: string)
    requires forall i | 0 <= i < |h| :: h[i].at >= 0.0
    ensures Replay(h, name).n == Failures(h, name, Since(h, name, |h|), |h|)
    ensures NoSuccess(h, name, Since(h, name, |h|), |h|)
  {
    assert h[..|h|] == h;
    ReplayReads(h, name, |h|);
    NoSuccessSince(h, name, |h|);
  }

  /** It takes three failures with no success among them to open the breaker. */
  lemma TripIsThirdFailure(h: seq<Event>, name: string, i: nat) returns (k: nat)
    requires i < |h| && Trips(h, name, i)
    ensures k <= i && NoSuccess(h, name, k, i + 1) && Failures(h, name, k, i + 1) == 3
  {
    k := Since(h, name, i);
    NoSuccessSince(h, name, i);
  }

  lemma {:induction false} NoSuccessSince(h: seq<Event>, name: string, j: nat)
    requires j <= |h|
    ensures NoSuccess(h, name, Since(h, name, j), j)
  {
    if j > 0 {
      NoSuccessSince(h, name, j - 1);
    }
  }
}

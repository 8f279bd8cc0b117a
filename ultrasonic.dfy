/**
 * The distance poller (my-app/app/components/ultrasonic.tsx): on mount it
 * polls `/py/distance` at once and then every 500 ms, each settled poll sets
 * the reading, and unmount clears the interval. Nothing tracks polls in flight.
 *
 * A reading is `null` until a poll lands; a poll whose body lacks
 * `distance_cm` (the server's `{"error": ...}` payloads) sets it to `undefined`.
 */
module Ultrasonic {
  import opened Wrappers

  const PollIntervalMs := 500
  const DistancePath := "/py/distance"

  datatype Reading = Null | Undefined | Cm(value: real)

  /** How one poll settles: a parsed body (with or without `distance_cm`), or
      a fetch or `response.json()` that threw. */
  datatype PollOutcome = Body(distanceCm: Option<real>) | Threw

  /** `polls` counts the GET requests started. */
  datatype PollerState = PollerState(distance: Reading, intervalActive: bool, polls: nat)

  const Initial := PollerState(Null, false, 0)

  /** What the page shows for a reading. */
  datatype Label = Dashes | Shows(reading: Reading)

  function LabelOf(r: Reading): (l: Label)
    ensures l.Dashes? <==> r.Null?
    ensures l.Shows? ==> l.reading == r
  {
    if r != Null then Shows(r) else Dashes
  }

  /** `setDistance(data.distance_cm)` on a parsed body; nothing when it threw. */
  function ReadingAfter(r: Reading, o: PollOutcome): Reading {
    match o
    case Body(None) => Undefined
    case Body(Some(cm)) => Cm(cm)
    case Threw => r
  }

  datatype Event = Mount | Tick | Settle(outcome: PollOutcome) | Unmount

  function Apply(s: PollerState, e: Event): PollerState {
    match e
    case Mount => s.(intervalActive := true, polls := s.polls + 1)
    case Tick => if s.intervalActive then s.(polls := s.polls + 1) else s
    case Settle(o) => s.(distance := ReadingAfter(s.distance, o))
    case Unmount => s.(intervalActive := false)
  }

  function Run(s: PollerState, evs: seq<Event>): PollerState
    decreases |evs|
  {
    if evs == [] then s else Apply(Run(s, evs[..|evs| - 1]), evs[|evs| - 1])
  }

  function Ticks(n: nat): (ts: seq<Event>)
    ensures |ts| == n && forall i | 0 <= i < n :: ts[i] == Tick
  {
    if n == 0 then [] else Ticks(n - 1) + [Tick]
  }

  predicate Lands(e: Event) {
    e.Settle? && e.outcome.Body?
  }

  // ---------------------------------------------------------------------
  // the reading

  /** A parsed body sets the reading to its `distance_cm` verbatim, `undefined`
      when absent, even after unmount; a thrown poll leaves the reading. */
  lemma SettleSetsReading(s: PollerState, o: PollOutcome)
    ensures o == Body(None) ==> Apply(s, Settle(o)).distance == Undefined
    ensures o.Body? && o.distanceCm.Some? ==> Apply(s, Settle(o)).distance == Cm(o.distanceCm.value)
    ensures o.Threw? ==> Apply(s, Settle(o)).distance == s.distance
    ensures Apply(s, Settle(o)).intervalActive == s.intervalActive && Apply(s, Settle(o)).polls == s.polls
  {
  }

  /** The reading is the one carried by the latest poll whose body was parsed. */
  lemma {:induction false} ReadingIsLatestBody(s: PollerState, evs: seq<Event>, k: nat)
    requires k < |evs| && Lands(evs[k])
    requires forall j | k < j < |evs| :: !Lands(evs[j])
    ensures var cm := evs[k].outcome.distanceCm;
      Run(s, evs).distance == if cm.Some? then Cm(cm.value) else Undefined
    decreases |evs|
  {
    var n := |evs| - 1;
    if k < n {
      var pre := evs[..n];
      assert pre[k] == evs[k];
      forall j | k < j < |pre| ensures !Lands(pre[j]) {
        assert pre[j] == evs[j];
      }
      ReadingIsLatestBody(s, pre, k);
      assert !Lands(evs[n]);
    }
  }

  /** Without a parsed body the reading keeps its value; from the start it stays
      null and the page shows "-- cm". */
  lemma {:induction false} ReadingWithoutBody(s: PollerState, evs: seq<Event>)
    requires forall i | 0 <= i < |evs| :: !Lands(evs[i])
    ensures Run(s, evs).distance == s.distance
    decreases |evs|
  {
    if evs != [] {
      var n := |evs| - 1;
      assert forall i | 0 <= i < n :: evs[..n][i] == evs[i];
      ReadingWithoutBody(s, evs[..n]);
      assert !Lands(evs[n]);
    }
  }

  /** 42 cm, then a poll that throws keeps 42, then 17 cm; whereas the
      server's echo-timeout payload replaces 42 by `undefined`. */
  lemma Scenario()
    ensures Run(Initial, [Mount, Settle(Body(Some(42.0)))]).distance == Cm(42.0)
    ensures Run(Initial, [Mount, Settle(Body(Some(42.0))), Tick, Settle(Threw)]).distance == Cm(42.0)
    ensures Run(Initial, [Mount, Settle(Body(Some(42.0))), Tick, Settle(Threw), Tick, Settle(Body(Some(17.0)))]).distance == Cm(17.0)
    ensures Run(Initial, [Mount, Settle(Body(Some(42.0))), Tick, Settle(Body(None))]).distance == Undefined
    ensures LabelOf(Initial.distance) == Dashes && LabelOf(Undefined) == Shows(Undefined)
  {
    var e1 := [Mount, Settle(Body(Some(42.0)))];
    var e2 := e1 + [Tick, Settle(Threw)];
    var e3 := e2 + [Tick, Settle(Body(Some(17.0)))];
    var e4 := e1 + [Tick, Settle(Body(None))];
    assert e2[..3] == e1 + [Tick];
    assert (e1 + [Tick])[..2] == e1;
    assert e3[..5] == e2 + [Tick];
    assert (e2 + [Tick])[..4] == e2;
    assert e4[..3] == e1 + [Tick];
  }

  // ---------------------------------------------------------------------
  // the interval

  /** While the interval is set every tick starts a poll, however many are
      still in flight. */
  lemma {:induction false} EveryTickPolls(s: PollerState, n: nat)
    requires s.intervalActive
    ensures Run(s, Ticks(n)).polls == s.polls + n
    ensures Run(s, Ticks(n)).intervalActive
    decreases n
  {
    if n > 0 {
      assert Ticks(n)[..n - 1] == Ticks(n - 1);
      EveryTickPolls(s, n - 1);
    }
  }

  /** Mount polls at once, then once per tick. */
  lemma MountThenTicks(n: nat)
    ensures Run(Initial, [Mount] + Ticks(n)).polls == n + 1
  {
    var s1 := Apply(Initial, Mount);
    assert Run(Initial, [Mount]) == s1 by {
      assert [Mount][..0] == [];
    }
    MountPrefix(n);
    EveryTickPolls(s1, n);
  }

  lemma {:induction false} MountPrefix(n: nat)
    ensures Run(Initial, [Mount] + Ticks(n)) == Run(Apply(Initial, Mount), Ticks(n))
    decreases n
  {
    if n == 0 {
      assert [Mount] + Ticks(0) == [Mount];
      assert [Mount][..0] == [];
    } else {
      MountPrefix(n - 1);
      assert ([Mount] + Ticks(n))[..n] == [Mount] + Ticks(n - 1);
      assert Ticks(n)[..n - 1] == Ticks(n - 1);
    }
  }

  /** After unmount no poll starts until the next mount; settling polls may
      still change the reading. */
  lemma {:induction false} NoPollsAfterUnmount(s: PollerState, evs: seq<Event>)
    requires !s.intervalActive
    requires forall i | 0 <= i < |evs| :: evs[i] != Mount
    ensures Run(s, evs).polls == s.polls && !Run(s, evs).intervalActive
    decreases |evs|
  {
    if evs != [] {
      var n := |evs| - 1;
      assert forall i | 0 <= i < n :: evs[..n][i] == evs[i];
      NoPollsAfterUnmount(s, evs[..n]);
    }
  }

  // ---------------------------------------------------------------------
  // the component

  class UltrasonicSensor {
    var distance: Reading
    var intervalActive: bool
    var polls: nat

    function State(): PollerState
      reads this
    {
      PollerState(distance, intervalActive, polls)
    }

    constructor ()
      ensures State() == Initial
      ensures distance == Null && LabelOf(distance) == Dashes
    {
      distance := Null;
      intervalActive := false;
      polls := 0;
    }

    /** `fetchDistance` up to its `await`: one GET is started. */
    method StartPoll()
      modifies this
      ensures polls == old(polls) + 1
      ensures distance == old(distance) && intervalActive == old(intervalActive)
    {
      polls := polls + 1;
    }

    method OnMount()
      modifies this
      ensures State() == Apply(old(State()), Mount)
    {
      StartPoll();
      intervalActive := true;
    }

    method OnTick()
      modifies this
      ensures State() == Apply(old(State()), Tick)
    {
      if intervalActive {
        StartPoll();
      }
    }

    /** The rest of `fetchDistance` once its poll settles. */
    method OnPollSettled(o: PollOutcome)
      modifies this
      ensures State() == Apply(old(State()), Settle(o))
    {
      match o {
        case Body(cm) =>
          distance := if cm.Some? then Cm(cm.value) else Undefined;
        case Threw =>
      }
    }

    method OnUnmount()
      modifies this
      ensures State() == Apply(old(State()), Unmount)
    {
      intervalActive := false;
    }
  }
}

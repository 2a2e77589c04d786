/** The cooperative health probe: when the scheduler falls back, and when it comes back early. */
module HealthProbe {
  import opened Options

  const UNREACHABLE_MS: int := 60_000
  const INTERVAL_MS: int := 30_000
  const OVERLOAD_MS: int := 30_000
  const REPROBES: nat := 3

  /** A probe result, or an overload signal from the operator. */
  datatype Event = Success(now: int) | Failure(now: int) | Overload(now: int)

  datatype State = State(successes: nat, failingSince: Option<int>, fallbackUntil: int)

  const INIT := State(0, None, 0)

  function Apply(s: State, e: Event): State {
    match e
    case Success(now) =>
      State(s.successes + 1, None,
            if s.successes + 1 >= REPROBES && s.fallbackUntil > now then 0 else s.fallbackUntil)
    case Failure(now) =>
      var since := if s.failingSince.Some? then s.failingSince.value else now;
      var until := now + INTERVAL_MS * 2;
      State(0, Some(since),
            if now - since > UNREACHABLE_MS && until > s.fallbackUntil then until else s.fallbackUntil)
    case Overload(now) => s.(fallbackUntil := now + OVERLOAD_MS)
  }

  function Run(events: seq<Event>): State {
    if events == [] then INIT else Apply(Run(events[..|events| - 1]), events[|events| - 1])
  }

  /** Probes only, overload signals left out. */
  function Probes(events: seq<Event>): seq<Event> {
    if events == [] then []
    else
      var e := events[|events| - 1];
      Probes(events[..|events| - 1]) + (if e.Overload? then [] else [e])
  }

  /** How many of the last probes succeeded in a row. */
  ghost predicate TrailingSuccesses(probes: seq<Event>, n: nat) {
    && n <= |probes|
    && (forall i :: |probes| - n <= i < |probes| ==> probes[i].Success?)
    && (n < |probes| ==> probes[|probes| - n - 1].Failure?)
  }

  /** When the unbroken failures at the end of `probes` began, if there are any. */
  ghost predicate FailingSince(probes: seq<Event>, since: Option<int>) {
    match since
    case None => probes == [] || probes[|probes| - 1].Success?
    case Some(t) => exists i :: FailureRunFrom(probes, i) && probes[i].now == t
  }

  ghost predicate FailureRunFrom(probes: seq<Event>, i: int) {
    && 0 <= i < |probes|
    && (forall j :: i <= j < |probes| ==> probes[j].Failure?)
    && (i > 0 ==> probes[i - 1].Success?)
  }

  /** The failures at the end of `probes` have gone on for more than a minute. */
  ghost predicate LongFailure(probes: seq<Event>, now: int) {
    exists i :: FailureRunFrom(probes, i) && now - probes[i].now > 60_000
  }

  /** The last three probes all succeeded. */
  ghost predicate ThreeSuccesses(probes: seq<Event>) {
    |probes| >= 3 && forall i :: |probes| - 3 <= i < |probes| ==> probes[i].Success?
  }

  lemma {:induction false} OnlyProbes(events: seq<Event>)
    ensures forall e <- Probes(events) :: !e.Overload?
  {
    if events != [] { OnlyProbes(events[..|events| - 1]); }
  }

  /** The two counters are exactly the trailing runs of the probe history. */
  lemma {:induction false} TraceInvariant(events: seq<Event>)
    ensures TrailingSuccesses(Probes(events), Run(events).successes)
    ensures FailingSince(Probes(events), Run(events).failingSince)
  {
    if events != [] {
      var pre, e := events[..|events| - 1], events[|events| - 1];
      TraceInvariant(pre);
      OnlyProbes(pre);
      ProbeKeeps(Probes(pre), Run(pre), e);
    }
  }

  lemma {:induction false} ProbeKeeps(probes: seq<Event>, s: State, e: Event)
    requires TrailingSuccesses(probes, s.successes) && FailingSince(probes, s.failingSince)
    requires forall p <- probes :: !p.Overload?
    ensures var all := probes + (if e.Overload? then [] else [e]);
            TrailingSuccesses(all, Apply(s, e).successes) && FailingSince(all, Apply(s, e).failingSince)
  {
    var all := probes + (if e.Overload? then [] else [e]);
    match e
    case Overload(_) => assert all == probes;
    case Success(_) =>
    case Failure(now) =>
      if s.failingSince.Some? {
        var i :| FailureRunFrom(probes, i) && probes[i].now == s.failingSince.value;
        assert FailureRunFrom(all, i);
      } else {
        assert FailureRunFrom(all, |probes|);
      }
  }

  lemma {:induction false} RunSnoc(events: seq<Event>, e: Event)
    ensures Run(events + [e]) == Apply(Run(events), e)
  {
    assert (events + [e])[..|events|] == events;
  }

  lemma {:induction false} NeverNegative(events: seq<Event>)
    requires forall i :: 0 <= i < |events| ==> events[i].now > 0
    ensures Run(events).fallbackUntil >= 0
  {
    if events != [] { NeverNegative(events[..|events| - 1]); }
  }

  /** A probe lengthens the fallback only after more than a minute of unbroken failures. */
  lemma {:induction false} ForcedOnlyWhenUnreachable(events: seq<Event>, e: Event)
    requires forall i :: 0 <= i < |events| ==> events[i].now > 0
    requires !e.Overload? && Run(events + [e]).fallbackUntil > Run(events).fallbackUntil
    ensures e.Failure? && LongFailure(Probes(events + [e]), e.now)
  {
    RunSnoc(events, e);
    NeverNegative(events);
    LengthenedByFailure(Run(events), e);
    TraceInvariant(events + [e]);
  }

  lemma {:induction false} LengthenedByFailure(s: State, e: Event)
    requires s.fallbackUntil >= 0 && !e.Overload? && Apply(s, e).fallbackUntil > s.fallbackUntil
    ensures e.Failure? && Apply(s, e).failingSince.Some?
    ensures e.now - Apply(s, e).failingSince.value > 60_000
  {
  }

  /** A probe ends the fallback early only if the last three probes all succeeded. */
  lemma {:induction false} EndedOnlyAfterThreeSuccesses(events: seq<Event>, e: Event)
    requires !e.Overload? && Run(events + [e]).fallbackUntil < Run(events).fallbackUntil
    ensures ThreeSuccesses(Probes(events + [e]))
  {
    RunSnoc(events, e);
    ShortenedBySuccess(Run(events), e);
    TraceInvariant(events + [e]);
    LastThree(Probes(events + [e]), Run(events + [e]).successes);
  }

  lemma {:induction false} ShortenedBySuccess(s: State, e: Event)
    requires !e.Overload? && Apply(s, e).fallbackUntil < s.fallbackUntil
    ensures Apply(s, e).successes >= 3
  {}

  lemma {:induction false} LastThree(probes: seq<Event>, n: nat)
    requires TrailingSuccesses(probes, n) && n >= 3
    ensures ThreeSuccesses(probes)
  {}

  /** Three successes in a row during a fallback do end it. */
  lemma {:induction false} ThreeSuccessesEndFallback(events: seq<Event>, e: Event)
    requires e.Success? && Run(events).fallbackUntil > e.now > 0
    requires ThreeSuccesses(Probes(events + [e]))
    ensures Run(events + [e]).fallbackUntil == 0
  {
    RunSnoc(events, e);
    TraceInvariant(events + [e]);
    LongestRun(Probes(events + [e]), Run(events + [e]).successes);
  }

  lemma {:induction false} LongestRun(probes: seq<Event>, n: nat)
    requires TrailingSuccesses(probes, n)
    requires ThreeSuccesses(probes)
    ensures n >= 3
  {
  }

  /**
   The fallback after any event of any run, from the history alone.  A failure more than a minute into an unbroken
   run of them lasts until a minute from now, or longer if it already did; three successes end it.
   */
  lemma {:induction false} FallbackExactly(events: seq<Event>, e: Event)
    ensures var before, probes := Run(events).fallbackUntil, Probes(events + [e]);
            Run(events + [e]).fallbackUntil
            == match e
               case Overload(now) => now + 30_000
               case Failure(now) => if LongFailure(probes, now) && before < now + 60_000 then now + 60_000 else before
               case Success(now) => if ThreeSuccesses(probes) && before > now then 0 else before
  {
    RunSnoc(events, e);
    TraceInvariant(events + [e]);
    match e
    case Overload(_) =>
    case Failure(now) => LongSince(Probes(events + [e]), Run(events + [e]).failingSince, now);
    case Success(_) =>
      if ThreeSuccesses(Probes(events + [e])) { LongestRun(Probes(events + [e]), Run(events + [e]).successes); }
  }

  /** A failure run starts at one place only. */
  lemma {:induction false} LongSince(probes: seq<Event>, since: Option<int>, now: int)
    requires since.Some? && FailingSince(probes, since)
    ensures LongFailure(probes, now) <==> now - since.value > 60_000
  {
    var i :| FailureRunFrom(probes, i) && probes[i].now == since.value;
    forall j | FailureRunFrom(probes, j) ensures j == i {}
  }

  /** A pending fallback was set by an overload signal, or by a failure more than a minute into a failure run. */
  ghost predicate Cause(events: seq<Event>, i: nat, until: int) {
    && i < |events|
    && match events[i]
       case Overload(now) => until == now + 30_000
       case Failure(now) => until == now + 60_000 && LongFailure(Probes(events[..i + 1]), now)
       case Success(_) => false
  }

  lemma {:induction false} FallbackHasCause(events: seq<Event>)
    requires forall i :: 0 <= i < |events| ==> events[i].now > 0
    requires Run(events).fallbackUntil != 0
    ensures exists i :: Cause(events, i, Run(events).fallbackUntil)
  {
    var n := |events| - 1;
    var pre, e := events[..n], events[n];
    assert pre + [e] == events && events[..n + 1] == events;
    RunSnoc(pre, e);
    if Run(events).fallbackUntil == Run(pre).fallbackUntil {
      FallbackHasCause(pre);
      var i :| Cause(pre, i, Run(pre).fallbackUntil);
      assert pre[..i + 1] == events[..i + 1];
      assert Cause(events, i, Run(events).fallbackUntil);
    } else {
      if e.Failure? { ForcedOnlyWhenUnreachable(pre, e); }
      assert Cause(events, n, Run(events).fallbackUntil);
    }
  }

  /** Times are positive and do not go back. */
  ghost predicate ClockForward(events: seq<Event>) {
    && (forall i :: 0 <= i < |events| ==> events[i].now > 0)
    && (forall i, j :: 0 <= i < j < |events| ==> events[i].now <= events[j].now)
  }

  /** The pending fallback was forced by a failure less than 30 s before `now`. */
  ghost predicate ForcedLately(events: seq<Event>, now: int) {
    exists i: nat :: Cause(events, i, Run(events).fallbackUntil) && events[i].Failure?
                && now < events[i].now + 30_000
  }

  /**
   An overload signal resets the window instead of extending it.  It cuts the pending fallback short
   exactly when a failure forced that fallback less than 30 s ago.
   */
  lemma {:induction false} OverloadShortensExactly(events: seq<Event>, now: int)
    requires ClockForward(events + [Overload(now)])
    ensures Run(events + [Overload(now)]).fallbackUntil < Run(events).fallbackUntil <==> ForcedLately(events, now)
  {
    var all := events + [Overload(now)];
    RunSnoc(events, Overload(now));
    forall i | 0 <= i < |events| ensures 0 < events[i].now <= now {
      assert all[i] == events[i] && all[|events|].now == now;
    }
    var until := Run(events).fallbackUntil;
    if now + 30_000 < until {
      assert all[|events|].now > 0;
      FallbackHasCause(events);
      var i: nat :| Cause(events, i, until);
      assert events[i].now <= now;
    }
  }

  /** One such run: a window forced at 70 s, and a signal a millisecond later. */
  lemma {:induction false} OverloadShortensForcedWindow()
    ensures var forced := [Failure(1), Failure(70_000)];
            Run(forced).fallbackUntil == 130_000 && Run(forced + [Overload(70_001)]).fallbackUntil == 100_001
  {
    RunSnoc([], Failure(1));
    RunSnoc([Failure(1)], Failure(70_000));
    RunSnoc([Failure(1), Failure(70_000)], Overload(70_001));
    assert [] + [Failure(1)] == [Failure(1)] && [Failure(1)] + [Failure(70_000)] == [Failure(1), Failure(70_000)];
  }

  /** The probe's variables as the program keeps them; the clock is past 0, so no time reads as unset. */
  class Probe {
    var successes: nat
    var failingSince: Option<int>
    var overloadFallbackUntil: int
    var okChecks: nat
    var failChecks: nat

    ghost function St(): State
      reads this
    {
      State(successes, failingSince, overloadFallbackUntil)
    }

    constructor ()
      ensures St() == INIT && okChecks == failChecks == 0
    {
      successes, failingSince, overloadFallbackUntil, okChecks, failChecks := 0, None, 0, 0, 0;
    }

    method Check(ok: bool, now: int)
      modifies this
      ensures St() == Apply(old(St()), if ok then Success(now) else Failure(now))
      ensures okChecks == old(okChecks) + (if ok then 1 else 0)
      ensures failChecks == old(failChecks) + (if ok then 0 else 1)
    {
      if ok {
        okChecks := okChecks + 1;
        successes := successes + 1;
        failingSince := None;
        if successes >= REPROBES && overloadFallbackUntil > now {
          overloadFallbackUntil := 0;
        }
      } else {
        failChecks := failChecks + 1;
        successes := 0;
        if failingSince.None? {
          failingSince := Some(now);
        }
        if now - failingSince.value > UNREACHABLE_MS {
          var newUntil := now + INTERVAL_MS * 2;
          if newUntil > overloadFallbackUntil {
            overloadFallbackUntil := newUntil;
          }
        }
      }
    }

    method OverloadSeen(now: int)
      modifies this
      ensures St() == Apply(old(St()), Overload(now))
    {
      overloadFallbackUntil := now + OVERLOAD_MS;
    }
  }
}

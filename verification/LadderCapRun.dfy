/** Runs on which the cap hides two hard bans, so that the third within seven days is not made permanent. */
module LadderCapRun {
  import opened Options
  import opened Trust
  import opened LadderModel
  import opened LadderSafety
  import opened LadderCap
  import opened LadderCapRule

  /** Throttles further apart than the five-minute window never add up. */
  const GAP: int := 5 * MINUTE + 1000

  function Hard(now: int): Offense { Call(now, 0.0, [REASON], 4) }

  function Soft(now: int): Offense { Call(now, 0.0, [], 4) }

  /** Two hard bans, then `k` offenses that are only throttled. */
  function Base(k: nat): seq<Offense> {
    if k == 0 then [Hard(0)] + [Hard(1)] else Base(k - 1) + [Soft(k * GAP)]
  }

  function LastAt(k: nat): int { if k == 0 then 1 else k * GAP }

  lemma {:induction false} BaseCalls(k: nat)
    ensures |Base(k)| == k + 2
    ensures forall i :: 0 <= i < k + 2 ==> Base(k)[i].key == KEY && 0 <= Base(k)[i].now <= LastAt(k)
    ensures forall i, j :: 0 <= i < j < k + 2 ==> Base(k)[i].now <= Base(k)[j].now
  {
    if k > 0 { BaseCalls(k - 1); }
  }

  // ---- one more call --------------------------------------------------------------------

  /** On fraud evidence a hard ban is decided at once; fewer than two others in sight leave it at tier 3. */
  lemma {:induction false} HardEntries(view: History, o: Offense)
    requires o.fraud != [] && view != [] && view[0] == Entry(o, 1, DEFAULTS)
    requires CountRecent(view, 3, o.now - 7 * DAY, None) <= 1
    ensures var s := Summarise(view, o.now);
            Decide(s, o, DEFAULTS) == 3 && Entries(o, s, DEFAULTS) == [Entry(o, 3, DEFAULTS)] + [Entry(o, 1, DEFAULTS)]
  {
    HardStep(Summarise(view, o.now), o);
  }

  lemma {:induction false} HardStep(s: Summary, o: Offense)
    requires o.fraud != [] && s.throttles >= 1 && s.hardBans <= 1
    ensures FirstTier(s, o, DEFAULTS) == 3 && SecondTier(s, o, DEFAULTS) == 3 && Decide(s, o, DEFAULTS) == 3
  {}

  /** A throttle counts only itself when everything else is older than five minutes. */
  lemma {:induction false} SoftEntries(view: History, o: Offense)
    requires o.fraud == [] && view != [] && view[0] == Entry(o, 1, DEFAULTS)
    requires forall i :: 1 <= i < |view| ==> view[i].ts < o.now - 5 * MINUTE
    ensures Entries(o, Summarise(view, o.now), DEFAULTS) == [Entry(o, 1, DEFAULTS)]
  {
    OldCountsNothing(view[1..], 1, o.now - 5 * MINUTE, None);
    SignatureBurstSubsumed(view, o);
    SoftTier(Summarise(view, o.now), o);
  }

  lemma {:induction false} SoftTier(s: Summary, o: Offense)
    requires o.fraud == [] && s.throttles <= 1
    requires RateTrips(s, o, DEFAULTS) <==> s.throttles >= 3 * Multiplier(o.score)
    ensures FirstTier(s, o, DEFAULTS) == 1 && SecondTier(s, o, DEFAULTS) == 1 && Decide(s, o, DEFAULTS) == 1
    ensures Entries(o, s, DEFAULTS) == [Entry(o, 1, DEFAULTS)]
  {}

  // ---- what the runs have stored --------------------------------------------------------

  /** The newest `k` events are throttles, two hard bans lie behind them, and nothing is later than `last`. */
  ghost predicate Looks(u: History, k: nat, last: int, cutoff: int) {
    && |u| >= k && (forall i :: 0 <= i < k ==> u[i].tier == 1)
    && (forall i :: 0 <= i < |u| ==> u[i].ts <= last)
    && CountRecent(u, 3, cutoff, None) == 2
  }

  lemma {:induction false} ConsCounts(e: Event, u: History, cutoff: int)
    ensures CountRecent([e] + u, 3, cutoff, None)
         == CountRecent(u, 3, cutoff, None) + (if e.tier == 3 && e.ts >= cutoff then 1 else 0)
  {
    assert ([e] + u)[1..] == u;
  }

  lemma {:induction false} TwoMore(e: Event, f: Event, u: History, cutoff: int)
    ensures CountRecent([e] + [f] + u, 3, cutoff, None)
         == CountRecent(u, 3, cutoff, None) + (if e.tier == 3 && e.ts >= cutoff then 1 else 0)
                                            + (if f.tier == 3 && f.ts >= cutoff then 1 else 0)
  {
    assert [e] + [f] + u == [e] + ([f] + u);
    ConsCounts(e, [f] + u, cutoff);
    ConsCounts(f, u, cutoff);
  }

  lemma {:induction false} HardStored(base: seq<Offense>, o: Offense)
    requires Follows(base, o) && o.fraud != [] && |Stored(base, DEFAULTS, KEY)| < CAP
    requires CountRecent(Stored(base, DEFAULTS, KEY), 3, o.now - 7 * DAY, None) <= 1
    ensures Stored(base + [o], DEFAULTS, KEY)
         == [Entry(o, 3, DEFAULTS)] + [Entry(o, 1, DEFAULTS)] + Stored(base, DEFAULTS, KEY)
  {
    var u := Stored(base, DEFAULTS, KEY);
    StoredNext(base, o, DEFAULTS);
    ConsCounts(Entry(o, 1, DEFAULTS), u, o.now - 7 * DAY);
    HardEntries([Entry(o, 1, DEFAULTS)] + u, o);
  }

  lemma {:induction false} FirstHard(cutoff: int)
    requires cutoff <= 0
    ensures var u := Stored([Hard(0)], DEFAULTS, KEY);
            |u| == 2 && CountRecent(u, 3, cutoff, None) == 1 && forall i :: 0 <= i < |u| ==> u[i].ts <= 1
  {
    forall i ensures NoLaterAt([], KEY, 0, i) {}
    HardStored([], Hard(0));
    assert [] + [Hard(0)] == [Hard(0)];
    TwoMore(Entry(Hard(0), 3, DEFAULTS), Entry(Hard(0), 1, DEFAULTS), [], cutoff);
  }

  lemma {:induction false} SecondHard(base: seq<Offense>)
    requires base == [Hard(0)] && |Stored(base, DEFAULTS, KEY)| == 2
    requires CountRecent(Stored(base, DEFAULTS, KEY), 3, 1 - 7 * DAY, None) == 1
    ensures Stored(base + [Hard(1)], DEFAULTS, KEY)
         == [Entry(Hard(1), 3, DEFAULTS)] + [Entry(Hard(1), 1, DEFAULTS)] + Stored(base, DEFAULTS, KEY)
  {
    forall i ensures NoLaterAt(base, KEY, 1, i) {}
    forall i, j ensures ForwardAt(base, KEY, i, j) {}
    HardStored(base, Hard(1));
  }

  lemma {:induction false} FirstTwo(cutoff: int)
    requires cutoff <= 0
    ensures Looks(Stored(Base(0), DEFAULTS, KEY), 0, 1, cutoff)
  {
    FirstHard(cutoff);
    FirstHard(1 - 7 * DAY);
    SecondHard([Hard(0)]);
    SecondLooks(Stored([Hard(0)], DEFAULTS, KEY), cutoff);
  }

  lemma {:induction false} SecondLooks(u: History, cutoff: int)
    requires cutoff <= 0 && CountRecent(u, 3, cutoff, None) == 1 && forall i :: 0 <= i < |u| ==> u[i].ts <= 1
    ensures Looks([Entry(Hard(1), 3, DEFAULTS)] + [Entry(Hard(1), 1, DEFAULTS)] + u, 0, 1, cutoff)
  {
    TwoMore(Entry(Hard(1), 3, DEFAULTS), Entry(Hard(1), 1, DEFAULTS), u, cutoff);
  }

  lemma {:induction false} SoftStored(base: seq<Offense>, o: Offense)
    requires Follows(base, o) && o.fraud == []
    requires var u := Stored(base, DEFAULTS, KEY); forall i :: 0 <= i < |u| ==> u[i].ts < o.now - 5 * MINUTE
    ensures Stored(base + [o], DEFAULTS, KEY) == [Entry(o, 1, DEFAULTS)] + Stored(base, DEFAULTS, KEY)
  {
    StoredNext(base, o, DEFAULTS);
    SoftEntries(Capped([Entry(o, 1, DEFAULTS)] + Stored(base, DEFAULTS, KEY)), o);
  }

  lemma {:induction false} BaseLooks(k: nat, cutoff: int)
    requires cutoff <= 0
    ensures Looks(Stored(Base(k), DEFAULTS, KEY), k, LastAt(k), cutoff)
  {
    if k == 0 {
      FirstTwo(cutoff);
    } else {
      BaseLooks(k - 1, cutoff);
      NextLooks(Base(k - 1), k - 1, cutoff);
    }
  }

  lemma {:induction false} NextLooks(base: seq<Offense>, k: nat, cutoff: int)
    requires base == Base(k) && Looks(Stored(base, DEFAULTS, KEY), k, LastAt(k), cutoff)
    ensures Looks(Stored(base + [Soft((k + 1) * GAP)], DEFAULTS, KEY), k + 1, (k + 1) * GAP, cutoff)
  {
    var o := Soft((k + 1) * GAP);
    FollowsBase(k, base, o);
    SoftLooks(base, o, k, LastAt(k), cutoff);
  }

  lemma {:induction false} SoftLooks(base: seq<Offense>, o: Offense, k: nat, last: int, cutoff: int)
    requires Follows(base, o) && o.fraud == [] && Looks(Stored(base, DEFAULTS, KEY), k, last, cutoff)
    requires last < o.now - 5 * MINUTE
    ensures Looks(Stored(base + [o], DEFAULTS, KEY), k + 1, o.now, cutoff)
  {
    SoftStored(base, o);
    LooksCons(Entry(o, 1, DEFAULTS), Stored(base, DEFAULTS, KEY), k, last, cutoff);
  }

  lemma {:induction false} LooksCons(e: Event, u: History, k: nat, last: int, cutoff: int)
    requires Looks(u, k, last, cutoff) && e.tier == 1 && last <= e.ts
    ensures Looks([e] + u, k + 1, e.ts, cutoff)
  {
    ConsCounts(e, u, cutoff);
  }

  // ---- the third hard ban ---------------------------------------------------------------

  function HidingRun(k: nat): seq<Offense> { Base(k) + [Hard((k + 1) * GAP)] }

  /**
   Two hard bans, at least ninety-nine spaced throttles and a third hard ban, all within seven days: three
   hard-ban decisions, tier 4 allowed, and still no permanent ban.
   */
  lemma {:induction false} CapHidesHardBans(k: nat)
    requires k >= 99 && (k + 1) * GAP <= 7 * DAY
    ensures NotPromoted(HidingRun(k), k + 2, DEFAULTS)
  {
    var o, base := Hard((k + 1) * GAP), Base(k);
    FollowsBase(k, base, o);
    BaseLooks(k, o.now - 7 * DAY);
    HidingBreaksRule(base, o, DEFAULTS, 2, k);
  }

  lemma {:induction false} FollowsBase(k: nat, base: seq<Offense>, o: Offense)
    requires base == Base(k) && o.key == KEY && o.reason == REASON && o.now == (k + 1) * GAP
    ensures Follows(base, o) && |base| == k + 2 && LastAt(k) <= o.now
  {
    BaseCalls(k);
    forall i ensures NoLaterAt(base, KEY, o.now, i) {}
    forall i, j ensures ForwardAt(base, KEY, i, j) {}
  }
}

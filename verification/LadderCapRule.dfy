/** When the documented rule for permanent bans holds on every run, whatever the cap drops. */
module LadderCapRule {
  import opened Options
  import opened Trust
  import opened LadderModel
  import opened LadderSafety
  import opened LadderCap

  const KEY: string := "pk:agent"
  const REASON: string := "wash-payment"

  function Call(now: int, score: real, fraud: seq<string>, tierMax: int): Offense {
    Offense(KEY, REASON, now, Finite(score), fraud, tierMax, 0, None)
  }

  // ---- one more call --------------------------------------------------------------------

  /** `base + [o]` has a forward clock, and `o` is its last call. */
  ghost predicate Follows(base: seq<Offense>, o: Offense) {
    && Accepted(o) && o.key == KEY
    && NoLater(base, KEY, o.now) && KeyForward(base, KEY)
  }

  lemma {:induction false} FollowsTimely(base: seq<Offense>, o: Offense)
    requires Follows(base, o)
    ensures var calls := base + [o]; Timely(calls, |base|) && calls[|base|] == o && calls[..|base|] == base
  {
    var calls := base + [o];
    assert calls[..|base| + 1] == calls;
    forall i, j ensures ForwardAt(calls, KEY, i, j) {
      assert ForwardAt(base, KEY, i, j) && NoLaterAt(base, KEY, o.now, i);
    }
  }

  /** What the last call stores, and what it decides on. */
  lemma {:induction false} StoredNext(base: seq<Offense>, o: Offense, t: Thresholds)
    requires Follows(base, o) && t.historyTtl >= 7 * DAY
    ensures var u := Stored(base, t, KEY);
            var s := Summarise(Capped([Entry(o, 1, t)] + u), o.now);
            && Stored(base + [o], t, KEY) == Entries(o, s, t) + u
            && DecisionAt(base + [o], |base|, t) == Decide(s, o, t)
  {
    FollowsTimely(base, o);
    SeenSummary(base + [o], |base|, t);
  }

  /** On fraud evidence step 1 decides a hard ban at once. */
  lemma {:induction false} HardTier(u: History, o: Offense, t: Thresholds)
    requires o.fraud != []
    ensures var s := Summarise(Capped([Entry(o, 1, t)] + u), o.now);
            FirstTier(s, o, t) == 3 && SecondTier(s, o, t) == 3 && Decide(s, o, t) >= 3
  {
    var view := Capped([Entry(o, 1, t)] + u);
    assert view[0] == Entry(o, 1, t);
    OneCounts(view, 1, o.now - 5 * MINUTE);
  }

  lemma {:induction false} OneCounts(h: History, tier: nat, cutoff: int)
    requires h != [] && h[0].tier == tier && h[0].ts >= cutoff
    ensures CountRecent(h, tier, cutoff, None) >= 1
  {}

  lemma {:induction false} HardCounted(base: seq<Offense>, o: Offense, t: Thresholds, cutoff: int)
    requires Follows(base, o) && t.historyTtl >= 7 * DAY && o.fraud != [] && cutoff <= o.now
    ensures CountRecent(Stored(base + [o], t, KEY), 3, cutoff, None)
         == CountRecent(Stored(base, t, KEY), 3, cutoff, None) + 1
  {
    var u := Stored(base, t, KEY);
    StoredNext(base, o, t);
    HardTier(u, o, t);
    EntriesHard(o, Summarise(Capped([Entry(o, 1, t)] + u), o.now), t, u, cutoff);
  }

  // ---- the hiding call ------------------------------------------------------------------

  /** At least ninety-nine throttles came last, and `n` hard bans lie behind them. */
  ghost predicate Hiding(u: History, n: nat, k: nat, cutoff: int) {
    |u| >= k && (forall i :: 0 <= i < k ==> u[i].tier == 1) && CountRecent(u, 3, cutoff, None) == n
  }

  lemma {:induction false} NoHardBans(h: History, cutoff: int)
    requires forall i :: 0 <= i < |h| ==> h[i].tier == 1
    ensures CountRecent(h, 3, cutoff, None) == 0
  {
    if h != [] { NoHardBans(h[1..], cutoff); }
  }

  lemma {:induction false} NothingSeen(u: History, o: Offense, t: Thresholds, n: nat, k: nat, cutoff: int)
    requires Hiding(u, n, k, cutoff) && k >= 99
    ensures CountRecent(Capped([Entry(o, 1, t)] + u), 3, cutoff, None) == 0
  {
    var view := Capped([Entry(o, 1, t)] + u);
    forall i | 0 <= i < |view| ensures view[i].tier == 1 {
      if i > 0 { assert view[i] == u[i - 1]; }
    }
    NoHardBans(view, cutoff);
  }

  lemma {:induction false} HiddenDecision(base: seq<Offense>, o: Offense, t: Thresholds, n: nat, k: nat)
    requires Follows(base, o) && t.historyTtl >= 7 * DAY && o.fraud != [] && t.hardBans >= 2
    requires Hiding(Stored(base, t, KEY), n, k, o.now - 7 * DAY) && k >= 99
    ensures DecisionAt(base + [o], |base|, t) == 3
    ensures HardDecisions(base + [o], t, KEY, o.now - 7 * DAY) == n + 1
  {
    HardCounted(base, o, t, o.now - 7 * DAY);
    StoredHardBansAreDecisions(base + [o], t, KEY, o.now - 7 * DAY);
    HiddenTier(Stored(base, t, KEY), o, t, n, k);
    StoredNext(base, o, t);
  }

  lemma {:induction false} HiddenTier(u: History, o: Offense, t: Thresholds, n: nat, k: nat)
    requires o.fraud != [] && t.hardBans >= 2 && Hiding(u, n, k, o.now - 7 * DAY) && k >= 99
    ensures Decide(Summarise(Capped([Entry(o, 1, t)] + u), o.now), o, t) == 3
  {
    HardTier(u, o, t);
    NothingSeen(u, o, t, n, k, o.now - 7 * DAY);
  }

  /** The documented rule makes call `i` a permanent ban, and the program leaves it a hard ban. */
  ghost predicate NotPromoted(calls: seq<Offense>, i: nat, t: Thresholds) {
    Timely(calls, i) && RuleBans(calls, i, t) && DecisionAt(calls, i, t) == 3
  }

  lemma {:induction false} HidingBreaksRule(base: seq<Offense>, o: Offense, t: Thresholds, n: nat, k: nat)
    requires Follows(base, o) && t.historyTtl >= 7 * DAY && o.fraud != [] && PermanentAllowed(o)
    requires 2 <= t.hardBans <= n + 1
    requires Hiding(Stored(base, t, KEY), n, k, o.now - 7 * DAY) && k >= 99
    ensures NotPromoted(base + [o], |base|, t)
  {
    HiddenDecision(base, o, t, n, k);
    FollowsTimely(base, o);
    LastNotPromoted(base + [o], |base|, t);
  }

  lemma {:induction false} LastNotPromoted(calls: seq<Offense>, i: nat, t: Thresholds)
    requires Timely(calls, i) && |calls| == i + 1 && calls[i].key == KEY && PermanentAllowed(calls[i])
    requires DecisionAt(calls, i, t) == 3 && HardDecisions(calls, t, KEY, calls[i].now - 7 * DAY) >= t.hardBans
    ensures NotPromoted(calls, i, t)
  {
    assert calls[..i + 1] == calls;
  }

  // ---- for every threshold from two on --------------------------------------------------

  /** Hard bans that may not become permanent, then throttles of a trusted key, all at one instant. */
  function AtOnce(n: nat, k: nat): seq<Offense> {
    if k > 0 then AtOnce(n, k - 1) + [Call(0, 100.0, [], 3)]
    else if n > 0 then AtOnce(n - 1, 0) + [Call(0, 0.0, [REASON], 3)]
    else []
  }

  lemma {:induction false} AtOnceFollows(n: nat, k: nat, o: Offense)
    requires o.key == KEY && o.reason == REASON && o.now == 0
    ensures Follows(AtOnce(n, k), o)
  {
    var base := AtOnce(n, k);
    AllAtZero(n, k);
    forall i ensures NoLaterAt(base, KEY, 0, i) {}
    forall i, j ensures ForwardAt(base, KEY, i, j) {}
  }

  lemma {:induction false} AllAtZero(n: nat, k: nat)
    ensures forall i :: 0 <= i < |AtOnce(n, k)| ==> AtOnce(n, k)[i].now == 0
    decreases n + k
  {
    if k > 0 { AllAtZero(n, k - 1); } else if n > 0 { AllAtZero(n - 1, 0); }
  }

  lemma {:induction false} AtOnceHiding(n: nat, k: nat, t: Thresholds)
    requires t.historyTtl >= 7 * DAY
    ensures Hiding(Stored(AtOnce(n, k), t, KEY), n, k, 0 - 7 * DAY)
    decreases n + k
  {
    if k > 0 {
      AtOnceHiding(n, k - 1, t);
      ThrottleAtOnce(AtOnce(n, k - 1), n, k - 1, t);
    } else if n > 0 {
      AtOnceHiding(n - 1, 0, t);
      BanAtOnce(AtOnce(n - 1, 0), n - 1, t);
    }
  }

  lemma {:induction false} ThrottleAtOnce(base: seq<Offense>, n: nat, k: nat, t: Thresholds)
    requires t.historyTtl >= 7 * DAY && base == AtOnce(n, k) && Hiding(Stored(base, t, KEY), n, k, 0 - 7 * DAY)
    ensures Hiding(Stored(base + [Call(0, 100.0, [], 3)], t, KEY), n, k + 1, 0 - 7 * DAY)
  {
    AtOnceFollows(n, k, Call(0, 100.0, [], 3));
    TrustedHides(base, Call(0, 100.0, [], 3), t, n, k);
  }

  lemma {:induction false} BanAtOnce(base: seq<Offense>, n: nat, t: Thresholds)
    requires t.historyTtl >= 7 * DAY && base == AtOnce(n, 0) && Hiding(Stored(base, t, KEY), n, 0, 0 - 7 * DAY)
    ensures Hiding(Stored(base + [Call(0, 0.0, [REASON], 3)], t, KEY), n + 1, 0, 0 - 7 * DAY)
  {
    AtOnceFollows(n, 0, Call(0, 0.0, [REASON], 3));
    HardCounted(base, Call(0, 0.0, [REASON], 3), t, 0 - 7 * DAY);
  }

  /** A trusted key without fraud evidence is only throttled, whatever it has done before. */
  lemma {:induction false} TrustedHides(base: seq<Offense>, o: Offense, t: Thresholds, n: nat, k: nat)
    requires Follows(base, o) && t.historyTtl >= 7 * DAY && Uncorroborated(o)
    requires Hiding(Stored(base, t, KEY), n, k, o.now - 7 * DAY)
    ensures Hiding(Stored(base + [o], t, KEY), n, k + 1, o.now - 7 * DAY)
  {
    var u := Stored(base, t, KEY);
    StoredNext(base, o, t);
    OneThrottle(o, Summarise(Capped([Entry(o, 1, t)] + u), o.now), t);
    CountAppend([Entry(o, 1, t)], u, 3, o.now - 7 * DAY, None);
  }

  lemma {:induction false} OneThrottle(o: Offense, s: Summary, t: Thresholds)
    requires Uncorroborated(o)
    ensures Entries(o, s, t) == [Entry(o, 1, t)]
  {}

  lemma {:induction false} RuleFails(t: Thresholds)
    requires t.historyTtl >= 7 * DAY && t.hardBans >= 2
    ensures exists calls, i :: NotPromoted(calls, i, t)
  {
    var n := t.hardBans - 1;
    var o := Call(0, 0.0, [REASON], 4);
    AtOnceHiding(n, 99, t);
    AtOnceFollows(n, 99, o);
    HidingBreaksRule(AtOnce(n, 99), o, t, n, 99);
  }

  /**
   The documented rule, `hardBans` hard bans within seven days make a permanent one, holds on every call of
   every run if and only if one hard ban is enough.
   */
  lemma {:induction false} RuleExactly(t: Thresholds)
    requires t.historyTtl >= 7 * DAY
    ensures (forall calls, i :: Timely(calls, i) ==> RuleKept(calls, i, t)) <==> t.hardBans <= 1
  {
    if t.hardBans <= 1 {
      forall calls, i | Timely(calls, i) ensures RuleKept(calls, i, t) { RuleOnOneCall(calls, i, t); }
    } else {
      RuleFails(t);
    }
  }
}

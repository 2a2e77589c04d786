/**
 What the cap of one hundred stored events does to decisions: a call sees exactly the newest hundred,
 and while no more than a hundred fall within seven days it decides as if nothing were ever dropped.
 */
module LadderCap {
  import opened Options
  import opened LadderModel
  import opened LadderSafety

  // ---- everything ever stored -----------------------------------------------------------

  function Entry(o: Offense, tier: nat, t: Thresholds): Event { Event(o.now, o.reason, tier, o.now + t.historyTtl) }

  /** The events one call stores, newest first. */
  function Entries(o: Offense, s: Summary, t: Thresholds): History {
    If(Decide(s, o, t) == 4, Entry(o, 4, t))
    + (If(SecondTier(s, o, t) == 3, Entry(o, 3, t))
    + (If(FirstTier(s, o, t) == 2, Entry(o, 2, t)) + [Entry(o, 1, t)]))
  }

  function If(cond: bool, e: Event): History { if cond then [e] else [] }

  /** The summary a call decides on. */
  function SummaryAt(calls: seq<Offense>, o: Offense, t: Thresholds): Summary {
    Summarise(Observed(HistoryOf(RecordAll(calls, t).history, o.key), o, t), o.now)
  }

  /** Every event ever stored for `key`, whatever was dropped since. */
  function Stored(calls: seq<Offense>, t: Thresholds, key: string): History {
    if calls == [] then []
    else
      var pre, o := calls[..|calls| - 1], calls[|calls| - 1];
      (if Accepted(o) && o.key == key then Entries(o, SummaryAt(pre, o, t), t) else []) + Stored(pre, t, key)
  }

  /** What call `o` would see without the cap: its own throttle and everything stored before. */
  function FullView(calls: seq<Offense>, o: Offense, t: Thresholds): History {
    [Entry(o, 1, t)] + Stored(calls, t, o.key)
  }

  /** The clock of `key`'s calls does not go back. */
  ghost predicate KeyForward(calls: seq<Offense>, key: string) { forall i, j :: ForwardAt(calls, key, i, j) }

  predicate ForwardAt(calls: seq<Offense>, key: string, i: int, j: int) {
    0 <= i < j < |calls| && calls[i].key == key && calls[j].key == key ==> calls[i].now <= calls[j].now
  }

  /** No call of `key` comes after `now`. */
  ghost predicate NoLater(calls: seq<Offense>, key: string, now: int) { forall i :: NoLaterAt(calls, key, now, i) }

  predicate NoLaterAt(calls: seq<Offense>, key: string, now: int, i: int) {
    0 <= i < |calls| && calls[i].key == key ==> calls[i].now <= now
  }

  lemma {:induction false} ForwardBefore(calls: seq<Offense>, key: string, n: nat)
    requires n < |calls| && KeyForward(calls, key)
    ensures KeyForward(calls[..n], key)
    ensures calls[n].key == key ==> NoLater(calls[..n], key, calls[n].now)
  {
    forall i, j ensures ForwardAt(calls[..n], key, i, j) { assert ForwardAt(calls, key, i, j); }
    if calls[n].key == key {
      forall i ensures NoLaterAt(calls[..n], key, calls[n].now, i) { assert ForwardAt(calls, key, i, n); }
    }
  }

  // ---- the stored list is what the cap and expiry leave of it ----------------------------

  /** Newest first, none after `now`, each expiring `ttl` after its time. */
  ghost predicate Aged(u: History, ttl: int, now: int) {
    && (forall i :: 0 <= i < |u| ==> u[i].ts <= now && u[i].expiresAt == u[i].ts + ttl)
    && (forall i, j :: 0 <= i < j < |u| ==> u[j].ts <= u[i].ts)
  }

  /** `h` is the front of `u`; what it misses of the newest hundred has expired. */
  ghost predicate Front(h: History, u: History, now: int) {
    && h <= u && |h| <= CAP
    && (forall i :: |h| <= i < |u| && i < CAP ==> u[i].expiresAt < now)
  }

  lemma {:induction false} AgedPush(u: History, o: Offense, tier: nat, t: Thresholds)
    requires Aged(u, t.historyTtl, o.now)
    ensures Aged([Entry(o, tier, t)] + u, t.historyTtl, o.now)
  {}

  lemma {:induction false} FrontPush(h: History, u: History, o: Offense, tier: nat, t: Thresholds)
    requires Front(h, u, o.now)
    ensures Front(Push(h, o, tier, t.historyTtl), [Entry(o, tier, t)] + u, o.now)
  {
    var e, v := [Entry(o, tier, t)], [Entry(o, tier, t)] + u;
    assert e + h <= v;
    forall i | |Push(h, o, tier, t.historyTtl)| <= i < |v| && i < CAP ensures v[i].expiresAt < o.now {
      assert v[i] == u[i - 1];
    }
  }

  lemma {:induction false} DropFront(h: History, now: int)
    requires forall i, j :: ExpiresAfter(h, i, j)
    ensures var d := DropExpired(h, now);
            d <= h && forall i :: |d| <= i < |h| ==> h[i].expiresAt < now
  {
    if h != [] {
      var rest := h[1..];
      forall i, j ensures ExpiresAfter(rest, i, j) { assert ExpiresAfter(h, i + 1, j + 1); }
      DropFront(rest, now);
      assert h == [h[0]] + rest;
      if h[0].expiresAt < now {
        forall i | 0 <= i < |rest| ensures rest[i].expiresAt < now { assert ExpiresAfter(h, 0, i + 1); }
        NothingLeft(rest, now);
        assert [] + DropExpired(rest, now) == [];
      }
    }
  }

  predicate ExpiresAfter(h: History, i: int, j: int) { 0 <= i < j < |h| ==> h[j].expiresAt <= h[i].expiresAt }

  lemma {:induction false} NothingLeft(h: History, now: int)
    requires forall i :: 0 <= i < |h| ==> h[i].expiresAt < now
    ensures DropExpired(h, now) == []
  {
    if h != [] { NothingLeft(h[1..], now); }
  }

  lemma {:induction false} FrontDrop(h: History, u: History, ttl: int, now: int)
    requires Front(h, u, now) && Aged(u, ttl, now)
    ensures Front(DropExpired(h, now), u, now)
  {
    forall i, j ensures ExpiresAfter(h, i, j) {
      if 0 <= i < j < |h| { assert h[i] == u[i] && h[j] == u[j]; }
    }
    DropFront(h, now);
    var d := DropExpired(h, now);
    forall i | |d| <= i < |u| && i < CAP ensures u[i].expiresAt < now {
      if i < |h| { assert h[i] == u[i]; }
    }
  }

  lemma {:induction false} FrontPushIf(h: History, u: History, o: Offense, tier: nat, t: Thresholds, cond: bool)
    requires Front(h, u, o.now) && Aged(u, t.historyTtl, o.now)
    ensures var v := If(cond, Entry(o, tier, t)) + u;
            Front(PushIf(h, o, tier, t, cond), v, o.now) && Aged(v, t.historyTtl, o.now)
  {
    if cond {
      FrontPush(h, u, o, tier, t);
      AgedPush(u, o, tier, t);
    } else {
      assert [] + u == u;
    }
  }

  lemma {:induction false} EntriesAppend(o: Offense, s: Summary, t: Thresholds, u: History)
    ensures Entries(o, s, t) + u
         == If(Decide(s, o, t) == 4, Entry(o, 4, t))
            + (If(SecondTier(s, o, t) == 3, Entry(o, 3, t))
            + (If(FirstTier(s, o, t) == 2, Entry(o, 2, t)) + ([Entry(o, 1, t)] + u)))
  {}

  /** Climbing pushes the remaining entries of the call. */
  lemma {:induction false} FrontClimbed(h: History, u: History, s: Summary, o: Offense, t: Thresholds)
    requires Front(h, [Entry(o, 1, t)] + u, o.now) && Aged([Entry(o, 1, t)] + u, t.historyTtl, o.now)
    ensures Front(Climbed(h, s, o, t), Entries(o, s, t) + u, o.now) && Aged(Entries(o, s, t) + u, t.historyTtl, o.now)
  {
    var u1 := [Entry(o, 1, t)] + u;
    var two, three := FirstTier(s, o, t) == 2, SecondTier(s, o, t) == 3;
    FrontPushIf(h, u1, o, 2, t, two);
    var h2, u2 := PushIf(h, o, 2, t, two), If(two, Entry(o, 2, t)) + u1;
    FrontPushIf(h2, u2, o, 3, t, three);
    FrontPushIf(PushIf(h2, o, 3, t, three), If(three, Entry(o, 3, t)) + u2, o, 4, t, Decide(s, o, t) == 4);
    EntriesAppend(o, s, t, u);
  }

  lemma {:induction false} FrontRecorded(h: History, u: History, o: Offense, t: Thresholds)
    requires Front(h, u, o.now) && Aged(u, t.historyTtl, o.now)
    ensures var v := Entries(o, Summarise(Observed(h, o, t), o.now), t) + u;
            Front(Recorded(h, o, t), v, o.now) && Aged(v, t.historyTtl, o.now)
  {
    var s := Summarise(Observed(h, o, t), o.now);
    var p, u1 := Push(h, o, 1, t.historyTtl), [Entry(o, 1, t)] + u;
    FrontPush(h, u, o, 1, t);
    AgedPush(u, o, 1, t);
    FrontDrop(p, u1, t.historyTtl, o.now);
    FrontClimbed(DropExpired(p, o.now), u, s, o, t);
    FrontDrop(Climbed(DropExpired(p, o.now), s, o, t), Entries(o, s, t) + u, t.historyTtl, o.now);
  }

  lemma {:induction false} FrontLater(h: History, u: History, ttl: int, now: int, then': int)
    requires Front(h, u, now) && Aged(u, ttl, now) && now <= then'
    ensures Front(h, u, then') && Aged(u, ttl, then')
  {}

  lemma {:induction false} FrontRecordedLater(h: History, u: History, o: Offense, t: Thresholds, now: int)
    requires Front(h, u, o.now) && Aged(u, t.historyTtl, o.now) && o.now <= now
    ensures var v := Entries(o, Summarise(Observed(h, o, t), o.now), t) + u;
            Front(Recorded(h, o, t), v, now) && Aged(v, t.historyTtl, now)
  {
    FrontRecorded(h, u, o, t);
    FrontLater(Recorded(h, o, t), Entries(o, Summarise(Observed(h, o, t), o.now), t) + u, t.historyTtl, o.now, now);
  }

  lemma {:induction false} NoLaterBefore(calls: seq<Offense>, key: string, now: int)
    requires calls != [] && NoLater(calls, key, now)
    ensures NoLater(calls[..|calls| - 1], key, now)
  {
    var pre := calls[..|calls| - 1];
    forall i ensures NoLaterAt(pre, key, now, i) { assert NoLaterAt(calls, key, now, i); }
  }

  /** At any later time the list in the store is the front of everything stored. */
  lemma {:induction false} StoreHoldsFront(calls: seq<Offense>, t: Thresholds, key: string, now: int)
    requires KeyForward(calls, key) && NoLater(calls, key, now)
    ensures var u := Stored(calls, t, key);
            Front(HistoryOf(RecordAll(calls, t).history, key), u, now) && Aged(u, t.historyTtl, now)
  {
    if calls != [] {
      var n := |calls| - 1;
      var pre, o := calls[..n], calls[n];
      ForwardBefore(calls, key, n);
      assert NoLaterAt(calls, key, now, n);
      if Accepted(o) && o.key == key {
        StoreHoldsFront(pre, t, key, o.now);
        FrontRecordedLater(HistoryOf(RecordAll(pre, t).history, key), Stored(pre, t, key), o, t, now);
      } else {
        NoLaterBefore(calls, key, now);
        StoreHoldsFront(pre, t, key, now);
        assert [] + Stored(pre, t, key) == Stored(pre, t, key);
      }
    }
  }

  // ---- a call sees the newest hundred ---------------------------------------------------

  lemma {:induction false} OldCountsNothing(h: History, tier: nat, cutoff: int, reason: Option<string>)
    requires forall i :: 0 <= i < |h| ==> h[i].ts < cutoff
    ensures CountRecent(h, tier, cutoff, reason) == 0
  {
    if h != [] { OldCountsNothing(h[1..], tier, cutoff, reason); }
  }

  /** Two lists of which one is the front of the other count alike when the rest is older than the cutoff. */
  lemma {:induction false} FrontCounts(h: History, u: History, tier: nat, cutoff: int, reason: Option<string>)
    requires h <= u && forall i :: |h| <= i < |u| ==> u[i].ts < cutoff
    ensures CountRecent(h, tier, cutoff, reason) == CountRecent(u, tier, cutoff, reason)
  {
    assert u == h + u[|h|..];
    CountAppend(h, u[|h|..], tier, cutoff, reason);
    OldCountsNothing(u[|h|..], tier, cutoff, reason);
  }

  lemma {:induction false} FrontSummary(h: History, u: History, now: int)
    requires h <= u && forall i :: |h| <= i < |u| ==> u[i].ts < now - 7 * DAY
    ensures Summarise(h, now) == Summarise(u, now)
  {
    FrontCounts(h, u, 1, now - 5 * MINUTE, None);
    FrontCounts(h, u, 1, now - MINUTE, Some(INVALID_SIGNATURE_BURST));
    FrontCounts(h, u, 2, now - DAY, None);
    FrontCounts(h, u, 3, now - 7 * DAY, None);
  }

  /** What a call observes is, up to events too old to count, the newest hundred it could see. */
  lemma {:induction false} ObservedIsFront(h: History, u: History, o: Offense, t: Thresholds)
    requires Front(h, u, o.now) && Aged(u, t.historyTtl, o.now) && t.historyTtl >= 7 * DAY
    ensures Summarise(Observed(h, o, t), o.now) == Summarise(Capped([Entry(o, 1, t)] + u), o.now)
  {
    var v, p := [Entry(o, 1, t)] + u, Push(h, o, 1, t.historyTtl);
    FrontPush(h, u, o, 1, t);
    AgedPush(u, o, 1, t);
    FrontDrop(p, v, t.historyTtl, o.now);
    var d := DropExpired(p, o.now);
    assert Observed(h, o, t) == d;
    forall i | |d| <= i < |Capped(v)| ensures Capped(v)[i].ts < o.now - 7 * DAY {
      assert Capped(v)[i] == v[i];
    }
    FrontSummary(d, Capped(v), o.now);
  }

  /** The calls up to `i` keep the clock of key `calls[i].key` going forward. */
  ghost predicate Timely(calls: seq<Offense>, i: nat) {
    i < |calls| && Accepted(calls[i]) && KeyForward(calls[..i + 1], calls[i].key)
  }

  lemma {:induction false} TimelyBefore(calls: seq<Offense>, i: nat)
    requires Timely(calls, i)
    ensures KeyForward(calls[..i], calls[i].key) && NoLater(calls[..i], calls[i].key, calls[i].now)
  {
    ForwardBefore(calls[..i + 1], calls[i].key, i);
    assert calls[..i + 1][..i] == calls[..i];
  }

  lemma {:induction false} SeenSummary(calls: seq<Offense>, i: nat, t: Thresholds)
    requires Timely(calls, i) && t.historyTtl >= 7 * DAY
    ensures SummaryAt(calls[..i], calls[i], t) == Summarise(Capped(FullView(calls[..i], calls[i], t)), calls[i].now)
  {
    TimelyBefore(calls, i);
    StoreHoldsFront(calls[..i], t, calls[i].key, calls[i].now);
    ObservedIsFront(HistoryOf(RecordAll(calls[..i], t).history, calls[i].key), Stored(calls[..i], t, calls[i].key),
                    calls[i], t);
  }

  /** Every decision is made on exactly the newest hundred events of the key, its own included. */
  lemma {:induction false} NewestHundredDecide(calls: seq<Offense>, i: nat, t: Thresholds)
    requires Timely(calls, i) && t.historyTtl >= 7 * DAY
    ensures DecisionAt(calls, i, t) == TierFor(Newest(FullView(calls[..i], calls[i], t), 100), calls[i], t)
  {
    SeenSummary(calls, i, t);
  }

  // ---- when the cap does not matter -----------------------------------------------------

  function CountSince(h: History, cutoff: int): nat {
    if h == [] then 0 else (if h[0].ts >= cutoff then 1 else 0) + CountSince(h[1..], cutoff)
  }

  /** No more than a hundred events of the last seven days. */
  predicate Fits(view: History, now: int) { CountSince(view, now - 604_800_000) <= 100 }

  lemma {:induction false} RecentFirst(h: History, n: nat, cutoff: int)
    requires n < |h| && h[n].ts >= cutoff && forall i, j :: 0 <= i < j < |h| ==> h[j].ts <= h[i].ts
    ensures CountSince(h, cutoff) > n
  {
    if n > 0 {
      assert h[1..][n - 1] == h[n];
      RecentFirst(h[1..], n - 1, cutoff);
    }
  }

  lemma {:induction false} FitsSummary(u: History, ttl: int, now: int)
    requires Aged(u, ttl, now) && Fits(u, now)
    ensures Summarise(Capped(u), now) == Summarise(u, now)
  {
    if |u| > CAP {
      if u[CAP].ts >= now - 7 * DAY { RecentFirst(u, CAP, now - 7 * DAY); }
      FrontSummary(Capped(u), u, now);
    }
  }

  lemma {:induction false} FullSummary(calls: seq<Offense>, i: nat, t: Thresholds)
    requires Timely(calls, i) && t.historyTtl >= 7 * DAY && Fits(FullView(calls[..i], calls[i], t), calls[i].now)
    ensures SummaryAt(calls[..i], calls[i], t) == Summarise(FullView(calls[..i], calls[i], t), calls[i].now)
  {
    TimelyBefore(calls, i);
    StoreHoldsFront(calls[..i], t, calls[i].key, calls[i].now);
    AgedPush(Stored(calls[..i], t, calls[i].key), calls[i], 1, t);
    SeenSummary(calls, i, t);
    FitsSummary(FullView(calls[..i], calls[i], t), t.historyTtl, calls[i].now);
  }

  /** While at most a hundred events of the key lie within seven days, a decision is that of the uncapped history. */
  lemma {:induction false} FullHistoryDecides(calls: seq<Offense>, i: nat, t: Thresholds)
    requires Timely(calls, i) && t.historyTtl >= 7 * DAY && Fits(FullView(calls[..i], calls[i], t), calls[i].now)
    ensures DecisionAt(calls, i, t) == TierFor(FullView(calls[..i], calls[i], t), calls[i], t)
  {
    FullSummary(calls, i, t);
  }

  /** The ladder as documented: no cap, no expiry, each call deciding on everything stored. */
  function Uncapped(calls: seq<Offense>, t: Thresholds, key: string): History {
    if calls == [] then []
    else
      var pre, o := calls[..|calls| - 1], calls[|calls| - 1];
      var before := Uncapped(pre, t, key);
      (if Accepted(o) && o.key == key then Entries(o, Summarise([Entry(o, 1, t)] + before, o.now), t) else []) + before
  }

  /** Every call of `key` finds at most a hundred events of the last seven days in the uncapped ladder. */
  ghost predicate AlwaysFits(calls: seq<Offense>, t: Thresholds, key: string) {
    forall i :: 0 <= i < |calls| && Accepted(calls[i]) && calls[i].key == key ==>
      Fits([Entry(calls[i], 1, t)] + Uncapped(calls[..i], t, key), calls[i].now)
  }

  lemma {:induction false} FitsBefore(calls: seq<Offense>, t: Thresholds, key: string)
    requires calls != [] && AlwaysFits(calls, t, key)
    ensures AlwaysFits(calls[..|calls| - 1], t, key)
  {
    var pre := calls[..|calls| - 1];
    forall i | 0 <= i < |pre| && Accepted(pre[i]) && pre[i].key == key
      ensures Fits([Entry(pre[i], 1, t)] + Uncapped(pre[..i], t, key), pre[i].now)
    {
      assert pre[..i] == calls[..i] && pre[i] == calls[i];
    }
  }

  /** Whole runs: while the events fit, the program's ladder stores what the uncapped ladder stores. */
  lemma {:induction false} CapNeverMatters(calls: seq<Offense>, t: Thresholds, key: string)
    requires KeyForward(calls, key) && t.historyTtl >= 7 * DAY && AlwaysFits(calls, t, key)
    ensures Stored(calls, t, key) == Uncapped(calls, t, key)
  {
    if calls != [] {
      var n := |calls| - 1;
      var pre, o := calls[..n], calls[n];
      FitsBefore(calls, t, key);
      ForwardBefore(calls, key, n);
      CapNeverMatters(pre, t, key);
      if Accepted(o) && o.key == key { NextMatches(calls, t); }
    }
  }

  lemma {:induction false} NextMatches(calls: seq<Offense>, t: Thresholds)
    requires calls != [] && t.historyTtl >= 7 * DAY
    requires var o := calls[|calls| - 1];
             var pre := calls[..|calls| - 1];
             && Accepted(o) && KeyForward(calls, o.key) && Stored(pre, t, o.key) == Uncapped(pre, t, o.key)
             && Fits([Entry(o, 1, t)] + Uncapped(pre, t, o.key), o.now)
    ensures var o := calls[|calls| - 1]; Stored(calls, t, o.key) == Uncapped(calls, t, o.key)
  {
    assert calls[..|calls|] == calls;
    FullSummary(calls, |calls| - 1, t);
  }

  // ---- promotion to a permanent ban -----------------------------------------------------

  lemma {:induction false} EntriesHard(o: Offense, s: Summary, t: Thresholds, u: History, cutoff: int)
    ensures CountRecent(Entries(o, s, t) + u, 3, cutoff, None)
         == CountRecent(u, 3, cutoff, None) + (if o.now >= cutoff && Decide(s, o, t) >= 3 then 1 else 0)
  {
    EntriesAppend(o, s, t, u);
    var u1 := [Entry(o, 1, t)] + u;
    var e2, e3 := If(FirstTier(s, o, t) == 2, Entry(o, 2, t)), If(SecondTier(s, o, t) == 3, Entry(o, 3, t));
    CountAppend([Entry(o, 1, t)], u, 3, cutoff, None);
    CountAppend(e2, u1, 3, cutoff, None);
    CountAppend(e3, e2 + u1, 3, cutoff, None);
    CountAppend(If(Decide(s, o, t) == 4, Entry(o, 4, t)), e3 + (e2 + u1), 3, cutoff, None);
  }

  /** Every hard-ban decision, and nothing else, stores one hard-ban event. */
  lemma {:induction false} StoredHardBansAreDecisions(calls: seq<Offense>, t: Thresholds, key: string, cutoff: int)
    ensures CountRecent(Stored(calls, t, key), 3, cutoff, None) == HardDecisions(calls, t, key, cutoff)
  {
    if calls != [] {
      var n := |calls| - 1;
      var pre, o := calls[..n], calls[n];
      StoredHardBansAreDecisions(pre, t, key, cutoff);
      if Accepted(o) && o.key == key {
        EntriesHard(o, SummaryAt(pre, o, t), t, Stored(pre, t, key), cutoff);
      } else {
        assert [] + Stored(pre, t, key) == Stored(pre, t, key);
      }
    }
  }

  // What is known before a call is decided: the tier of its first three steps, and the hard bans it finds.

  function StepThreeTier(calls: seq<Offense>, i: nat, t: Thresholds): nat
    requires i < |calls|
  {
    SecondTier(SummaryAt(calls[..i], calls[i], t), calls[i], t)
  }

  /** Hard bans of the last seven days among the newest hundred events. */
  function SeenHardBans(calls: seq<Offense>, i: nat, t: Thresholds): nat
    requires i < |calls|
  {
    CountRecent(Newest(FullView(calls[..i], calls[i], t), 100), 3, calls[i].now - 7 * DAY, None)
  }

  /** Hard bans of the last seven days among all events ever stored. */
  function StoredHardBans(calls: seq<Offense>, i: nat, t: Thresholds): nat
    requires i < |calls|
  {
    CountRecent(FullView(calls[..i], calls[i], t), 3, calls[i].now - 7 * DAY, None)
  }

  /** Promotion, exactly: step 3 gives a hard ban, tier 4 is allowed, and enough hard bans are still seen. */
  lemma {:induction false} PromotionExactly(calls: seq<Offense>, i: nat, t: Thresholds)
    requires Timely(calls, i) && t.historyTtl >= 7 * DAY
    ensures DecisionAt(calls, i, t) >= 3 <==> StepThreeTier(calls, i, t) == 3
    ensures DecisionAt(calls, i, t) == 4
       <==> StepThreeTier(calls, i, t) == 3 && PermanentAllowed(calls[i]) && SeenHardBans(calls, i, t) + 1 >= t.hardBans
  {
    SeenSummary(calls, i, t);
  }

  /** The documented rule says call `i` is a permanent ban. */
  predicate RuleBans(calls: seq<Offense>, i: nat, t: Thresholds)
    requires i < |calls|
  {
    && DecisionAt(calls, i, t) >= 3 && PermanentAllowed(calls[i])
    && HardDecisions(calls[..i + 1], t, calls[i].key, calls[i].now - 7 * DAY) >= t.hardBans
  }

  /** The program follows the documented rule on call `i`. */
  predicate RuleKept(calls: seq<Offense>, i: nat, t: Thresholds)
    requires i < |calls|
  {
    DecisionAt(calls, i, t) == 4 <==> RuleBans(calls, i, t)
  }

  lemma {:induction false} DecidedIsStored(calls: seq<Offense>, i: nat, t: Thresholds)
    requires Timely(calls, i) && DecisionAt(calls, i, t) >= 3
    ensures HardDecisions(calls[..i + 1], t, calls[i].key, calls[i].now - 7 * DAY) == StoredHardBans(calls, i, t) + 1
  {
    var o, cutoff := calls[i], calls[i].now - 7 * DAY;
    StoredHardBansAreDecisions(calls[..i], t, o.key, cutoff);
    CountAppend([Entry(o, 1, t)], Stored(calls[..i], t, o.key), 3, cutoff, None);
    assert calls[..i + 1][..i] == calls[..i];
    assert DecisionAt(calls[..i + 1], i, t) == DecisionAt(calls, i, t);
  }

  /**
   One call keeps the rule unless step 3 gives a hard ban, tier 4 is allowed, and the hard bans stored are
   enough while those still among the newest hundred are not.
   */
  lemma {:induction false} RuleOnOneCall(calls: seq<Offense>, i: nat, t: Thresholds)
    requires Timely(calls, i) && t.historyTtl >= 7 * DAY
    ensures RuleKept(calls, i, t)
       <==> !(&& StepThreeTier(calls, i, t) == 3 && PermanentAllowed(calls[i])
              && SeenHardBans(calls, i, t) + 1 < t.hardBans <= StoredHardBans(calls, i, t) + 1)
  {
    PromotionExactly(calls, i, t);
    SeenAtMostStored(calls, i, t);
    if DecisionAt(calls, i, t) >= 3 { DecidedIsStored(calls, i, t); }
  }

  lemma {:induction false} SeenAtMostStored(calls: seq<Offense>, i: nat, t: Thresholds)
    requires i < |calls|
    ensures SeenHardBans(calls, i, t) <= StoredHardBans(calls, i, t)
  {
    var view := FullView(calls[..i], calls[i], t);
    if |view| > CAP { CountPrefix(view, CAP, 3, calls[i].now - 7 * DAY, None); }
  }

  /**
   The documented rule holds while at most a hundred events lie within seven days: a hard-ban decision becomes
   permanent exactly when it is allowed and is at least the `hardBans`-th within seven days.
   */
  lemma {:induction false} RuleHoldsWhileEventsFit(calls: seq<Offense>, i: nat, t: Thresholds)
    requires Timely(calls, i) && t.historyTtl >= 7 * DAY && Fits(FullView(calls[..i], calls[i], t), calls[i].now)
    ensures RuleKept(calls, i, t)
  {
    SeenSummary(calls, i, t);
    FullSummary(calls, i, t);
    RuleOnOneCall(calls, i, t);
  }
}

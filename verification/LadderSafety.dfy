/** Permanent bans over whole runs, and how decisions respond to evidence and trust. */
module LadderSafety {
  import opened Options
  import opened Trust
  import opened LadderModel

  // ---- counting -------------------------------------------------------------------------

  lemma {:induction false} CountAppend(a: History, b: History, tier: nat, cutoff: int, reason: Option<string>)
    ensures CountRecent(a + b, tier, cutoff, reason)
         == CountRecent(a, tier, cutoff, reason) + CountRecent(b, tier, cutoff, reason)
  {
    if a == [] {
      assert a + b == b;
    } else {
      assert (a + b)[1..] == a[1..] + b;
      CountAppend(a[1..], b, tier, cutoff, reason);
    }
  }

  lemma {:induction false} CountPrefix(h: History, n: nat, tier: nat, cutoff: int, reason: Option<string>)
    requires n <= |h|
    ensures CountRecent(h[..n], tier, cutoff, reason) <= CountRecent(h, tier, cutoff, reason)
  {
    assert h == h[..n] + h[n..];
    CountAppend(h[..n], h[n..], tier, cutoff, reason);
  }

  lemma {:induction false} CountUnexpired(h: History, now: int, tier: nat, cutoff: int, reason: Option<string>)
    ensures CountRecent(DropExpired(h, now), tier, cutoff, reason) <= CountRecent(h, tier, cutoff, reason)
  {
    if h != [] {
      CountUnexpired(h[1..], now, tier, cutoff, reason);
      var rest := DropExpired(h[1..], now);
      assert ([h[0]] + rest)[1..] == rest && [] + rest == rest;
    }
  }

  /** A push adds at most the pushed event, whatever the cap drops. */
  lemma {:induction false} CountPush(h: History, o: Offense, pushed: nat, ttl: int, tier: nat, cutoff: int,
                                     reason: Option<string>)
    ensures CountRecent(Push(h, o, pushed, ttl), tier, cutoff, reason)
         <= CountRecent(h, tier, cutoff, reason) + (if tier == pushed && o.now >= cutoff then 1 else 0)
  {
    var e := Event(o.now, o.reason, pushed, o.now + ttl);
    assert ([e] + h)[1..] == h;
    if |[e] + h| > CAP {
      CountPrefix([e] + h, CAP, tier, cutoff, reason);
    }
  }

  // ---- permanent bans -------------------------------------------------------------------

  /** The tier decided for call `i` of a run. */
  function DecisionAt(calls: seq<Offense>, i: nat, t: Thresholds): nat
    requires i < |calls|
  {
    if Accepted(calls[i]) then Decision(HistoryOf(RecordAll(calls[..i], t).history, calls[i].key), calls[i], t) else 0
  }

  /** Hard-ban decisions (tier 3 or 4) about `key` since `cutoff`. */
  function HardDecisions(calls: seq<Offense>, t: Thresholds, key: string, cutoff: int): nat {
    if calls == [] then 0
    else
      var n := |calls| - 1;
      HardDecisions(calls[..n], t, key, cutoff)
      + (if calls[n].key == key && calls[n].now >= cutoff && DecisionAt(calls, n, t) >= 3 then 1 else 0)
  }

  lemma {:induction false} ObservedHard(h: History, o: Offense, t: Thresholds, cutoff: int)
    ensures CountRecent(Observed(h, o, t), 3, cutoff, None) <= CountRecent(h, 3, cutoff, None)
  {
    var p := Push(h, o, 1, t.historyTtl);
    CountPush(h, o, 1, t.historyTtl, 3, cutoff, None);
    CountUnexpired(p, o.now, 3, cutoff, None);
    var d := DropExpired(p, o.now);
    if |d| > t.historyTtl {
      CountPrefix(d, t.historyTtl, 3, cutoff, None);
    }
  }

  /** A call stores at most one hard ban, and only when it decides tier 3 or 4. */
  lemma {:induction false} RecordedHard(h: History, o: Offense, t: Thresholds, cutoff: int)
    ensures CountRecent(Recorded(h, o, t), 3, cutoff, None)
         <= CountRecent(h, 3, cutoff, None) + (if o.now >= cutoff && Decision(h, o, t) >= 3 then 1 else 0)
  {
    var s := Summarise(Observed(h, o, t), o.now);
    var h0 := Push(h, o, 1, t.historyTtl);
    var h1 := DropExpired(h0, o.now);
    var h2 := PushIf(h1, o, 2, t, FirstTier(s, o, t) == 2);
    var h3 := PushIf(h2, o, 3, t, SecondTier(s, o, t) == 3);
    CountPush(h, o, 1, t.historyTtl, 3, cutoff, None);
    CountUnexpired(h0, o.now, 3, cutoff, None);
    CountPush(h1, o, 2, t.historyTtl, 3, cutoff, None);
    CountPush(h2, o, 3, t.historyTtl, 3, cutoff, None);
    CountPush(h3, o, 4, t.historyTtl, 3, cutoff, None);
    CountUnexpired(PushIf(h3, o, 4, t, Decide(s, o, t) == 4), o.now, 3, cutoff, None);
  }

  lemma {:induction false} StoredHardBansWereDecided(calls: seq<Offense>, t: Thresholds, key: string, cutoff: int)
    ensures CountRecent(HistoryOf(RecordAll(calls, t).history, key), 3, cutoff, None)
         <= HardDecisions(calls, t, key, cutoff)
  {
    if calls != [] {
      var n := |calls| - 1;
      StoredHardBansWereDecided(calls[..n], t, key, cutoff);
      var h := HistoryOf(RecordAll(calls[..n], t).history, key);
      if calls[n].key == key && Accepted(calls[n]) {
        RecordedHard(h, calls[n], t, cutoff);
      }
    }
  }

  /**
   A key becomes permanently banned only in a call that allows tier 4, with a score below 51 and
   outside the whitelist window, and only with enough hard-ban decisions in the last seven days,
   this one included.
   */
  lemma {:induction false} PermanentOnlyWhenEarned(calls: seq<Offense>, t: Thresholds, key: string)
    requires calls != []
    requires key in RecordAll(calls, t).permanent && key !in RecordAll(calls[..|calls| - 1], t).permanent
    ensures var o := calls[|calls| - 1];
            && o.key == key && o.tierMax >= 4 && ClampScore(o.score) < 51.0
            && !(o.whitelistDays > 0 && o.firstPaidAt.Some? && o.firstPaidAt.value > 0
                 && o.now < o.firstPaidAt.value + 86_400_000 * o.whitelistDays)
            && HardDecisions(calls, t, key, o.now - 604_800_000) >= t.hardBans
  {
    var n := |calls| - 1;
    var o := calls[n];
    var h := HistoryOf(RecordAll(calls[..n], t).history, key);
    assert Accepted(o) && o.key == key && Decision(h, o, t) == 4;
    ObservedHard(h, o, t, o.now - 7 * DAY);
    StoredHardBansWereDecided(calls[..n], t, key, o.now - 7 * DAY);
    assert DecisionAt(calls, n, t) == 4;
  }

  /** With the default cap of tier 3 the permanent set never changes. */
  lemma {:induction false} NoPermanentBelowTier4(calls: seq<Offense>, t: Thresholds)
    requires forall i :: 0 <= i < |calls| ==> calls[i].tierMax <= 3
    ensures RecordAll(calls, t).permanent == {}
  {
    if calls != [] {
      NoPermanentBelowTier4(calls[..|calls| - 1], t);
    }
  }

  /**
   For a key not banned for good, a decision from tier 2 up is what the next ban check enforces,
   exactly when the ban length configured for that tier is not negative.
   */
  lemma {:induction false} DecisionIsEnforced(s: Store, o: Offense, t: Thresholds)
    requires Accepted(o) && o.key !in s.permanent && Decision(HistoryOf(s.history, o.key), o, t) >= 2
    ensures var tier := Decision(HistoryOf(s.history, o.key), o, t);
            CheckBan(Record(s, o, t), o.key, o.now) == tier
            <==> tier == 4 || (if tier == 2 then t.softBanMs else t.hardBanMs) >= 0
  {}

  // ---- response to evidence and trust ---------------------------------------------------

  /** `h` is `k` with some events left out. */
  predicate Sub(h: History, k: History) {
    if h == [] then true
    else k != [] && ((h[0] == k[0] && Sub(h[1..], k[1..])) || Sub(h, k[1..]))
  }

  lemma {:induction false} CountSub(h: History, k: History, tier: nat, cutoff: int, reason: Option<string>)
    requires Sub(h, k)
    ensures CountRecent(h, tier, cutoff, reason) <= CountRecent(k, tier, cutoff, reason)
    decreases |k|
  {
    if h != [] {
      if h[0] == k[0] && Sub(h[1..], k[1..]) {
        CountSub(h[1..], k[1..], tier, cutoff, reason);
      } else {
        CountSub(h, k[1..], tier, cutoff, reason);
      }
    }
  }

  function TierFor(observed: History, o: Offense, t: Thresholds): nat { Decide(Summarise(observed, o.now), o, t) }

  /** More evidence never lowers the tier. */
  lemma {:induction false} MoreEvidenceNeverLowers(h: History, k: History, o: Offense, t: Thresholds)
    requires Sub(h, k)
    ensures TierFor(h, o, t) <= TierFor(k, o, t)
  {
    CountSub(h, k, 1, o.now - 5 * MINUTE, None);
    CountSub(h, k, 1, o.now - MINUTE, Some(INVALID_SIGNATURE_BURST));
    CountSub(h, k, 2, o.now - DAY, None);
    CountSub(h, k, 3, o.now - 7 * DAY, None);
    DecideMonotone(Summarise(h, o.now), Summarise(k, o.now), o, t);
  }

  lemma {:induction false} DecideMonotone(s: Summary, r: Summary, o: Offense, t: Thresholds)
    requires s.throttles <= r.throttles && s.invalidSigs <= r.invalidSigs
    requires s.softBans <= r.softBans && s.hardBans <= r.hardBans
    ensures Decide(s, o, t) <= Decide(r, o, t)
  {
    assert RateTrips(s, o, t) ==> RateTrips(r, o, t);
  }

  /** More trust never raises the tier. */
  lemma {:induction false} MoreTrustNeverRaises(h: History, o: Offense, trusted: Score, t: Thresholds)
    requires ClampScore(o.score) <= ClampScore(trusted)
    ensures TierFor(h, o.(score := trusted), t) <= TierFor(h, o, t)
  {}

  lemma {:induction false} CountWider(h: History, tier: nat, late: int, early: int, reason: string)
    requires early <= late
    ensures CountRecent(h, tier, late, Some(reason)) <= CountRecent(h, tier, early, None)
  {
    if h != [] {
      CountWider(h[1..], tier, late, early, reason);
    }
  }

  /** With the default thresholds the invalid-signature trigger never fires alone. */
  lemma {:induction false} SignatureBurstSubsumed(h: History, o: Offense)
    ensures var s := Summarise(h, o.now);
            RateTrips(s, o, DEFAULTS) <==> s.throttles >= 3 * Multiplier(o.score)
  {
    CountWider(h, 1, o.now - MINUTE, o.now - 5 * MINUTE, INVALID_SIGNATURE_BURST);
  }
}

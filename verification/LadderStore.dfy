/** The ladder as the program runs it: one call updates the store step by step. */
module LadderStore {
  import opened Options
  import opened Trust
  import opened LadderModel

  /** What the caller is told. */
  datatype Outcome = Outcome(tier: nat, until: Option<int>, escalated: bool, summary: Summary)

  function UntilSeconds(o: Offense, tier: nat, t: Thresholds): Option<int> {
    if tier == 2 then Some((o.now + t.softBanMs) / 1000)
    else if tier == 3 then Some((o.now + t.hardBanMs) / 1000)
    else None
  }

  /** The public key inside a ban key. */
  function PubkeyOf(key: string): string { if "pk:" <= key then key[3..] else key }

  /** The offense with its first-payment time: the given one, or else the one on record. */
  function Resolved(o: Offense, firstPaid: map<string, int>): Offense {
    var pk := PubkeyOf(o.key);
    if o.firstPaidAt.None? && pk in firstPaid then o.(firstPaidAt := Some(firstPaid[pk])) else o
  }

  /**
   What one call reports and stores: nothing when it is rejected, otherwise the model's decision for this key
   alone.
   */
  ghost predicate RecordedAs(o: Offense, t: Thresholds, outcome: Option<Outcome>, before: map<string, History>,
                             after: map<string, History>, bans: map<string, Ban>, bansAfter: map<string, Ban>,
                             permanent: set<string>, permanentAfter: set<string>)
  {
    var h := HistoryOf(before, o.key);
    var tier := Decision(h, o, t);
    var s := Record(Store(before, bans, permanent), o, t);
    && bansAfter == s.bans && permanentAfter == s.permanent
    && (forall k :: HistoryOf(after, k) == HistoryOf(s.history, k))
    && (outcome.Some? <==> Accepted(o)) && (outcome.None? ==> after == before)
    && (outcome.Some? ==>
          && outcome.value.tier == tier && outcome.value.until == UntilSeconds(o, tier, t)
          && (outcome.value.escalated <==> tier >= 2)
          && outcome.value.summary == Summarise(Newest(HistoryOf(after, o.key), t.historyTtl), o.now))
  }

  class EnforcementStore {
    var abuseHistory: map<string, History>
    var bans: map<string, Ban>
    var permanentBans: set<string>
    var firstPaid: map<string, int>   // of the reputation records, the time of the first payment

    constructor ()
      ensures abuseHistory == map[] && bans == map[] && permanentBans == {} && firstPaid == map[]
    {
      abuseHistory, bans, permanentBans, firstPaid := map[], map[], {}, map[];
    }

    method PushAbuseHistory(key: string, event: Event)
      modifies this`abuseHistory
      ensures abuseHistory == old(abuseHistory)[key := Newest([event] + HistoryOf(old(abuseHistory), key), 100)]
    {
      var arr := [event] + (if key in abuseHistory then abuseHistory[key] else []);
      if |arr| > 100 {
        arr := arr[..100];
      }
      abuseHistory := abuseHistory[key := arr];
    }

    /** Drops expired entries in place, forgets an empty key, and returns the newest `n`. */
    method GetAbuseHistory(key: string, n: nat, now: int) returns (events: History)
      modifies this`abuseHistory
      ensures events == Newest(DropExpired(HistoryOf(old(abuseHistory), key), now), n)
      ensures HistoryOf(abuseHistory, key) == DropExpired(HistoryOf(old(abuseHistory), key), now)
      ensures forall k :: k != key ==> HistoryOf(abuseHistory, k) == HistoryOf(old(abuseHistory), k)
    {
      if key !in abuseHistory {
        return [];
      }
      var stored := abuseHistory[key];
      var arr := stored;
      var i := 0;
      assert arr[..0] + DropExpired(arr[0..], now) == DropExpired(arr, now) by { assert arr[0..] == arr; }
      while i < |arr|
        invariant i <= |arr| && arr[..i] + DropExpired(arr[i..], now) == DropExpired(stored, now)
        invariant abuseHistory == old(abuseHistory)
        decreases |arr| - i
      {
        if arr[i].expiresAt < now {
          SpliceExpired(arr, i, now);
          arr := arr[..i] + arr[i + 1..];
        } else {
          KeepLive(arr, i, now);
          i := i + 1;
        }
      }
      assert arr[..i] == arr;
      abuseHistory := if arr == [] then abuseHistory - {key} else abuseHistory[key := arr];
      events := if |arr| > n then arr[..n] else arr;
    }

    method Count(history: History, tier: nat, cutoff: int, reason: Option<string>) returns (n: nat)
      ensures n == CountRecent(history, tier, cutoff, reason)
    {
      n := 0;
      assert history[0..] == history;
      for i := 0 to |history|
        invariant n + CountRecent(history[i..], tier, cutoff, reason) == CountRecent(history, tier, cutoff, reason)
      {
        assert history[i..][1..] == history[i + 1..];
        if Counts(history[i], tier, cutoff, reason) {
          n := n + 1;
        }
      }
    }

    method HistorySummary(history: History, now: int) returns (s: Summary)
      ensures s == Summarise(history, now)
    {
      var throttles := Count(history, 1, now - 5 * MINUTE, None);
      var invalidSigs := Count(history, 1, now - MINUTE, Some(INVALID_SIGNATURE_BURST));
      var softBans := Count(history, 2, now - DAY, None);
      var hardBans := Count(history, 3, now - 7 * DAY, None);
      s := Summary(throttles, invalidSigs, softBans, hardBans);
    }

    /** Ban the key at `tier` and add the rung to its history. */
    method Escalate(o: Offense, tier: nat, t: Thresholds)
      requires tier == 2 || tier == 3
      modifies this`abuseHistory, this`bans
      ensures bans == old(bans)[o.key := BanFor(o, tier, t)]
      ensures abuseHistory == old(abuseHistory)[o.key := Push(HistoryOf(old(abuseHistory), o.key), o, tier,
                                                              t.historyTtl)]
    {
      bans := bans[o.key := BanFor(o, tier, t)];
      PushAbuseHistory(o.key, Event(o.now, o.reason, tier, o.now + t.historyTtl));
    }

    /**
     One offense.  A missing key or unknown reason is rejected and nothing changes.  Without a given
     first-payment time the key's reputation is looked up.
     */
    method RecordOffense(given: Offense, t: Thresholds) returns (outcome: Option<Outcome>)
      modifies this`abuseHistory, this`bans, this`permanentBans
      ensures var o := Resolved(given, firstPaid);
              RecordedAs(o, t, outcome, old(abuseHistory), abuseHistory, old(bans), bans, old(permanentBans),
                         permanentBans)
    {
      var o := Resolved(given, firstPaid);
      outcome := RecordResolved(o, t);
    }

    method RecordResolved(o: Offense, t: Thresholds) returns (outcome: Option<Outcome>)
      modifies this`abuseHistory, this`bans, this`permanentBans
      ensures RecordedAs(o, t, outcome, old(abuseHistory), abuseHistory, old(bans), bans, old(permanentBans),
                         permanentBans)
    {
      if o.key == "" || o.reason !in KNOWN_REASONS {
        return None;
      }
      var result := RecordAccepted(o, t);
      return Some(result);
    }

    /** Push the throttle, read, climb, read again. */
    method RecordAccepted(o: Offense, t: Thresholds) returns (out: Outcome)
      modifies this`abuseHistory, this`bans, this`permanentBans
      ensures var h := HistoryOf(old(abuseHistory), o.key);
              var tier := Decision(h, o, t);
              && HistoryOf(abuseHistory, o.key) == Recorded(h, o, t)
              && bans == (if tier >= 2 then old(bans)[o.key := BanFor(o, tier, t)] else old(bans))
              && permanentBans == (if tier == 4 then old(permanentBans) + {o.key} else old(permanentBans))
              && out == Outcome(tier, UntilSeconds(o, tier, t), tier >= 2,
                                Summarise(Newest(Recorded(h, o, t), t.historyTtl), o.now))
      ensures forall k :: k != o.key ==> HistoryOf(abuseHistory, k) == HistoryOf(old(abuseHistory), k)
    {
      PushAbuseHistory(o.key, Event(o.now, o.reason, 1, o.now + t.historyTtl));
      var summary := ReadSummary(o, t);
      ghost var seen, live := summary, HistoryOf(abuseHistory, o.key);
      var tier := Climb(o, t, summary);
      ghost var climbed := HistoryOf(abuseHistory, o.key);
      summary := ReadSummary(o, t);
      RecordedInSteps(HistoryOf(old(abuseHistory), o.key), o, t, live, seen, climbed);
      out := Outcome(tier, UntilSeconds(o, tier, t), tier >= 2, summary);
    }

    /** Expired events are dropped on the way. */
    method ReadSummary(o: Offense, t: Thresholds) returns (s: Summary)
      modifies this`abuseHistory
      ensures var live := DropExpired(HistoryOf(old(abuseHistory), o.key), o.now);
              HistoryOf(abuseHistory, o.key) == live && s == Summarise(Newest(live, t.historyTtl), o.now)
      ensures forall k :: k != o.key ==> HistoryOf(abuseHistory, k) == HistoryOf(old(abuseHistory), k)
    {
      var history := GetAbuseHistory(o.key, t.historyTtl, o.now);
      s := HistorySummary(history, o.now);
    }

    /** Steps 1 to 4, each rung stored as it is climbed. */
    method Climb(o: Offense, t: Thresholds, summary: Summary) returns (tier: nat)
      modifies this`abuseHistory, this`bans, this`permanentBans
      ensures tier == Decide(summary, o, t)
      ensures var h := HistoryOf(old(abuseHistory), o.key);
              HistoryOf(abuseHistory, o.key) == Climbed(h, summary, o, t)
      ensures forall k :: k != o.key ==> HistoryOf(abuseHistory, k) == HistoryOf(old(abuseHistory), k)
      ensures bans == (if tier >= 2 then old(bans)[o.key := BanFor(o, tier, t)] else old(bans))
      ensures permanentBans == if tier == 4 then old(permanentBans) + {o.key} else old(permanentBans)
    {
      tier := 1;
      var m := Multiplier(o.score);
      if |o.fraud| > 0 && summary.throttles >= 1 {
        tier := 3;
        Escalate(o, 3, t);
      } else if summary.throttles >= t.throttles * m || summary.invalidSigs >= t.invalidSigs * m {
        if RequiresFraudCorroboration(o.score) && |o.fraud| == 0 {
          // rate alone is not enough for a high-trust key
        } else {
          tier := 2;
          Escalate(o, 2, t);
        }
      }
      if tier == 2 && summary.softBans + 1 >= t.softBans {
        if RequiresFraudCorroboration(o.score) && |o.fraud| == 0 {
          // capped
        } else {
          tier := 3;
          Escalate(o, 3, t);
        }
      }
      if tier == 3 && summary.hardBans + 1 >= t.hardBans {
        if o.tierMax >= 4 && !Tier4Immune(o.score) && !InWhitelistWindow(o) {
          tier := 4;
          permanentBans := permanentBans + {o.key};
          PushAbuseHistory(o.key, Event(o.now, o.reason, 4, o.now + t.historyTtl));
        }
      }
    }
  }

  lemma {:induction false} RecordedInSteps(h: History, o: Offense, t: Thresholds, live: History, seen: Summary,
                                           climbed: History)
    requires live == DropExpired(Push(h, o, 1, t.historyTtl), o.now)
    requires seen == Summarise(Newest(live, t.historyTtl), o.now) && climbed == Climbed(live, seen, o, t)
    ensures Recorded(h, o, t) == DropExpired(climbed, o.now) && Decision(h, o, t) == Decide(seen, o, t)
  {}

  lemma {:induction false} SpliceExpired(arr: History, i: nat, now: int)
    requires i < |arr| && arr[i].expiresAt < now
    ensures var s := arr[..i] + arr[i + 1..];
            s[..i] + DropExpired(s[i..], now) == arr[..i] + DropExpired(arr[i..], now)
  {
    var s := arr[..i] + arr[i + 1..];
    assert s[..i] == arr[..i] && s[i..] == arr[i + 1..] && arr[i..][1..] == arr[i + 1..];
    assert [] + DropExpired(arr[i + 1..], now) == DropExpired(arr[i + 1..], now);
  }

  lemma {:induction false} KeepLive(arr: History, i: nat, now: int)
    requires i < |arr| && arr[i].expiresAt >= now
    ensures arr[..i + 1] + DropExpired(arr[i + 1..], now) == arr[..i] + DropExpired(arr[i..], now)
  {
    assert arr[i..][1..] == arr[i + 1..] && arr[..i + 1] == arr[..i] + [arr[i]];
  }
}

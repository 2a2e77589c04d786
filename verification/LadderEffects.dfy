/** What an offense means for its key and for everyone else, in the terms a caller sees. */
module LadderEffects {
  import opened Options
  import opened Counting
  import opened Trust
  import opened LadderModel
  import opened LadderSafety
  import opened LadderStore

  // ---- how long a ban lasts -------------------------------------------------------------

  /** How long a decision of tier 2 or 3 is in force. */
  function BanMs(tier: nat, t: Thresholds): int { if tier == 2 then t.softBanMs else t.hardBanMs }

  /**
   The ban a call leaves behind, at every time: a soft or hard ban lasts its whole length and no longer, a permanent
   one for ever, and a throttle leaves the ban that stood as it was.
   */
  lemma {:induction false} BanLasts(s: Store, o: Offense, t: Thresholds, now: int)
    requires Accepted(o) && o.key !in s.permanent
    ensures var tier := Decision(HistoryOf(s.history, o.key), o, t);
            CheckBan(Record(s, o, t), o.key, now)
            == if tier == 4 then 4
               else if tier < 2 then CheckBan(s, o.key, now)
               else if now <= o.now + BanMs(tier, t) then tier
               else 0
    ensures Decision(HistoryOf(s.history, o.key), o, t) >= 2 ==>
              o.key in Record(s, o, t).bans && Record(s, o, t).bans[o.key].reason == o.reason
  {}

  /** Nobody else's ban changes, nor anyone's by a rejected call, and a permanent ban stays. */
  lemma {:induction false} OthersKeepTheirs(s: Store, o: Offense, t: Thresholds, key: string, now: int)
    requires key != o.key || !Accepted(o) || key in s.permanent
    ensures CheckBan(Record(s, o, t), key, now) == CheckBan(s, key, now)
  {}

  /** Over any run the ban in force is that of the key's last decision from tier 2 up. */
  lemma {:induction false} BanInForce(calls: seq<Offense>, t: Thresholds, i: nat, now: int)
    requires i < |calls| && calls[i].key !in RecordAll(calls[..i], t).permanent
    requires DecisionAt(calls, i, t) == 2 || DecisionAt(calls, i, t) == 3
    requires forall j :: i < j < |calls| && calls[j].key == calls[i].key ==> DecisionAt(calls, j, t) < 2
    ensures var tier := DecisionAt(calls, i, t);
            CheckBan(RecordAll(calls, t), calls[i].key, now)
            == if now <= calls[i].now + BanMs(tier, t) then tier else 0
    ensures calls[i].key !in RecordAll(calls, t).permanent
  {
    var n := |calls| - 1;
    var pre := calls[..n];
    if i == n {
      BanLasts(RecordAll(pre, t), calls[n], t, now);
    } else {
      forall j | i <= j < n ensures DecisionAt(pre, j, t) == DecisionAt(calls, j, t) { assert pre[..j] == calls[..j]; }
      assert pre[..i] == calls[..i];
      BanInForce(pre, t, i, now);
      BanStays(calls, t, calls[i].key, now);
    }
  }

  /** A last call that decides no ban for `key` leaves its ban alone. */
  lemma {:induction false} BanStays(calls: seq<Offense>, t: Thresholds, key: string, now: int)
    requires calls != [] && key !in RecordAll(calls[..|calls| - 1], t).permanent
    requires calls[|calls| - 1].key == key ==> DecisionAt(calls, |calls| - 1, t) < 2
    ensures CheckBan(RecordAll(calls, t), key, now) == CheckBan(RecordAll(calls[..|calls| - 1], t), key, now)
    ensures key !in RecordAll(calls, t).permanent
  {
    var s, o := RecordAll(calls[..|calls| - 1], t), calls[|calls| - 1];
    if o.key == key && Accepted(o) { BanLasts(s, o, t, now); } else { OthersKeepTheirs(s, o, t, key, now); }
  }

  /** The reported end, in seconds: the ban is in force then, and over a second later. */
  lemma {:induction false} ReportedEnd(s: Store, o: Offense, t: Thresholds)
    requires Accepted(o) && o.key !in s.permanent
    ensures var tier := Decision(HistoryOf(s.history, o.key), o, t);
            var until := UntilSeconds(o, tier, t);
            && (until.Some? <==> tier == 2 || tier == 3)
            && (until.Some? ==> var after := Record(s, o, t);
                                && CheckBan(after, o.key, 1000 * until.value) == tier
                                && CheckBan(after, o.key, 1000 * until.value + 1000) == 0)
  {
    var tier := Decision(HistoryOf(s.history, o.key), o, t);
    if tier == 2 || tier == 3 {
      var u := UntilSeconds(o, tier, t).value;
      assert 1000 * u <= o.now + BanMs(tier, t) < 1000 * u + 1000;
      BanLasts(s, o, t, 1000 * u);
      BanLasts(s, o, t, 1000 * u + 1000);
    }
  }

  // ---- what is counted ------------------------------------------------------------------

  predicate IsTier(e: Event, tier: nat, now: int, windowMs: int) { e.tier == tier && now - e.ts <= windowMs }

  lemma {:induction false} CountIsNumber(h: History, tier: nat, now: int, windowMs: int)
    ensures CountRecent(h, tier, now - windowMs, None) == Number(h, (e: Event) => IsTier(e, tier, now, windowMs))
  {
    if h != [] {
      CountIsNumber(h[1..], tier, now, windowMs);
      assert h == [h[0]] + h[1..];
      NumberCons(h[0], h[1..], (e: Event) => IsTier(e, tier, now, windowMs));
    }
  }

  predicate IsBadSignature(e: Event, now: int) { IsTier(e, 1, now, 60_000) && e.reason == "invalid-signature-burst" }

  lemma {:induction false} BadSignaturesAreNumber(h: History, now: int)
    ensures CountRecent(h, 1, now - MINUTE, Some(INVALID_SIGNATURE_BURST))
         == Number(h, (e: Event) => IsBadSignature(e, now))
  {
    if h != [] {
      BadSignaturesAreNumber(h[1..], now);
      assert h == [h[0]] + h[1..];
      NumberCons(h[0], h[1..], (e: Event) => IsBadSignature(e, now));
    }
  }

  /** Throttles of five minutes, bad signatures of one, soft bans of a day, hard bans of seven. */
  lemma {:induction false} SummaryCounts(h: History, now: int)
    ensures Summarise(h, now)
         == Summary(Number(h, (e: Event) => IsTier(e, 1, now, 300_000)),
                    Number(h, (e: Event) => IsBadSignature(e, now)),
                    Number(h, (e: Event) => IsTier(e, 2, now, 86_400_000)),
                    Number(h, (e: Event) => IsTier(e, 3, now, 604_800_000)))
  {
    CountIsNumber(h, 1, now, 300_000);
    BadSignaturesAreNumber(h, now);
    CountIsNumber(h, 2, now, 86_400_000);
    CountIsNumber(h, 3, now, 604_800_000);
  }

  /** Reading drops the expired events, and nothing but those, and keeps the order. */
  lemma {:induction false} OnlyExpiredDropped(h: History, now: int)
    ensures var live := DropExpired(h, now);
            && (forall e <- live :: e.expiresAt >= now) && Sub(live, h)
            && |live| == Number(h, (e: Event) => e.expiresAt >= now)
  {
    if h != [] {
      OnlyExpiredDropped(h[1..], now);
      assert h == [h[0]] + h[1..];
      NumberCons(h[0], h[1..], (e: Event) => e.expiresAt >= now);
      var rest := DropExpired(h[1..], now);
      assert ([h[0]] + rest)[1..] == rest && [] + rest == rest;
    }
  }

  // ---- what is stored -------------------------------------------------------------------

  const VOCABULARY: seq<string> := [
    "ip-rate-limit", "pubkey-rate-limit", "global-rate-limit", "invalid-signature-burst", "nonce-replay",
    "pubkey-hint-mismatch", "wash-payment", "coordinated-burst", "dormant-revival",
    "deposit-signature-invalid", "deposit-amount-mismatch", "body-too-large", "malformed-payload"
  ]

  /** A call without a key, or with a reason outside the vocabulary, stores nothing; any other leaves an event. */
  lemma {:induction false} OnlyKnownReasons(s: Store, o: Offense, t: Thresholds)
    ensures if o.key == "" || o.reason !in VOCABULARY then Record(s, o, t) == s
            else HistoryOf(Record(s, o, t).history, o.key) == Recorded(HistoryOf(s.history, o.key), o, t)
  {
    InVocabulary();
    if o.reason in VOCABULARY { var i :| 0 <= i < 13 && VOCABULARY[i] == o.reason; }
  }

  lemma {:induction false} InVocabulary()
    ensures forall r <- KNOWN_REASONS :: r in VOCABULARY
  {
    var v := VOCABULARY;
    assert v[0] in v && v[1] in v && v[2] in v && v[3] in v && v[4] in v && v[5] in v && v[6] in v;
    assert v[7] in v && v[8] in v && v[9] in v && v[10] in v && v[11] in v && v[12] in v;
  }

  function EventOf(o: Offense, tier: nat, t: Thresholds): Event { Event(o.now, o.reason, tier, o.now + t.historyTtl) }

  function IfThen(c: bool, e: Event): History { if c then [e] else [] }

  /** While nothing has expired and there is room, a call adds its throttle and one event for each rung it climbs. */
  lemma {:induction false} EventsStored(h: History, o: Offense, t: Thresholds)
    requires t.historyTtl >= 1 && |h| <= 96 && forall i :: 0 <= i < |h| ==> h[i].expiresAt >= o.now
    ensures var d := Decision(h, o, t);
            Recorded(h, o, t)
            == IfThen(d == 4, EventOf(o, 4, t)) + (IfThen(d >= 3, EventOf(o, 3, t))
               + (IfThen(d >= 2 && o.fraud == [], EventOf(o, 2, t)) + ([EventOf(o, 1, t)] + h)))
  {
    var s := Summarise(Observed(h, o, t), o.now);
    ThrottleStored(h, o, t);
    FirstTierOf(h, o, t);
    ClimbedStores([EventOf(o, 1, t)] + h, s, o, t);
    ClimbedLive([EventOf(o, 1, t)] + h, s, o, t);
  }

  lemma {:induction false} ThrottleStored(h: History, o: Offense, t: Thresholds)
    requires |h| <= 96 && forall i :: 0 <= i < |h| ==> h[i].expiresAt >= o.now
    ensures DropExpired(Push(h, o, 1, t.historyTtl), o.now) == [EventOf(o, 1, t)] + h
  {
    NothingExpires([EventOf(o, 1, t)] + h, o.now);
  }

  lemma {:induction false} ClimbedLive(h: History, s: Summary, o: Offense, t: Thresholds)
    requires |h| <= 97 && forall i :: 0 <= i < |h| ==> h[i].expiresAt >= o.now
    ensures DropExpired(Climbed(h, s, o, t), o.now) == Climbed(h, s, o, t)
  {
    ClimbedStores(h, s, o, t);
    NothingExpires(Climbed(h, s, o, t), o.now);
  }

  lemma {:induction false} PushStores(h: History, o: Offense, tier: nat, t: Thresholds, cond: bool)
    requires |h| < 100
    ensures PushIf(h, o, tier, t, cond) == IfThen(cond, EventOf(o, tier, t)) + h
  {}

  lemma {:induction false} ClimbedStores(h: History, s: Summary, o: Offense, t: Thresholds)
    requires |h| <= 97
    ensures Climbed(h, s, o, t)
         == IfThen(Decide(s, o, t) == 4, EventOf(o, 4, t)) + (IfThen(SecondTier(s, o, t) == 3, EventOf(o, 3, t))
            + (IfThen(FirstTier(s, o, t) == 2, EventOf(o, 2, t)) + h))
  {
    var h2 := IfThen(FirstTier(s, o, t) == 2, EventOf(o, 2, t)) + h;
    PushStores(h, o, 2, t, FirstTier(s, o, t) == 2);
    PushStores(h2, o, 3, t, SecondTier(s, o, t) == 3);
    PushStores(IfThen(SecondTier(s, o, t) == 3, EventOf(o, 3, t)) + h2, o, 4, t, Decide(s, o, t) == 4);
  }

  /** Only a call without fraud evidence is soft-banned on the way. */
  lemma {:induction false} FirstTierOf(h: History, o: Offense, t: Thresholds)
    requires t.historyTtl >= 1
    ensures var s := Summarise(Observed(h, o, t), o.now);
            && (FirstTier(s, o, t) == 2 <==> Decision(h, o, t) >= 2 && o.fraud == [])
            && (SecondTier(s, o, t) == 3 <==> Decision(h, o, t) >= 3) && Decide(s, o, t) == Decision(h, o, t)
  {
    var view := Observed(h, o, t);
    assert view[0] == EventOf(o, 1, t);
  }

  lemma {:induction false} NothingExpires(h: History, now: int)
    requires forall i :: 0 <= i < |h| ==> h[i].expiresAt >= now
    ensures DropExpired(h, now) == h
  {
    if h != [] { NothingExpires(h[1..], now); }
  }

  // ---- the decision as a rule -----------------------------------------------------------

  /** How many times the base thresholds a score allows. */
  function Allowance(score: real): nat {
    if score <= 20.0 then 1 else if score <= 50.0 then 2 else if score <= 80.0 then 5 else 10
  }

  /** Paid for the first time less than the whitelist days ago. */
  predicate NewPayer(o: Offense) {
    match o.firstPaidAt
    case Some(first) => o.whitelistDays >= 1 && first >= 1 && o.now - first < 86_400_000 * o.whitelistDays
    case None => false
  }

  /** Rate alone would ban: enough throttles in five minutes, or bad signatures in one, for the score. */
  ghost predicate RateBans(view: History, o: Offense, t: Thresholds) {
    var score := ClampScore(o.score);
    && (score < 81.0 || o.fraud != [])
    && (|| Number(view, (e: Event) => IsTier(e, 1, o.now, 300_000)) >= Allowance(score) * t.throttles
        || Number(view, (e: Event) => IsBadSignature(e, o.now)) >= Allowance(score) * t.invalidSigs)
  }

  /** Fraud evidence with a throttle, or a rate ban that is one of enough within a day. */
  ghost predicate HardBans(view: History, o: Offense, t: Thresholds) {
    || (o.fraud != [] && Number(view, (e: Event) => IsTier(e, 1, o.now, 300_000)) >= 1)
    || (RateBans(view, o, t) && Number(view, (e: Event) => IsTier(e, 2, o.now, 86_400_000)) + 1 >= t.softBans)
  }

  ghost predicate BansForGood(view: History, o: Offense, t: Thresholds) {
    && HardBans(view, o, t) && Number(view, (e: Event) => IsTier(e, 3, o.now, 604_800_000)) + 1 >= t.hardBans
    && o.tierMax >= 4 && ClampScore(o.score) < 51.0 && !NewPayer(o)
  }

  /** The four steps as one rule over the observed events: the highest tier whose condition holds. */
  lemma {:induction false} DecisionByRule(view: History, o: Offense, t: Thresholds)
    ensures TierFor(view, o, t) == if BansForGood(view, o, t) then 4
                                   else if HardBans(view, o, t) then 3
                                   else if RateBans(view, o, t) then 2
                                   else 1
  {
    SummaryCounts(view, o.now);
    assert InWhitelistWindow(o) <==> NewPayer(o);
  }

  /** Fraud evidence always bans hard: the call's own throttle is in sight. */
  lemma {:induction false} FraudBansHard(h: History, o: Offense, t: Thresholds)
    requires o.fraud != [] && t.historyTtl >= 1
    ensures Decision(h, o, t) >= 3
  {
    var view := Observed(h, o, t);
    assert view[0] == Event(o.now, o.reason, 1, o.now + t.historyTtl);
  }

  // ---- first payments -------------------------------------------------------------------

  /** A missing first-payment time is that of the public key inside the ban key; a given one stands. */
  lemma {:induction false} FirstPaymentOf(o: Offense, pubkey: string, firstPaid: map<string, int>)
    requires o.key == "pk:" + pubkey || (o.key == pubkey && !("pk:" <= pubkey))
    ensures Resolved(o, firstPaid)
         == if o.firstPaidAt.Some? || pubkey !in firstPaid then o else o.(firstPaidAt := Some(firstPaid[pubkey]))
  {
    if o.key != pubkey { assert o.key[3..] == pubkey; }
  }
}

/** The enforcement ladder: event history, tier decision and their effect on the store. */
module LadderModel {
  import opened Options
  import opened Trust

  const MINUTE: int := 60_000
  const DAY: int := 24 * 60 * MINUTE
  const CAP: nat := 100
  const INVALID_SIGNATURE_BURST: string := "invalid-signature-burst"

  const KNOWN_REASONS: set<string> := {
    "ip-rate-limit", "pubkey-rate-limit", "global-rate-limit", INVALID_SIGNATURE_BURST, "nonce-replay",
    "pubkey-hint-mismatch", "wash-payment", "coordinated-burst", "dormant-revival",
    "deposit-signature-invalid", "deposit-amount-mismatch", "body-too-large", "malformed-payload"
  }

  datatype Thresholds = Thresholds(throttles: int, invalidSigs: int, softBans: int, hardBans: int,
                                   softBanMs: int, hardBanMs: int, historyTtl: nat)

  const DEFAULTS := Thresholds(3, 10, 3, 3, 300_000, 3_600_000, 604_800_000)

  /** One stored event, with the time its entry expires. */
  datatype Event = Event(ts: int, reason: string, tier: nat, expiresAt: int)

  /** Newest first. */
  type History = seq<Event>

  datatype Offense = Offense(key: string, reason: string, now: int, score: Score, fraud: seq<string>,
                             tierMax: int, whitelistDays: int, firstPaidAt: Option<int>)

  // ---- the store ------------------------------------------------------------------------

  function Capped(h: History): History { if |h| > CAP then h[..CAP] else h }

  function Push(h: History, o: Offense, tier: nat, ttl: int): History {
    Capped([Event(o.now, o.reason, tier, o.now + ttl)] + h)
  }

  function DropExpired(h: History, now: int): History {
    if h == [] then []
    else (if h[0].expiresAt < now then [] else [h[0]]) + DropExpired(h[1..], now)
  }

  /** The read limit is a number of entries. */
  function Newest(h: History, n: nat): History { if |h| > n then h[..n] else h }

  // ---- the decision ---------------------------------------------------------------------

  predicate Counts(e: Event, tier: nat, cutoff: int, reason: Option<string>) {
    e.ts >= cutoff && e.tier == tier && (reason.Some? ==> e.reason == reason.value)
  }

  function CountRecent(h: History, tier: nat, cutoff: int, reason: Option<string>): nat {
    if h == [] then 0
    else (if Counts(h[0], tier, cutoff, reason) then 1 else 0) + CountRecent(h[1..], tier, cutoff, reason)
  }

  datatype Summary = Summary(throttles: nat, invalidSigs: nat, softBans: nat, hardBans: nat)

  function Summarise(h: History, now: int): Summary {
    Summary(CountRecent(h, 1, now - 5 * MINUTE, None),
            CountRecent(h, 1, now - MINUTE, Some(INVALID_SIGNATURE_BURST)),
            CountRecent(h, 2, now - DAY, None),
            CountRecent(h, 3, now - 7 * DAY, None))
  }

  predicate InWhitelistWindow(o: Offense) {
    && o.whitelistDays > 0
    && o.firstPaidAt.Some? && o.firstPaidAt.value > 0
    && o.now - o.firstPaidAt.value < o.whitelistDays * DAY
  }

  /** A high-trust key without fraud evidence is never escalated on rate alone. */
  predicate Uncorroborated(o: Offense) { RequiresFraudCorroboration(o.score) && o.fraud == [] }

  predicate RateTrips(s: Summary, o: Offense, t: Thresholds) {
    s.throttles >= t.throttles * Multiplier(o.score) || s.invalidSigs >= t.invalidSigs * Multiplier(o.score)
  }

  /** Steps 1 and 2: the tier from fraud evidence or rate. */
  function FirstTier(s: Summary, o: Offense, t: Thresholds): nat {
    if o.fraud != [] && s.throttles >= 1 then 3
    else if RateTrips(s, o, t) && !Uncorroborated(o) then 2
    else 1
  }

  /** Step 3: repeated soft bans. */
  function SecondTier(s: Summary, o: Offense, t: Thresholds): nat {
    var first := FirstTier(s, o, t);
    if first == 2 && s.softBans + 1 >= t.softBans && !Uncorroborated(o) then 3 else first
  }

  predicate PermanentAllowed(o: Offense) {
    o.tierMax >= 4 && !Tier4Immune(o.score) && !InWhitelistWindow(o)
  }

  /** Step 4: repeated hard bans. */
  function Decide(s: Summary, o: Offense, t: Thresholds): nat {
    var second := SecondTier(s, o, t);
    if second == 3 && s.hardBans + 1 >= t.hardBans && PermanentAllowed(o) then 4 else second
  }

  /** What the decision sees: the new throttle first, then the history read back. */
  function Observed(h: History, o: Offense, t: Thresholds): History {
    Newest(DropExpired(Push(h, o, 1, t.historyTtl), o.now), t.historyTtl)
  }

  function Decision(h: History, o: Offense, t: Thresholds): nat {
    Decide(Summarise(Observed(h, o, t), o.now), o, t)
  }

  function PushIf(h: History, o: Offense, tier: nat, t: Thresholds, cond: bool): History {
    if cond then Push(h, o, tier, t.historyTtl) else h
  }

  /** One more entry per rung climbed. */
  function Climbed(h: History, s: Summary, o: Offense, t: Thresholds): History {
    var h2 := PushIf(h, o, 2, t, FirstTier(s, o, t) == 2);
    var h3 := PushIf(h2, o, 3, t, SecondTier(s, o, t) == 3);
    PushIf(h3, o, 4, t, Decide(s, o, t) == 4)
  }

  /** The history after a call, expired entries dropped at each reading. */
  function Recorded(h: History, o: Offense, t: Thresholds): History {
    var s := Summarise(Observed(h, o, t), o.now);
    DropExpired(Climbed(DropExpired(Push(h, o, 1, t.historyTtl), o.now), s, o, t), o.now)
  }

  // ---- many keys ------------------------------------------------------------------------

  datatype Ban = Ban(tier: nat, reason: string, until: int)

  datatype Store = Store(history: map<string, History>, bans: map<string, Ban>, permanent: set<string>)

  function HistoryOf(history: map<string, History>, key: string): History {
    if key in history then history[key] else []
  }

  predicate Accepted(o: Offense) { o.key != "" && o.reason in KNOWN_REASONS }

  function BanFor(o: Offense, tier: nat, t: Thresholds): Ban {
    if tier == 2 then Ban(2, o.reason, o.now + t.softBanMs) else Ban(3, o.reason, o.now + t.hardBanMs)
  }

  /** One call; a missing key or unknown reason throws before anything is stored. */
  function Record(s: Store, o: Offense, t: Thresholds): Store {
    if !Accepted(o) then s
    else
      var h := HistoryOf(s.history, o.key);
      var tier := Decision(h, o, t);
      Store(s.history[o.key := Recorded(h, o, t)],
            if tier >= 2 then s.bans[o.key := BanFor(o, tier, t)] else s.bans,
            if tier == 4 then s.permanent + {o.key} else s.permanent)
  }

  const EMPTY_STORE := Store(map[], map[], {})

  function RecordAll(calls: seq<Offense>, t: Thresholds): Store {
    if calls == [] then EMPTY_STORE
    else Record(RecordAll(calls[..|calls| - 1], t), calls[|calls| - 1], t)
  }

  /** The tier in force for a key: permanent first, then a ban that has not run out. */
  function CheckBan(s: Store, key: string, now: int): nat {
    if key in s.permanent then 4
    else if key in s.bans && s.bans[key].until >= now then s.bans[key].tier
    else 0
  }
}

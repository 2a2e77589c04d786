/**
 The whole-run ladder theorem: which tier the n-th offense of a key gets, for every n,
 although the store keeps only the newest hundred events.
 */
module LadderRun {
  import opened Options
  import opened Trust
  import opened LadderModel
  import opened LadderSafety

  const TTL: int := 604_800_000

  /** How many blocks of one offense each are sure to be among the newest hundred events. */
  function Depth(m: nat): nat { if m == 10 then 32 else 20 }

  function ExpectedTier(n: nat, m: nat, o: Offense): nat {
    if n < 3 * m then 1
    else if n < 3 * m + 2 then 2
    else if n >= 3 * m + 4 && PermanentAllowed(o) then 4
    else 3
  }

  function Ev(o: Offense, tier: nat): Event { Event(o.now, o.reason, tier, o.now + TTL) }

  /** The events the n-th offense leaves behind, newest first. */
  function Block(o: Offense, n: nat, m: nat): History {
    Rungs(o, n >= 3 * m, n >= 3 * m + 2, ExpectedTier(n, m, o) == 4)
  }

  /** One event per rung climbed, newest first. */
  function Rungs(o: Offense, two: bool, three: bool, four: bool): History {
    (if four then [Ev(o, 4)] else [])
    + ((if three then [Ev(o, 3)] else []) + ((if two then [Ev(o, 2)] else []) + [Ev(o, 1)]))
  }

  /** The blocks of the last `k` offenses. */
  function Recent(cs: seq<Offense>, k: nat, m: nat): History
    requires k <= |cs|
  {
    if k == 0 then []
    else Block(cs[|cs| - 1], |cs|, m) + Recent(cs[..|cs| - 1], k - 1, m)
  }

  function HistoryAfter(cs: seq<Offense>): History {
    if cs == [] then [] else Recorded(HistoryAfter(cs[..|cs| - 1]), cs[|cs| - 1], DEFAULTS)
  }

  /** All within five minutes of `start`, in order, at multiplier `m`, with no fraud signals. */
  predicate Regular(cs: seq<Offense>, m: nat, start: int) {
    && (forall i :: 0 <= i < |cs| ==>
          && Multiplier(cs[i].score) == m && cs[i].fraud == [] && start <= cs[i].now <= start + 300_000
          && !RequiresFraudCorroboration(cs[i].score))
    && (forall i, j :: 0 <= i < j < |cs| ==> cs[i].now <= cs[j].now)
  }

  predicate Unexpired(h: History, start: int) {
    forall i :: 0 <= i < |h| ==> h[i].ts >= start && h[i].expiresAt >= start + TTL
  }

  /** The newest blocks are intact, and before the history outgrows them it is exactly them. */
  predicate Intact(h: History, cs: seq<Offense>, m: nat) {
    var k := if |cs| < Depth(m) then |cs| else Depth(m);
    && Recent(cs, k, m) <= h
    && (|cs| <= Depth(m) ==> h == Recent(cs, k, m))
    && |h| <= CAP
  }

  // ---- the list operations --------------------------------------------------------------

  lemma {:induction false} NothingExpired(h: History, start: int, now: int)
    requires Unexpired(h, start) && now <= start + TTL
    ensures DropExpired(h, now) == h
  {
    if h != [] {
      assert Unexpired(h[1..], start) by {
        forall i | 0 <= i < |h[1..]| ensures h[1..][i] == h[i + 1] {}
      }
      NothingExpired(h[1..], start, now);
    }
  }

  lemma {:induction false} PushOnPrefix(h: History, r: History, o: Offense, tier: nat, start: int)
    requires r <= h && |r| < CAP && |h| <= CAP && Unexpired(h, start) && start <= o.now
    ensures var p := Push(h, o, tier, TTL);
            && [Ev(o, tier)] + r <= p && |p| <= CAP && Unexpired(p, start)
            && (h == r ==> p == [Ev(o, tier)] + r)
  {
    var q := [Ev(o, tier)] + h;
    assert [Ev(o, tier)] + r <= q;
    assert Unexpired(q, start);
  }

  lemma {:induction false} RecentSize(cs: seq<Offense>, k: nat, m: nat)
    requires k <= |cs| && forall i :: 0 <= i < |cs| ==> Multiplier(cs[i].score) == m
    ensures |Recent(cs, k, m)| <= (if m == 10 then 3 else 4) * k
  {
    if k > 0 {
      RecentSize(cs[..|cs| - 1], k - 1, m);
    }
  }

  lemma {:induction false} RecentPrefix(cs: seq<Offense>, k: nat, l: nat, m: nat)
    requires k <= l <= |cs|
    ensures Recent(cs, k, m) <= Recent(cs, l, m)
  {
    if k > 0 {
      RecentPrefix(cs[..|cs| - 1], k - 1, l - 1, m);
    }
  }

  // ---- counting the blocks --------------------------------------------------------------

  /** From which offense on a tier is recorded. */
  function FirstAt(tier: nat, m: nat): nat
    requires 1 <= tier <= 3
  {
    if tier == 1 then 1 else if tier == 2 then 3 * m else 3 * m + 2
  }

  function Max(a: int, b: int): int { if a > b then a else b }

  lemma {:induction false} CountBlock(o: Offense, n: nat, m: nat, tier: nat, cutoff: int)
    requires 1 <= tier <= 3 && cutoff <= o.now
    ensures CountRecent(Block(o, n, m), tier, cutoff, None) == if tier == 1 || n >= FirstAt(tier, m) then 1 else 0
  {
    var b4 := if ExpectedTier(n, m, o) == 4 then [Ev(o, 4)] else [];
    var b3 := if n >= 3 * m + 2 then [Ev(o, 3)] else [];
    var b2 := if n >= 3 * m then [Ev(o, 2)] else [];
    CountAppend(b4, b3 + (b2 + [Ev(o, 1)]), tier, cutoff, None);
    CountAppend(b3, b2 + [Ev(o, 1)], tier, cutoff, None);
    CountAppend(b2, [Ev(o, 1)], tier, cutoff, None);
  }

  lemma {:induction false} CountRecentBlocks(cs: seq<Offense>, k: nat, m: nat, tier: nat, cutoff: int)
    requires k <= |cs| && 1 <= tier <= 3 && m >= 1
    requires forall i :: 0 <= i < |cs| ==> cutoff <= cs[i].now
    ensures CountRecent(Recent(cs, k, m), tier, cutoff, None) == Max(0, |cs| - Max(|cs| - k, FirstAt(tier, m) - 1))
  {
    if k > 0 {
      var n := |cs|;
      CountRecentBlocks(cs[..n - 1], k - 1, m, tier, cutoff);
      CountBlock(cs[n - 1], n, m, tier, cutoff);
      CountAppend(Block(cs[n - 1], n, m), Recent(cs[..n - 1], k - 1, m), tier, cutoff, None);
    }
  }

  /** The counts a decision sees: exact at first, and past every threshold later. */
  lemma {:induction false} SeenCount(h: History, cs: seq<Offense>, o: Offense, m: nat, tier: nat, start: int,
                                     cutoff: int)
    requires 1 <= tier <= 3 && m in {1, 2, 5, 10} && Intact(h, cs, m) && Unexpired(h, start)
    requires Regular(cs + [o], m, start) && cutoff <= start
    ensures var c := CountRecent(Observed(h, o, DEFAULTS), tier, cutoff, None);
            var exact := (if tier == 1 then 1 else 0) + Max(0, |cs| - (FirstAt(tier, m) - 1));
            if |cs| <= Depth(m) then c == exact else c >= if tier == 1 then 3 * m else 2
  {
    var k := if |cs| < Depth(m) then |cs| else Depth(m);
    var r := Recent(cs, k, m);
    assert (cs + [o])[|cs|] == o;
    forall i | 0 <= i < |cs|
      ensures cutoff <= cs[i].now && Multiplier(cs[i].score) == m
    {
      assert (cs + [o])[i] == cs[i];
    }
    RecentSize(cs, k, m);
    ObservedCount(h, r, o, tier, start, cutoff);
    CountRecentBlocks(cs, k, m, tier, cutoff);
  }

  /** What is known of the history bounds what is counted, and fixes it when it is all there is. */
  lemma {:induction false} ObservedCount(h: History, r: History, o: Offense, tier: nat, start: int, cutoff: int)
    requires r <= h && |r| < CAP && |h| <= CAP && Unexpired(h, start) && start <= o.now <= start + 5 * MINUTE
    requires cutoff <= o.now
    ensures var c := CountRecent(Observed(h, o, DEFAULTS), tier, cutoff, None);
            var known := (if tier == 1 then 1 else 0) + CountRecent(r, tier, cutoff, None);
            c >= known && (h == r ==> c == known)
  {
    var p := Push(h, o, 1, TTL);
    PushOnPrefix(h, r, o, 1, start);
    NothingExpired(p, start, o.now);
    assert Observed(h, o, DEFAULTS) == p;
    CountAppend([Ev(o, 1)], r, tier, cutoff, None);
    assert p[..|[Ev(o, 1)] + r|] == [Ev(o, 1)] + r;
    CountPrefix(p, |[Ev(o, 1)] + r|, tier, cutoff, None);
  }

  /** The decision on the next offense. */
  lemma {:induction false} NextDecision(h: History, cs: seq<Offense>, o: Offense, m: nat, start: int)
    requires m in {1, 2, 5, 10} && Intact(h, cs, m) && Unexpired(h, start) && Regular(cs + [o], m, start)
    ensures var s := Summarise(Observed(h, o, DEFAULTS), o.now);
            var n := |cs| + 1;
            && (FirstTier(s, o, DEFAULTS) == if n >= 3 * m then 2 else 1)
            && (SecondTier(s, o, DEFAULTS) == if n >= 3 * m + 2 then 3 else FirstTier(s, o, DEFAULTS))
            && Decide(s, o, DEFAULTS) == ExpectedTier(n, m, o)
  {
    assert (cs + [o])[|cs|] == o;
    SeenCount(h, cs, o, m, 1, start, o.now - 5 * MINUTE);
    SeenCount(h, cs, o, m, 2, start, o.now - DAY);
    SeenCount(h, cs, o, m, 3, start, o.now - 7 * DAY);
    SignatureBurstSubsumed(Observed(h, o, DEFAULTS), o);
  }

  lemma {:induction false} PushIfOnPrefix(h: History, r: History, o: Offense, tier: nat, start: int, cond: bool)
    requires r <= h && |r| < CAP && |h| <= CAP && Unexpired(h, start) && start <= o.now
    ensures var p := PushIf(h, o, tier, DEFAULTS, cond);
            var q := (if cond then [Ev(o, tier)] else []) + r;
            q <= p && |p| <= CAP && Unexpired(p, start) && (h == r ==> p == q)
  {
    PushOnPrefix(h, r, o, tier, start);
  }

  /** Four pushes, the last three conditional. */
  function Pushed(h: History, o: Offense, two: bool, three: bool, four: bool): History {
    PushIf(PushIf(PushIf(Push(h, o, 1, TTL), o, 2, DEFAULTS, two), o, 3, DEFAULTS, three), o, 4, DEFAULTS, four)
  }

  lemma {:induction false} PushedOnPrefix(h: History, r: History, o: Offense, start: int, two: bool, three: bool,
                                          four: bool)
    requires r <= h && |r| <= 96 && |h| <= CAP && Unexpired(h, start) && start <= o.now
    ensures var p := Pushed(h, o, two, three, four);
            var q := Rungs(o, two, three, four) + r;
            q <= p && |p| <= CAP && Unexpired(p, start) && (h == r ==> p == q)
  {
    var h1, r1 := Push(h, o, 1, TTL), [Ev(o, 1)] + r;
    PushOnPrefix(h, r, o, 1, start);
    var h2, r2 := PushIf(h1, o, 2, DEFAULTS, two), (if two then [Ev(o, 2)] else []) + r1;
    PushIfOnPrefix(h1, r1, o, 2, start, two);
    var h3, r3 := PushIf(h2, o, 3, DEFAULTS, three), (if three then [Ev(o, 3)] else []) + r2;
    PushIfOnPrefix(h2, r2, o, 3, start, three);
    PushIfOnPrefix(h3, r3, o, 4, start, four);
    RungsAppend(o, two, three, four, r);
  }

  lemma {:induction false} RungsAppend(o: Offense, two: bool, three: bool, four: bool, r: History)
    ensures Rungs(o, two, three, four) + r
         == (if four then [Ev(o, 4)] else [])
            + ((if three then [Ev(o, 3)] else []) + ((if two then [Ev(o, 2)] else []) + ([Ev(o, 1)] + r)))
  {}

  /** A call on a young history is just its pushes. */
  lemma {:induction false} RecordedIsPushed(h: History, o: Offense, start: int)
    requires |h| <= CAP && Unexpired(h, start) && start <= o.now <= start + 5 * MINUTE
    ensures var s := Summarise(Observed(h, o, DEFAULTS), o.now);
            Recorded(h, o, DEFAULTS) == Pushed(h, o, FirstTier(s, o, DEFAULTS) == 2, SecondTier(s, o, DEFAULTS) == 3,
                                               Decide(s, o, DEFAULTS) == 4)
  {
    var s := Summarise(Observed(h, o, DEFAULTS), o.now);
    PushOnPrefix(h, [], o, 1, start);
    NothingExpired(Push(h, o, 1, TTL), start, o.now);
    PushedOnPrefix(h, [], o, start, FirstTier(s, o, DEFAULTS) == 2, SecondTier(s, o, DEFAULTS) == 3,
                   Decide(s, o, DEFAULTS) == 4);
    NothingExpired(Pushed(h, o, FirstTier(s, o, DEFAULTS) == 2, SecondTier(s, o, DEFAULTS) == 3,
                          Decide(s, o, DEFAULTS) == 4), start, o.now);
  }

  /** Recording the next offense puts its block in front. */
  lemma {:induction false} NextHistory(h: History, cs: seq<Offense>, o: Offense, m: nat, start: int)
    requires m in {1, 2, 5, 10} && Intact(h, cs, m) && Unexpired(h, start) && Regular(cs + [o], m, start)
    ensures var k := if |cs| < Depth(m) then |cs| else Depth(m);
            var t := Recorded(h, o, DEFAULTS);
            var b := Block(o, |cs| + 1, m) + Recent(cs, k, m);
            b <= t && |t| <= CAP && Unexpired(t, start) && (|cs| <= Depth(m) ==> t == b)
  {
    var k := if |cs| < Depth(m) then |cs| else Depth(m);
    var n := |cs| + 1;
    assert (cs + [o])[|cs|] == o;
    forall i | 0 <= i < |cs| ensures Multiplier(cs[i].score) == m { assert (cs + [o])[i] == cs[i]; }
    RecentSize(cs, k, m);
    NextDecision(h, cs, o, m, start);
    RecordedBlock(h, Recent(cs, k, m), o, n, m, start);
  }

  /** A call decided as expected puts its block in front of whatever is known of the history. */
  lemma {:induction false} RecordedBlock(h: History, r: History, o: Offense, n: nat, m: nat, start: int)
    requires r <= h && |r| <= 96 && |h| <= CAP && Unexpired(h, start) && start <= o.now <= start + 5 * MINUTE
    requires var s := Summarise(Observed(h, o, DEFAULTS), o.now);
             && (FirstTier(s, o, DEFAULTS) == 2 <==> n >= 3 * m)
             && (SecondTier(s, o, DEFAULTS) == 3 <==> n >= 3 * m + 2)
             && Decide(s, o, DEFAULTS) == ExpectedTier(n, m, o)
    ensures var t := Recorded(h, o, DEFAULTS);
            var b := Block(o, n, m) + r;
            b <= t && |t| <= CAP && Unexpired(t, start) && (h == r ==> t == b)
  {
    RecordedIsPushed(h, o, start);
    PushedOnPrefix(h, r, o, start, n >= 3 * m, n >= 3 * m + 2, ExpectedTier(n, m, o) == 4);
  }

  /** Once more than `Depth(m)` blocks are held, the oldest of them no longer matters. */
  lemma {:induction false} IntactNext(cs: seq<Offense>, t: History, m: nat)
    requires cs != [] && |t| <= CAP
    requires var n := |cs| - 1;
             var b := Block(cs[n], n + 1, m) + Recent(cs[..n], if n < Depth(m) then n else Depth(m), m);
             b <= t && (n <= Depth(m) ==> t == b)
    ensures Intact(t, cs, m)
  {
    var n := |cs| - 1;
    if n >= Depth(m) {
      RecentPrefix(cs, Depth(m), Depth(m) + 1, m);
    }
  }

  lemma {:induction false} HistoryIntact(cs: seq<Offense>, m: nat, start: int)
    requires m in {1, 2, 5, 10} && Regular(cs, m, start)
    ensures Intact(HistoryAfter(cs), cs, m) && Unexpired(HistoryAfter(cs), start)
  {
    if cs != [] {
      var n := |cs| - 1;
      var pre, o := cs[..n], cs[n];
      assert pre + [o] == cs;
      HistoryIntact(pre, m, start);
      NextHistory(HistoryAfter(pre), pre, o, m, start);
      IntactNext(cs, HistoryAfter(cs), m);
    }
  }

  // ---- one key among many ---------------------------------------------------------------

  function KeyCalls(calls: seq<Offense>, key: string): seq<Offense> {
    if calls == [] then []
    else
      var o := calls[|calls| - 1];
      KeyCalls(calls[..|calls| - 1], key) + (if Accepted(o) && o.key == key then [o] else [])
  }

  /** Other keys do not disturb a key's history. */
  lemma {:induction false} KeysAreIndependent(calls: seq<Offense>, key: string)
    ensures HistoryOf(RecordAll(calls, DEFAULTS).history, key) == HistoryAfter(KeyCalls(calls, key))
  {
    if calls != [] {
      var n := |calls| - 1;
      KeysAreIndependent(calls[..n], key);
      var pre := KeyCalls(calls[..n], key);
      if Accepted(calls[n]) && calls[n].key == key {
        assert (pre + [calls[n]])[..|pre|] == pre;
      } else {
        assert pre + [] == pre;
      }
    }
  }

  /**
   In any run over any keys: if the offenses of one key fall within five minutes, carry no fraud signals
   and have one multiplier and a score below 81, the n-th of them is decided as `ExpectedTier` says.
   */
  lemma {:induction false} NthDecision(calls: seq<Offense>, i: nat, m: nat, start: int)
    requires i < |calls| && Accepted(calls[i]) && m in {1, 2, 5, 10}
    requires Regular(KeyCalls(calls[..i + 1], calls[i].key), m, start)
    ensures DecisionAt(calls, i, DEFAULTS) == ExpectedTier(|KeyCalls(calls[..i + 1], calls[i].key)|, m, calls[i])
  {
    var o := calls[i];
    assert calls[..i + 1][..i] == calls[..i];
    var cs := KeyCalls(calls[..i], o.key);
    assert KeyCalls(calls[..i + 1], o.key) == cs + [o];
    RegularPrefix(cs, o, m, start);
    KeysAreIndependent(calls[..i], o.key);
    HistoryIntact(cs, m, start);
    NextDecision(HistoryAfter(cs), cs, o, m, start);
  }

  lemma {:induction false} RegularPrefix(cs: seq<Offense>, o: Offense, m: nat, start: int)
    requires Regular(cs + [o], m, start)
    ensures Regular(cs, m, start)
  {
    forall i | 0 <= i < |cs| ensures cs[i] == (cs + [o])[i] {}
  }

  /** Tier 4 needs a multiplier of at most 2 among whole-number scores. */
  lemma {:induction false} PermanentMultiplier(o: Offense)
    requires BandsAlign(o.score)
    ensures PermanentAllowed(o) <==> o.tierMax >= 4 && Multiplier(o.score) <= 2 && !InWhitelistWindow(o)
  {}

  /** From score 81 on, rate alone never leaves tier 1, whatever the history holds. */
  lemma {:induction false} HighTrustStaysThrottled(calls: seq<Offense>, i: nat, t: Thresholds)
    requires i < |calls| && Accepted(calls[i])
    requires RequiresFraudCorroboration(calls[i].score) && calls[i].fraud == []
    ensures DecisionAt(calls, i, t) == 1
  {}
}

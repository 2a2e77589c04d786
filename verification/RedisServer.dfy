/**
 The sorted set on its own clock.  Several processes share it: an operation carries the time at which its
 request arrived, and the server runs it up to `delay` ms later.
 */
module RedisServer {
  import opened SlidingWindow
  import opened RedisWindow
  import opened WindowExactness

  datatype Stamped = Stamped(op: Op, at: int)

  /** The key and all admissions ever made on it. */
  datatype ZBucket = ZBucket(key: ZKey, admitted: seq<Hit>)

  const EMPTY := ZBucket(Absent, [])

  function ServeOp(b: ZBucket, x: Stamped, windowMs: int): ZBucket {
    match x.op
    case Use(c) =>
      var (k, r) := ServerConsume(b.key, c, windowMs, x.at);
      ZBucket(k, if r.ok then b.admitted + [Hit(c.now, c.member)] else b.admitted)
    case Ask(now) => ZBucket(ServerQuery(b.key, now, windowMs, x.at).0, b.admitted)
  }

  function ServeOps(xs: seq<Stamped>, windowMs: int): ZBucket {
    if xs == [] then EMPTY else ServeOp(ServeOps(xs[..|xs| - 1], windowMs), xs[|xs| - 1], windowMs)
  }

  /** The server's clock does not go back, and no operation runs before its time or more than `delay` after it. */
  ghost predicate Orderly(xs: seq<Stamped>, delay: nat) {
    (forall i :: DelayedAt(xs, delay, i)) && forall i, j :: ServedAt(xs, i, j)
  }

  predicate DelayedAt(xs: seq<Stamped>, delay: nat, i: int) {
    0 <= i < |xs| ==> 0 <= OpTime(xs[i].op) <= xs[i].at <= OpTime(xs[i].op) + delay
  }

  predicate ServedAt(xs: seq<Stamped>, i: int, j: int) { 0 <= i < j < |xs| ==> xs[i].at <= xs[j].at }

  ghost predicate FreshUses(xs: seq<Stamped>) { forall i, j :: FreshAt(xs, i, j) }

  predicate FreshAt(xs: seq<Stamped>, i: int, j: int) {
    0 <= i < j < |xs| && xs[i].op.Use? && xs[j].op.Use? ==> xs[i].op.call.member != xs[j].op.call.member
  }

  ghost predicate LimitsAtMost(xs: seq<Stamped>, max: nat) { forall i :: LimitAt(xs, max, i) }

  predicate LimitAt(xs: seq<Stamped>, max: nat, i: int) {
    0 <= i < |xs| && xs[i].op.Use? ==> xs[i].op.call.max <= max
  }

  // ---- what the key holds ---------------------------------------------------------------

  /** Every admission later than `now - windowMs` is in a live key, under its own member. */
  ghost predicate HoldsRecent(b: ZBucket, windowMs: int, now: int) {
    forall h <- b.admitted :: h.ts <= now && (h.ts > now - windowMs ==> Held(b.key, h, windowMs))
  }

  predicate Held(k: ZKey, h: Hit, windowMs: int) {
    k.Present? && h.member in k.scores && k.scores[h.member] == h.ts && h.ts <= k.expireAt - windowMs
  }

  /** No score outlives the key's expiry by less than the window. */
  ghost predicate ScoresOld(k: ZKey, windowMs: int) {
    k.Present? ==> forall m <- k.scores :: k.scores[m] <= k.expireAt - windowMs
  }

  lemma {:induction false} HeldSurvives(k: ZKey, h: Hit, windowMs: int, at: int, cutoff: int)
    requires Held(k, h, windowMs) && at - windowMs < h.ts && cutoff <= at - windowMs
    ensures h.member in RemRange(Live(k, at), cutoff) && RemRange(Live(k, at), cutoff)[h.member] == h.ts
    ensures Held(Pruned(k, at, cutoff), h, windowMs)
  {}

  lemma {:induction false} UseHolds(b: ZBucket, c: Call, at: int, windowMs: int, now: int)
    requires windowMs > 0 && HoldsRecent(b, windowMs, now) && now <= at && c.now <= at
    requires forall h <- b.admitted :: h.member != c.member
    ensures HoldsRecent(ServeOp(b, Stamped(Use(c), at), windowMs), windowMs, at)
  {
    var t := ServeOp(b, Stamped(Use(c), at), windowMs);
    forall h | h in t.admitted ensures h.ts <= at && (h.ts > at - windowMs ==> Held(t.key, h, windowMs)) {
      if h in b.admitted && h.ts > at - windowMs {
        HeldSurvives(b.key, h, windowMs, at, c.now - windowMs);
      }
    }
  }

  lemma {:induction false} AskHolds(b: ZBucket, asked: int, at: int, windowMs: int, now: int)
    requires HoldsRecent(b, windowMs, now) && now <= at && asked <= at
    ensures HoldsRecent(ServeOp(b, Stamped(Ask(asked), at), windowMs), windowMs, at)
  {
    forall h | h in b.admitted && h.ts > at - windowMs
      ensures Held(ServerQuery(b.key, asked, windowMs, at).0, h, windowMs)
    {
      HeldSurvives(b.key, h, windowMs, at, asked - windowMs);
    }
  }

  /** Admissions come from the uses, each with its member. */
  ghost predicate FromUses(admitted: seq<Hit>, xs: seq<Stamped>) {
    (forall h <- admitted :: UsedIn(xs, h.member)) && Distinct(admitted)
  }

  ghost predicate UsedIn(xs: seq<Stamped>, member: nat) { exists i :: UsedAt(xs, member, i) }

  predicate UsedAt(xs: seq<Stamped>, member: nat, i: int) {
    0 <= i < |xs| && xs[i].op.Use? && xs[i].op.call.member == member
  }

  ghost predicate Distinct(hits: seq<Hit>) { forall i, j :: DistinctAt(hits, i, j) }

  predicate DistinctAt(hits: seq<Hit>, i: int, j: int) { 0 <= i < j < |hits| ==> hits[i].member != hits[j].member }

  lemma {:induction false} NewMember(xs: seq<Stamped>, admitted: seq<Hit>)
    requires xs != [] && FreshUses(xs) && FromUses(admitted, xs[..|xs| - 1]) && xs[|xs| - 1].op.Use?
    ensures forall h <- admitted :: h.member != xs[|xs| - 1].op.call.member
  {
    var n := |xs| - 1;
    forall h | h in admitted ensures h.member != xs[n].op.call.member {
      var i :| UsedAt(xs[..n], h.member, i);
      assert FreshAt(xs, i, n);
    }
  }

  lemma {:induction false} FromUsesMore(admitted: seq<Hit>, xs: seq<Stamped>, x: Stamped)
    requires FromUses(admitted, xs)
    ensures FromUses(admitted, xs + [x])
  {
    forall h | h in admitted ensures UsedIn(xs + [x], h.member) {
      var i :| UsedAt(xs, h.member, i);
      assert UsedAt(xs + [x], h.member, i);
    }
  }

  lemma {:induction false} FromUsesNext(admitted: seq<Hit>, xs: seq<Stamped>, x: Stamped)
    requires FromUses(admitted, xs) && x.op.Use? && forall h <- admitted :: h.member != x.op.call.member
    ensures FromUses(admitted + [Hit(x.op.call.now, x.op.call.member)], xs + [x])
  {
    FromUsesMore(admitted, xs, x);
    var hits, all := admitted + [Hit(x.op.call.now, x.op.call.member)], xs + [x];
    assert UsedAt(all, x.op.call.member, |xs|);
    forall i, j ensures DistinctAt(hits, i, j) {
      if 0 <= i < j < |hits| {
        assert hits[i] == admitted[i] && admitted[i] in admitted;
        assert DistinctAt(admitted, i, j);
      }
    }
  }

  /** A prefix of an orderly, fresh sequence is one. */
  lemma {:induction false} Prefix(xs: seq<Stamped>, delay: nat)
    requires xs != [] && Orderly(xs, delay) && FreshUses(xs)
    ensures var pre := xs[..|xs| - 1];
            Orderly(pre, delay) && FreshUses(pre) && ServedBy(pre, xs[|xs| - 1].at)
  {
    var n := |xs| - 1;
    var pre := xs[..n];
    forall i, j ensures ServedAt(pre, i, j) { assert ServedAt(xs, i, j); }
    forall i, j ensures FreshAt(pre, i, j) { assert FreshAt(xs, i, j); }
    forall i ensures DelayedAt(pre, delay, i) { assert DelayedAt(xs, delay, i); }
    forall i ensures RunBy(pre, xs[n].at, i) { assert ServedAt(xs, i, n); }
  }

  /** Every operation has run by `now`. */
  ghost predicate ServedBy(xs: seq<Stamped>, now: int) { forall i :: RunBy(xs, now, i) }

  predicate RunBy(xs: seq<Stamped>, now: int, i: int) { 0 <= i < |xs| ==> xs[i].at <= now }

  lemma {:induction false} StepHolds(b: ZBucket, pre: seq<Stamped>, x: Stamped, windowMs: int)
    requires windowMs > 0 && HoldsRecent(b, windowMs, x.at) && FromUses(b.admitted, pre) && OpTime(x.op) <= x.at
    requires FreshUses(pre + [x])
    ensures var t := ServeOp(b, x, windowMs); HoldsRecent(t, windowMs, x.at) && FromUses(t.admitted, pre + [x])
  {
    FromUsesMore(b.admitted, pre, x);
    match x.op
    case Use(c) =>
      assert (pre + [x])[..|pre|] == pre;
      NewMember(pre + [x], b.admitted);
      UseHolds(b, c, x.at, windowMs, x.at);
      FromUsesNext(b.admitted, pre, x);
    case Ask(asked) => AskHolds(b, asked, x.at, windowMs, x.at);
  }

  lemma {:induction false} HoldsLater(b: ZBucket, windowMs: int, now: int, then': int)
    requires HoldsRecent(b, windowMs, now) && now <= then'
    ensures HoldsRecent(b, windowMs, then')
  {}

  // ---- the bound ------------------------------------------------------------------------

  function MembersIn(hits: seq<Hit>, lo: int, hi: int): set<nat> {
    if hits == [] then {} else (if lo < hits[0].ts <= hi then {hits[0].member} else {}) + MembersIn(hits[1..], lo, hi)
  }

  lemma {:induction false} MembersWithin(hits: seq<Hit>, lo: int, hi: int)
    requires Distinct(hits)
    ensures |MembersIn(hits, lo, hi)| == Within(hits, lo, hi)
    ensures forall m <- MembersIn(hits, lo, hi) ::
              exists i :: 0 <= i < |hits| && hits[i].member == m && lo < hits[i].ts <= hi
  {
    if hits != [] {
      var rest := hits[1..];
      forall i, j ensures DistinctAt(rest, i, j) { assert DistinctAt(hits, i + 1, j + 1); }
      MembersWithin(rest, lo, hi);
      forall m | m in MembersIn(hits, lo, hi)
        ensures exists i :: 0 <= i < |hits| && hits[i].member == m && lo < hits[i].ts <= hi
      {
        if m in MembersIn(rest, lo, hi) {
          var i :| 0 <= i < |rest| && rest[i].member == m && lo < rest[i].ts <= hi;
          assert hits[i + 1] == rest[i];
        }
      }
      forall i | 0 <= i < |rest| ensures rest[i].member != hits[0].member { assert DistinctAt(hits, 0, i + 1); }
    }
  }

  lemma {:induction false} SubsetSize(a: set<nat>, b: set<nat>)
    requires a <= b
    ensures |a| <= |b|
  {
    assert b == a + (b - a);
  }

  /** A use that is admitted sees every admission of its window that the delay cannot have hidden. */
  lemma {:induction false} SeesWindow(b: ZBucket, xs: seq<Stamped>, c: Call, at: int, windowMs: int, lo: int, hi: int)
    requires HoldsRecent(b, windowMs, at) && FromUses(b.admitted, xs) && c.now <= at && at - windowMs <= lo
    ensures Within(b.admitted, lo, hi) <= |RemRange(Live(b.key, at), c.now - windowMs)|
  {
    var z := RemRange(Live(b.key, at), c.now - windowMs);
    MembersWithin(b.admitted, lo, hi);
    forall m | m in MembersIn(b.admitted, lo, hi) ensures m in z {
      var i :| 0 <= i < |b.admitted| && b.admitted[i].member == m && lo < b.admitted[i].ts <= hi;
      assert b.admitted[i] in b.admitted;
      HeldSurvives(b.key, b.admitted[i], windowMs, at, c.now - windowMs);
    }
    SubsetSize(MembersIn(b.admitted, lo, hi), z.Keys);
    assert |z.Keys| == |z|;
  }

  lemma {:induction false} UseBound(b: ZBucket, pre: seq<Stamped>, x: Stamped, windowMs: int, lo: int, hi: int,
                                    delay: nat, max: nat)
    requires x.op.Use? && x.op.call.max <= max && hi - lo <= windowMs - delay
    requires x.op.call.now <= x.at <= x.op.call.now + delay
    requires HoldsRecent(b, windowMs, x.at) && FromUses(b.admitted, pre) && Within(b.admitted, lo, hi) <= max
    ensures Within(ServeOp(b, x, windowMs).admitted, lo, hi) <= max
  {
    var c := x.op.call;
    WithinSnoc(b.admitted, Hit(c.now, c.member), lo, hi);
    if lo < c.now <= hi { SeesWindow(b, pre, c, x.at, windowMs, lo, hi); }
  }

  /** Orderly operations with fresh members and limits of at most `max`. */
  ghost predicate ServerLegal(xs: seq<Stamped>, max: nat, delay: nat) {
    Orderly(xs, delay) && FreshUses(xs) && LimitsAtMost(xs, max)
  }

  lemma {:induction false} LegalBefore(xs: seq<Stamped>, max: nat, delay: nat)
    requires xs != [] && ServerLegal(xs, max, delay)
    ensures var pre, x := xs[..|xs| - 1], xs[|xs| - 1];
            && ServerLegal(pre, max, delay) && ServedBy(pre, x.at)
            && OpTime(x.op) <= x.at <= OpTime(x.op) + delay && (x.op.Use? ==> x.op.call.max <= max)
  {
    var pre := xs[..|xs| - 1];
    Prefix(xs, delay);
    assert DelayedAt(xs, delay, |pre|) && LimitAt(xs, max, |pre|);
    forall i ensures LimitAt(pre, max, i) { assert LimitAt(xs, max, i); }
  }

  lemma {:induction false} RunBound(xs: seq<Stamped>, windowMs: int, delay: nat, max: nat, now: int, lo: int, hi: int)
    requires windowMs > 0 && ServerLegal(xs, max, delay) && ServedBy(xs, now) && hi - lo <= windowMs - delay
    ensures var b := ServeOps(xs, windowMs);
            HoldsRecent(b, windowMs, now) && FromUses(b.admitted, xs) && Within(b.admitted, lo, hi) <= max
  {
    if xs != [] {
      var pre, x := xs[..|xs| - 1], xs[|xs| - 1];
      assert RunBy(xs, now, |pre|) && pre + [x] == xs;
      LegalBefore(xs, max, delay);
      RunBound(pre, windowMs, delay, max, x.at, lo, hi);
      StepHolds(ServeOps(pre, windowMs), pre, x, windowMs);
      HoldsLater(ServeOps(xs, windowMs), windowMs, x.at, now);
      if x.op.Use? { UseBound(ServeOps(pre, windowMs), pre, x, windowMs, lo, hi, delay, max); }
    }
  }

  function EndOf(xs: seq<Stamped>): int { if xs == [] then 0 else xs[|xs| - 1].at }

  lemma {:induction false} EndServes(xs: seq<Stamped>, delay: nat)
    requires Orderly(xs, delay)
    ensures ServedBy(xs, EndOf(xs))
  {
    forall i ensures RunBy(xs, EndOf(xs), i) {
      if 0 <= i < |xs| - 1 { assert ServedAt(xs, i, |xs| - 1); }
    }
  }

  /**
   The window bound on the server's clock: with operations delayed by at most `delay`, key expiry and
   queries included, every interval no longer than `windowMs - delay` holds at most `max` admissions.
   */
  lemma {:induction false} ServerBound(xs: seq<Stamped>, windowMs: int, delay: nat, max: nat, len: int, t: int)
    requires windowMs > 0 && ServerLegal(xs, max, delay) && len <= windowMs - delay
    ensures Within(ServeOps(xs, windowMs).admitted, t - len, t) <= max
  {
    EndServes(xs, delay);
    RunBound(xs, windowMs, delay, max, EndOf(xs), t - len, t);
  }

  // ---- expiry ---------------------------------------------------------------------------

  lemma {:induction false} RunScoresOld(xs: seq<Stamped>, windowMs: int, delay: nat)
    requires windowMs > 0 && Orderly(xs, delay)
    ensures var k := ServeOps(xs, windowMs).key;
            ScoresOld(k, windowMs)
            && (xs != [] && k.Present? ==> forall m <- k.scores :: k.scores[m] <= xs[|xs| - 1].at)
  {
    if xs != [] {
      var pre, x := xs[..|xs| - 1], xs[|xs| - 1];
      forall i, j ensures ServedAt(pre, i, j) { assert ServedAt(xs, i, j); }
      forall i ensures DelayedAt(pre, delay, i) { assert DelayedAt(xs, delay, i); }
      RunScoresOld(pre, windowMs, delay);
      assert DelayedAt(xs, delay, |pre|);
      if pre != [] { assert ServedAt(xs, |pre| - 1, |pre|); }
    }
  }

  /** When the server lets a key expire, every entry it held is outside the window, whatever the delays. */
  lemma {:induction false} ExpiryDropsNothingLive(xs: seq<Stamped>, windowMs: int, delay: nat, at: int)
    requires windowMs > 0 && Orderly(xs, delay)
    ensures var k := ServeOps(xs, windowMs).key;
            k.Present? ==> Above(Live(k, at), at - windowMs) == Above(k.scores, at - windowMs)
  {
    RunScoresOld(xs, windowMs, delay);
  }
}

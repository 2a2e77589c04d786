/** The server's window bound is exact: operations that reach past it, for every limit. */
module RedisServerExactness {
  import opened SlidingWindow
  import opened RedisWindow
  import opened WindowExactness
  import opened RedisServer

  /** Operations as the program makes them: one limit, fresh members, a delay of at most `delay`. */
  ghost predicate LegalOps(xs: seq<Stamped>, max: nat, delay: nat) {
    Orderly(xs, delay) && FreshUses(xs) && forall i :: MaxAt(xs, max, i)
  }

  predicate MaxAt(xs: seq<Stamped>, max: nat, i: int) { 0 <= i < |xs| && xs[i].op.Use? ==> xs[i].op.call.max == max }

  predicate OverfullSet(xs: seq<Stamped>, windowMs: int, max: nat, len: int, t: int) {
    Within(ServeOps(xs, windowMs).admitted, t - len, t) > max
  }

  predicate CoveredBySet(windowMs: int, delay: nat, max: nat, len: int) {
    max == 0 || len <= 0 || len <= windowMs - delay
  }

  lemma {:induction false} NothingServed(xs: seq<Stamped>, windowMs: int)
    requires forall i :: MaxAt(xs, 0, i)
    ensures ServeOps(xs, windowMs).admitted == []
  {
    if xs != [] {
      var pre := xs[..|xs| - 1];
      forall i ensures MaxAt(pre, 0, i) { assert MaxAt(xs, 0, i); }
      NothingServed(pre, windowMs);
      assert MaxAt(xs, 0, |pre|);
    }
  }

  lemma {:induction false} SetCovers(xs: seq<Stamped>, windowMs: int, delay: nat, max: nat, len: int, t: int)
    requires windowMs > 0 && LegalOps(xs, max, delay) && CoveredBySet(windowMs, delay, max, len)
    ensures !OverfullSet(xs, windowMs, max, len, t)
  {
    if max == 0 {
      NothingServed(xs, windowMs);
    } else if len <= 0 {
      WithinNothing(ServeOps(xs, windowMs).admitted, t - len, t);
    } else {
      LegalLimits(xs, max, delay);
      ServerBound(xs, windowMs, delay, max, len, t);
    }
  }

  lemma {:induction false} LegalLimits(xs: seq<Stamped>, max: nat, delay: nat)
    requires LegalOps(xs, max, delay)
    ensures ServerLegal(xs, max, delay)
  {
    forall i ensures LimitAt(xs, max, i) { assert MaxAt(xs, max, i); }
  }

  // ---- the failing family ---------------------------------------------------------------

  /** A full limit at time 0, a query when its window is over, and a consume of a request that came `s` ms before. */
  function FillOps(max: nat, k: nat): seq<Stamped> {
    if k == 0 then [] else FillOps(max, k - 1) + [Stamped(Use(Call(max, 0, k - 1)), 0)]
  }

  function LateOps(max: nat, windowMs: int, s: nat): seq<Stamped> {
    FillOps(max, max) + [Stamped(Ask(windowMs), windowMs)] + [Stamped(Use(Call(max, windowMs - s, max)), windowMs)]
  }

  /** `k` admissions at time 0 and nothing else. */
  ghost predicate FilledSet(b: ZBucket, k: nat, windowMs: int) {
    && b.admitted == Hits(k)
    && (k == 0 ==> b.key == Absent)
    && (k > 0 ==> b.key.Present? && b.key.expireAt == windowMs && |b.key.scores| == k
                  && forall m <- b.key.scores :: b.key.scores[m] == 0 && m < k)
  }

  lemma {:induction false} FillOne(b: ZBucket, max: nat, k: nat, windowMs: int)
    requires windowMs > 0 && k < max && FilledSet(b, k, windowMs)
    ensures FilledSet(ServeOp(b, Stamped(Use(Call(max, 0, k)), 0), windowMs), k + 1, windowMs)
  {
    var z := Live(b.key, 0);
    assert RemRange(z, 0 - windowMs) == z;
    assert |z| == k && k !in z;
    assert Hits(k + 1) == Hits(k) + [Hit(0, k)];
  }

  lemma {:induction false} OpsSnoc(xs: seq<Stamped>, x: Stamped, windowMs: int)
    ensures ServeOps(xs + [x], windowMs) == ServeOp(ServeOps(xs, windowMs), x, windowMs)
  {
    assert (xs + [x])[..|xs|] == xs;
  }

  lemma {:induction false} FillAll(max: nat, k: nat, windowMs: int)
    requires windowMs > 0 && k <= max
    ensures FilledSet(ServeOps(FillOps(max, k), windowMs), k, windowMs)
  {
    if k == 0 {
      assert ServeOps(FillOps(max, 0), windowMs) == EMPTY && Hits(0) == [];
    } else {
      FillAll(max, k - 1, windowMs);
      var b, x := ServeOps(FillOps(max, k - 1), windowMs), Stamped(Use(Call(max, 0, k - 1)), 0);
      FillOne(b, max, k - 1, windowMs);
      assert FillOps(max, k) == FillOps(max, k - 1) + [x];
      OpsSnoc(FillOps(max, k - 1), x, windowMs);
    }
  }

  lemma {:induction false} AskEmpties(b: ZBucket, k: nat, windowMs: int)
    requires windowMs > 0 && FilledSet(b, k, windowMs)
    ensures ServeOp(b, Stamped(Ask(windowMs), windowMs), windowMs) == ZBucket(Absent, Hits(k))
  {
    assert RemRange(Live(b.key, windowMs), 0) == map[];
  }

  lemma {:induction false} LateAdmitted(max: nat, windowMs: int, s: nat)
    requires max >= 1 && windowMs > 0
    ensures ServeOps(LateOps(max, windowMs, s), windowMs).admitted == Hits(max) + [Hit(windowMs - s, max)]
  {
    var ask, late := Stamped(Ask(windowMs), windowMs), Stamped(Use(Call(max, windowMs - s, max)), windowMs);
    FillAll(max, max, windowMs);
    OpsSnoc(FillOps(max, max), ask, windowMs);
    AskEmpties(ServeOps(FillOps(max, max), windowMs), max, windowMs);
    OpsSnoc(FillOps(max, max) + [ask], late, windowMs);
    assert RemRange(Live(Absent, windowMs), 0 - s) == map[];
  }

  lemma {:induction false} FillLegal(max: nat, k: nat, delay: nat)
    ensures |FillOps(max, k)| == k
    ensures forall i :: 0 <= i < k ==> FillOps(max, k)[i] == Stamped(Use(Call(max, 0, i)), 0)
  {
    if k > 0 { FillLegal(max, k - 1, delay); }
  }

  lemma {:induction false} LateLegal(max: nat, windowMs: int, s: nat, delay: nat)
    requires windowMs > 0 && s <= windowMs && s <= delay
    ensures LegalOps(LateOps(max, windowMs, s), max, delay)
  {
    var xs := LateOps(max, windowMs, s);
    FillLegal(max, max, delay);
    forall i ensures DelayedAt(xs, delay, i) && MaxAt(xs, max, i) {}
    forall i, j ensures ServedAt(xs, i, j) && FreshAt(xs, i, j) {}
  }

  /** For every limit from one on, a query and a delayed request overfill any interval longer than covered. */
  lemma {:induction false} LateBreaks(windowMs: int, delay: nat, max: nat, len: int)
    requires windowMs > 0 && max >= 1 && len > 0 && len > windowMs - delay
    ensures exists xs, t :: LegalOps(xs, max, delay) && OverfullSet(xs, windowMs, max, len, t)
  {
    var s := if delay <= windowMs then delay else windowMs;
    var t := windowMs - s;
    LateLegal(max, windowMs, s, delay);
    LateAdmitted(max, windowMs, s);
    WithinSnoc(Hits(max), Hit(t, max), t - len, t);
    HitsWithin(max, t - len, t);
    assert OverfullSet(LateOps(max, windowMs, s), windowMs, max, len, t);
  }

  /**
   The shared limiter's promise, exactly: over all consumes and queries with one limit that the server runs
   at most `delay` after their times, no interval of length `len` holds more than the limit, if and only if
   `len` is at most the window less the delay.
   */
  lemma {:induction false} ServerExactly(windowMs: int, delay: nat, max: nat, len: int)
    requires windowMs > 0
    ensures (forall xs, t :: LegalOps(xs, max, delay) ==> !OverfullSet(xs, windowMs, max, len, t))
            <==> CoveredBySet(windowMs, delay, max, len)
  {
    if CoveredBySet(windowMs, delay, max, len) {
      forall xs, t | LegalOps(xs, max, delay) ensures !OverfullSet(xs, windowMs, max, len, t) {
        SetCovers(xs, windowMs, delay, max, len, t);
      }
    } else {
      LateBreaks(windowMs, delay, max, len);
    }
  }
}

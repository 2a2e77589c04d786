/** How long an interval the window bound covers: not a millisecond more than `WindowBound` says. */
module WindowExactness {
  import opened SlidingWindow

  /** Calls as the program makes them: one limit, fresh members, times that cross by at most `skew`. */
  ghost predicate Legal(calls: seq<Call>, max: nat, skew: nat) {
    FreshMembers(calls) && SkewAtMost(calls, skew) && forall c <- calls :: c.max == max
  }

  /** More than `max` admissions in the interval (t - len, t]. */
  predicate Overfull(calls: seq<Call>, windowMs: int, max: nat, len: int, t: int) {
    Within(ServeAll(calls, windowMs).admitted, t - len, t) > max
  }

  /** The interval lengths on which the limit holds. */
  predicate Covered(windowMs: int, skew: nat, max: nat, len: int) {
    max == 0 || len <= 0 || len <= windowMs - skew || (max == 1 && len <= windowMs)
  }

  // ---- covered lengths ------------------------------------------------------------------

  lemma {:induction false} WithinWider(hits: seq<Hit>, lo: int, lo': int, hi: int)
    requires lo <= lo'
    ensures Within(hits, lo', hi) <= Within(hits, lo, hi)
  {
    if hits != [] { WithinWider(hits[1..], lo, lo', hi); }
  }

  lemma {:induction false} WithinNothing(hits: seq<Hit>, lo: int, hi: int)
    requires hi <= lo
    ensures Within(hits, lo, hi) == 0
  {
    if hits != [] { WithinNothing(hits[1..], lo, hi); }
  }

  /** Admissions at least a window apart, the newest at `last`. */
  predicate Spaced(hits: seq<Hit>, gap: int, last: int) {
    && (forall i, j :: 0 <= i < j < |hits| ==> hits[j].ts >= hits[i].ts + gap)
    && (hits != [] ==> hits[|hits| - 1].ts == last)
  }

  /** A limit of one: the list holds the newest admission and nothing else, whatever order the times come in. */
  ghost predicate Single(b: Bucket, windowMs: int) {
    && |b.arr| <= 1 && (b.arr == [] <==> b.admitted == [])
    && (b.arr != [] ==> Spaced(b.admitted, windowMs, b.arr[0].ts))
  }

  lemma {:induction false} ServeSingle(b: Bucket, c: Call, windowMs: int)
    requires windowMs > 0 && c.max == 1 && Single(b, windowMs)
    ensures Single(Serve(b, c, windowMs), windowMs)
  {
    if b.arr == [] || b.arr[0].ts <= c.now - windowMs {
      var h := Hit(c.now, c.member);
      if b.arr != [] {
        SpacedSnoc(b.admitted, windowMs, b.arr[0].ts, h);
      }
      PruneAll(b.arr, c.now - windowMs);
      ServeAlone(b, c, windowMs);
    }
  }

  lemma {:induction false} ServeAlone(b: Bucket, c: Call, windowMs: int)
    requires c.max == 1 && Prune(b.arr, c.now - windowMs) == []
    ensures var h := Hit(c.now, c.member); Serve(b, c, windowMs) == Bucket([h], b.admitted + [h])
  {
    assert [] + [Hit(c.now, c.member)] == [Hit(c.now, c.member)];
  }

  lemma {:induction false} SpacedSnoc(hits: seq<Hit>, gap: int, last: int, h: Hit)
    requires Spaced(hits, gap, last) && gap > 0
    ensures h.ts >= last + gap ==> Spaced(hits + [h], gap, h.ts)
  {
    var all := hits + [h];
    if h.ts >= last + gap {
      forall i, j | 0 <= i < j < |all| ensures all[j].ts >= all[i].ts + gap {
        assert all[i] == hits[i];
        if i < |hits| - 1 { assert hits[|hits| - 1].ts >= hits[i].ts + gap; }
      }
    }
  }

  lemma {:induction false} RunSingle(calls: seq<Call>, windowMs: int)
    requires windowMs > 0 && forall c <- calls :: c.max == 1
    ensures Single(ServeAll(calls, windowMs), windowMs)
  {
    if calls != [] {
      var pre, c := calls[..|calls| - 1], calls[|calls| - 1];
      assert c in calls;
      RunSingle(pre, windowMs);
      ServeSingle(ServeAll(pre, windowMs), c, windowMs);
    }
  }

  lemma {:induction false} SpacedWithin(hits: seq<Hit>, gap: int, lo: int, hi: int)
    requires (forall i, j :: 0 <= i < j < |hits| ==> hits[j].ts >= hits[i].ts + gap) && hi <= lo + gap
    ensures Within(hits, lo, hi) <= 1
  {
    if hits != [] {
      SpacedWithin(hits[1..], gap, lo, hi);
      if lo < hits[0].ts {
        forall h | h in hits[1..] ensures h.ts > hi {
          var i :| 0 <= i < |hits[1..]| && hits[1..][i] == h;
          assert hits[i + 1] == h;
        }
        AllLater(hits[1..], lo, hi);
      }
    }
  }

  lemma {:induction false} AllLater(hits: seq<Hit>, lo: int, hi: int)
    requires forall h <- hits :: h.ts > hi
    ensures Within(hits, lo, hi) == 0
  {
    if hits != [] {
      assert hits[0] in hits;
      AllLater(hits[1..], lo, hi);
    }
  }

  lemma {:induction false} NothingAdmitted(calls: seq<Call>, windowMs: int)
    requires forall c <- calls :: c.max == 0
    ensures ServeAll(calls, windowMs).admitted == []
  {
    if calls != [] {
      assert calls[|calls| - 1] in calls;
      NothingAdmitted(calls[..|calls| - 1], windowMs);
    }
  }

  /** With a limit of one the whole window holds, however far the times cross. */
  lemma {:induction false} LimitOneIgnoresSkew(calls: seq<Call>, windowMs: int, t: int)
    requires windowMs > 0 && forall c <- calls :: c.max == 1
    ensures Within(ServeAll(calls, windowMs).admitted, t - windowMs, t) <= 1
  {
    RunSingle(calls, windowMs);
    SpacedWithin(ServeAll(calls, windowMs).admitted, windowMs, t - windowMs, t);
  }

  lemma {:induction false} CoveredHolds(calls: seq<Call>, windowMs: int, skew: nat, max: nat, len: int, t: int)
    requires windowMs > 0 && Legal(calls, max, skew) && Covered(windowMs, skew, max, len)
    ensures !Overfull(calls, windowMs, max, len, t)
  {
    var hits := ServeAll(calls, windowMs).admitted;
    if max == 0 {
      NothingAdmitted(calls, windowMs);
    } else if len <= 0 {
      WithinNothing(hits, t - len, t);
    } else if len <= windowMs - skew {
      WindowBound(calls, windowMs, skew, max, t);
      WithinWider(hits, t - (windowMs - skew), t - len, t);
    } else {
      LimitOneIgnoresSkew(calls, windowMs, t);
      WithinWider(hits, t - windowMs, t - len, t);
    }
  }

  // ---- the failing family ---------------------------------------------------------------

  function Fill(max: nat, k: nat): seq<Call> { seq(k, i requires 0 <= i => Call(max, 0, i)) }

  function Hits(k: nat): seq<Hit> { seq(k, i requires 0 <= i => Hit(0, i)) }

  lemma {:induction false} FillServed(max: nat, k: nat, windowMs: int)
    requires k <= max && windowMs > 0
    ensures ServeAll(Fill(max, k), windowMs) == Bucket(Hits(k), Hits(k))
  {
    if k > 0 {
      FillServed(max, k - 1, windowMs);
      assert Fill(max, k)[..k - 1] == Fill(max, k - 1);
      assert Prune(Hits(k - 1), 0 - windowMs) == Hits(k - 1);
      ServeFresh(ServeAll(Fill(max, k - 1), windowMs), Call(max, 0, k - 1), windowMs);
      assert Hits(k) == Hits(k - 1) + [Hit(0, k - 1)];
    }
  }

  lemma {:induction false} PruneAll(hits: seq<Hit>, cutoff: int)
    requires forall h <- hits :: h.ts <= cutoff
    ensures Prune(hits, cutoff) == []
  {
    if hits != [] {
      assert hits[0] in hits;
      PruneAll(hits[1..], cutoff);
    }
  }

  /** A full limit at time 0, one call the moment the window is over, one that arrived `s` ms before it. */
  function Crossing(max: nat, windowMs: int, s: nat): seq<Call> {
    Fill(max, max) + [Call(max, windowMs, max)] + [Call(max, windowMs - s, max + 1)]
  }

  lemma {:induction false} NextWindow(max: nat, windowMs: int)
    requires max >= 1 && windowMs > 0
    ensures ServeAll(Fill(max, max) + [Call(max, windowMs, max)], windowMs)
         == Bucket([Hit(windowMs, max)], Hits(max) + [Hit(windowMs, max)])
  {
    FillServed(max, max, windowMs);
    ServeSnoc(Fill(max, max), Call(max, windowMs, max), windowMs);
    PruneAll(Hits(max), 0);
    ServeFresh(Bucket(Hits(max), Hits(max)), Call(max, windowMs, max), windowMs);
    assert [] + [Hit(windowMs, max)] == [Hit(windowMs, max)];
  }

  lemma {:induction false} CrossingServed(max: nat, windowMs: int, s: nat)
    requires max >= 2 && windowMs > 0
    ensures ServeAll(Crossing(max, windowMs, s), windowMs).admitted
         == Hits(max) + [Hit(windowMs, max)] + [Hit(windowMs - s, max + 1)]
  {
    NextWindow(max, windowMs);
    var c := Call(max, windowMs - s, max + 1);
    ServeSnoc(Fill(max, max) + [Call(max, windowMs, max)], c, windowMs);
    ServeFresh(Bucket([Hit(windowMs, max)], Hits(max) + [Hit(windowMs, max)]), c, windowMs);
  }

  lemma {:induction false} CrossingLegal(max: nat, windowMs: int, s: nat, skew: nat)
    requires windowMs > 0 && s <= windowMs && s <= skew
    ensures Legal(Crossing(max, windowMs, s), max, skew)
  {}

  lemma {:induction false} HitsWithin(k: nat, lo: int, hi: int)
    requires lo < 0 <= hi
    ensures Within(Hits(k), lo, hi) == k
  {
    WithinAll(Hits(k), lo, hi);
  }

  /**
   The allowance is needed to the millisecond: whatever the limit from two on, crossing times put more
   than `max` admissions in an interval one longer than the window less the skew.
   */
  lemma {:induction false} SkewBreaksFullWindow(windowMs: int, skew: nat, max: nat, len: int)
    requires windowMs > 0 && max >= 2 && len > 0 && len > windowMs - skew
    ensures exists calls, t :: Legal(calls, max, skew) && Overfull(calls, windowMs, max, len, t)
  {
    var s := if skew <= windowMs then skew else windowMs;
    var t := windowMs - s;
    CrossingLegal(max, windowMs, s, skew);
    CrossingServed(max, windowMs, s);
    WithinSnoc(Hits(max) + [Hit(windowMs, max)], Hit(windowMs - s, max + 1), t - len, t);
    WithinSnoc(Hits(max), Hit(windowMs, max), t - len, t);
    HitsWithin(max, t - len, t);
    assert Overfull(Crossing(max, windowMs, s), windowMs, max, len, t);
  }

  /** A limit of one is overstepped as soon as the interval is longer than the window. */
  lemma {:induction false} TwoWindows(windowMs: int, skew: nat, len: int)
    requires len > windowMs > 0
    ensures exists calls, t :: Legal(calls, 1, skew) && Overfull(calls, windowMs, 1, len, t)
  {
    var calls := Fill(1, 1) + [Call(1, windowMs, 1)];
    NextWindow(1, windowMs);
    WithinSnoc(Hits(1), Hit(windowMs, 1), windowMs - len, windowMs);
    HitsWithin(1, windowMs - len, windowMs);
    assert Legal(calls, 1, skew);
    assert Overfull(calls, windowMs, 1, len, windowMs);
  }

  /**
   The limiter's promise, exactly: over all calls with one limit and times that cross by at most `skew`,
   no interval of length `len` holds more than the limit, if and only if `len` is at most the window less
   the skew.  A limit of one keeps the whole window for every skew.
   */
  lemma {:induction false} WindowExactly(windowMs: int, skew: nat, max: nat, len: int)
    requires windowMs > 0
    ensures (forall calls, t :: Legal(calls, max, skew) ==> !Overfull(calls, windowMs, max, len, t))
            <==> Covered(windowMs, skew, max, len)
  {
    if Covered(windowMs, skew, max, len) {
      forall calls, t | Legal(calls, max, skew) ensures !Overfull(calls, windowMs, max, len, t) {
        CoveredHolds(calls, windowMs, skew, max, len, t);
      }
    } else if max == 1 {
      TwoWindows(windowMs, skew, len);
    } else {
      SkewBreaksFullWindow(windowMs, skew, max, len);
    }
  }
}

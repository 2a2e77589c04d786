/** What one uninterrupted request does to the buckets of its plan. */
module PlanEffects {
  import opened SlidingWindow
  import opened RateLimit
  import opened MemoryLimiter

  /** A member that is already inside is admitted again without a second entry. */
  lemma {:induction false} RepeatCountsOnce(arr: seq<Hit>, c: Call, again: Call, windowMs: int)
    requires Consume(arr, c, windowMs).1.ok && again.member == c.member && windowMs > 0
    requires again.now - windowMs < c.now && again.max > Consume(arr, c, windowMs).1.count
    requires forall h <- Consume(arr, c, windowMs).0 :: h.ts > again.now - windowMs
    ensures var once := Consume(arr, c, windowMs); Consume(once.0, again, windowMs) == (once.0, Reply(true, |once.0|))
  {
    var once := Consume(arr, c, windowMs).0;
    assert Prune(once, again.now - windowMs) == once by {
      if once != [] { assert once[0] in once; }
    }
    if !HasMember(Prune(arr, c.now - windowMs), c.member) { assert Hit(c.now, c.member) in once; }
  }

  /** As in every plan of the program, the buckets have different keys. */
  predicate DistinctKeys(plan: seq<Limit>) { forall i, j :: 0 <= i < j < |plan| ==> plan[i].key != plan[j].key }

  /** No bucket holds a member id still to be given out. */
  ghost predicate Fresh(b: Buckets, ctr: nat) { forall key :: FreshIn(b, key, ctr) }

  ghost predicate FreshIn(b: Buckets, key: string, ctr: nat) { forall h <- BucketOf(b, key) :: h.member <= ctr }

  /** What the window still holds when a request comes. */
  function Left(b: Buckets, l: Limit, now: int): seq<Hit> { Prune(BucketOf(b, l.key), now - l.windowMs) }

  predicate Full(b: Buckets, l: Limit, now: int) { |Left(b, l, now)| >= l.max }

  /** The first full bucket from `k` on, or the end of the plan. */
  ghost predicate Stops(b: Buckets, plan: seq<Limit>, now: int, k: nat, stop: nat) {
    && k <= stop <= |plan| && (stop < |plan| ==> Full(b, plan[stop], now))
    && forall j :: RoomAt(b, plan, now, k, stop, j)
  }

  predicate RoomAt(b: Buckets, plan: seq<Limit>, now: int, k: nat, stop: nat, j: int) {
    k <= j < stop && j < |plan| ==> !Full(b, plan[j], now)
  }

  /** The buckets afterwards: those passed hold one more admission, the full one is pruned, others are as before. */
  ghost predicate Charged(b: Buckets, plan: seq<Limit>, now: int, k: nat, stop: nat, ctr: int, after: Buckets) {
    && (forall j :: ChargedAt(b, plan, now, k, stop, ctr, after, j))
    && (stop < |plan| ==> BucketOf(after, plan[stop].key) == Left(b, plan[stop], now))
    && forall key :: KeptAt(b, plan, k, stop, after, key)
  }

  /** Bucket `j` of the plan was charged with member `ctr + j`. */
  predicate ChargedAt(b: Buckets, plan: seq<Limit>, now: int, k: nat, stop: nat, ctr: int, after: Buckets, j: int) {
    k <= j < stop && j < |plan| && ctr + j >= 0 ==>
      BucketOf(after, plan[j].key) == Left(b, plan[j], now) + [Hit(now, ctr + j)]
  }

  predicate KeptAt(b: Buckets, plan: seq<Limit>, k: nat, stop: nat, after: Buckets, key: string) {
    (forall j :: k <= j <= stop && j < |plan| ==> plan[j].key != key) ==> BucketOf(after, key) == BucketOf(b, key)
  }

  /** What became of a request that had passed `k` buckets. */
  ghost predicate WalkedAs(b: Buckets, ctr: nat, plan: seq<Limit>, now: int, k: nat, after: Buckets, next: nat,
                           r: Request)
  {
    && Stops(b, plan, now, k, r.pos) && (r.blocked <==> r.pos < |plan|)
    && Charged(b, plan, now, k, r.pos, ctr + 1 - k, after)
    && next == ctr + r.pos - k + (if r.blocked then 1 else 0)
  }

  /**
   One request in closed form: it is blocked exactly if some bucket of its plan is full, by the first such; the
   buckets before it are charged once each and those after it not at all.
   */
  lemma {:induction false} RequestEffect(b: Buckets, ctr: nat, plan: seq<Limit>, now: int)
    requires DistinctKeys(plan) && Fresh(b, ctr)
    ensures var (after, next, r) := Walk(b, ctr, Request(plan, now, 0, false));
            WalkedAs(b, ctr, plan, now, 0, after, next, r)
  {
    WalkFrom(b, ctr, plan, now, 0);
  }

  lemma {:induction false} WalkFrom(b: Buckets, ctr: nat, plan: seq<Limit>, now: int, k: nat)
    requires DistinctKeys(plan) && Fresh(b, ctr) && k <= |plan|
    ensures var (after, next, r) := Walk(b, ctr, Request(plan, now, k, false));
            WalkedAs(b, ctr, plan, now, k, after, next, r)
    decreases |plan| - k
  {
    if k < |plan| && !Full(b, plan[k], now) {
      Admitted(b, ctr, plan[k], now);
      FreshAfter(b, ctr, plan[k], now);
      var c := After(b, ctr, plan[k], now);
      WalkFrom(c, ctr + 1, plan, now, k + 1);
      var (after, next, r) := Walk(c, ctr + 1, Request(plan, now, k + 1, false));
      LaterBuckets(b, ctr, plan, now, k, after, next, r);
    } else if k < |plan| {
      StopsHere(b, ctr, plan, now, k);
    }
  }

  lemma {:induction false} StopsHere(b: Buckets, ctr: nat, plan: seq<Limit>, now: int, k: nat)
    requires k < |plan| && Full(b, plan[k], now)
    ensures var (after, next, r) := Walk(b, ctr, Request(plan, now, k, false));
            WalkedAs(b, ctr, plan, now, k, after, next, r)
  {}

  /** The buckets after the request has been admitted by `l`. */
  function After(b: Buckets, ctr: nat, l: Limit, now: int): Buckets {
    b[l.key := Left(b, l, now) + [Hit(now, ctr + 1)]]
  }

  lemma {:induction false} Admitted(b: Buckets, ctr: nat, l: Limit, now: int)
    requires Fresh(b, ctr) && !Full(b, l, now)
    ensures Consume(BucketOf(b, l.key), Call(l.max, now, ctr + 1), l.windowMs)
         == (Left(b, l, now) + [Hit(now, ctr + 1)], Reply(true, |Left(b, l, now)| + 1))
  {
    assert FreshIn(b, l.key, ctr);
    PruneSub(BucketOf(b, l.key), now - l.windowMs);
  }

  lemma {:induction false} FreshAfter(b: Buckets, ctr: nat, l: Limit, now: int)
    requires Fresh(b, ctr)
    ensures Fresh(After(b, ctr, l, now), ctr + 1)
  {
    var c, next := After(b, ctr, l, now), ctr + 1;
    PruneSub(BucketOf(b, l.key), now - l.windowMs);
    forall key ensures FreshIn(c, key, next) { assert FreshIn(b, key, ctr) && FreshIn(b, l.key, ctr); }
  }

  lemma {:induction false} OthersLeft(b: Buckets, ctr: nat, plan: seq<Limit>, now: int, k: nat, j: nat)
    requires DistinctKeys(plan) && k < j < |plan|
    ensures var c := After(b, ctr, plan[k], now);
            Left(c, plan[j], now) == Left(b, plan[j], now) && BucketOf(c, plan[j].key) == BucketOf(b, plan[j].key)
  {
    assert plan[k].key != plan[j].key;
  }

  // What holds from the second bucket on, with the first one charged, holds from the first.

  lemma {:induction false} LaterBuckets(b: Buckets, ctr: nat, plan: seq<Limit>, now: int, k: nat, after: Buckets,
                                        next: nat, r: Request)
    requires DistinctKeys(plan) && k < |plan| && !Full(b, plan[k], now)
    requires WalkedAs(After(b, ctr, plan[k], now), ctr + 1, plan, now, k + 1, after, next, r)
    ensures WalkedAs(b, ctr, plan, now, k, after, next, r)
  {
    var first := ctr + 1 - k;
    LaterStops(b, ctr, plan, now, k, r.pos);
    LaterCharged(b, ctr, plan, now, k, r.pos, first, after);
    LaterKept(b, ctr, plan, now, k, r.pos, first, after);
    if r.pos < |plan| { OthersLeft(b, ctr, plan, now, k, r.pos); }
  }

  lemma {:induction false} LaterStops(b: Buckets, ctr: nat, plan: seq<Limit>, now: int, k: nat, stop: nat)
    requires DistinctKeys(plan) && k < |plan| && !Full(b, plan[k], now)
    requires Stops(After(b, ctr, plan[k], now), plan, now, k + 1, stop)
    ensures Stops(b, plan, now, k, stop)
  {
    if stop < |plan| { OthersLeft(b, ctr, plan, now, k, stop); }
    forall j ensures RoomAt(b, plan, now, k, stop, j) {
      assert RoomAt(After(b, ctr, plan[k], now), plan, now, k + 1, stop, j);
      if k < j < |plan| { OthersLeft(b, ctr, plan, now, k, j); }
    }
  }

  lemma {:induction false} LaterCharged(b: Buckets, ctr: nat, plan: seq<Limit>, now: int, k: nat, stop: nat, first: int,
                                        after: Buckets)
    requires DistinctKeys(plan) && k < stop <= |plan| && first == ctr + 1 - k
    requires Charged(After(b, ctr, plan[k], now), plan, now, k + 1, stop, first, after)
    ensures forall j :: ChargedAt(b, plan, now, k, stop, first, after, j)
  {
    var c := After(b, ctr, plan[k], now);
    forall j ensures ChargedAt(b, plan, now, k, stop, first, after, j) {
      assert ChargedAt(c, plan, now, k + 1, stop, first, after, j);
      if k < j < |plan| { OthersLeft(b, ctr, plan, now, k, j); }
      if j == k {
        forall i | k < i < |plan| ensures plan[i].key != plan[k].key { assert plan[k].key != plan[i].key; }
        assert KeptAt(c, plan, k + 1, stop, after, plan[k].key);
      }
    }
  }

  lemma {:induction false} LaterKept(b: Buckets, ctr: nat, plan: seq<Limit>, now: int, k: nat, stop: nat, first: int,
                                     after: Buckets)
    requires k < |plan| && k < stop && Charged(After(b, ctr, plan[k], now), plan, now, k + 1, stop, first, after)
    ensures forall key :: KeptAt(b, plan, k, stop, after, key)
  {
    forall key ensures KeptAt(b, plan, k, stop, after, key) {
      assert KeptAt(After(b, ctr, plan[k], now), plan, k + 1, stop, after, key);
    }
  }
}

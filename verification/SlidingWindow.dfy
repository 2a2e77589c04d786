/**
 The sliding-window limiter of the in-memory store: a list of admissions, oldest first,
 whose head is pruned before each call.  A member is the counter value inside its id.
 */
module SlidingWindow {

  datatype Hit = Hit(ts: int, member: nat)

  datatype Call = Call(max: nat, now: int, member: nat)

  datatype Reply = Reply(ok: bool, count: nat)

  /** Drops the expired head, and stops at the first entry that is still inside. */
  function Prune(arr: seq<Hit>, cutoff: int): seq<Hit> {
    if arr != [] && arr[0].ts <= cutoff then Prune(arr[1..], cutoff) else arr
  }

  /** Every entry still inside the window. */
  function Keep(arr: seq<Hit>, cutoff: int): seq<Hit> {
    if arr == [] then [] else (if arr[0].ts > cutoff then [arr[0]] else []) + Keep(arr[1..], cutoff)
  }

  predicate HasMember(arr: seq<Hit>, member: nat) { exists h :: h in arr && h.member == member }

  function Consume(arr: seq<Hit>, c: Call, windowMs: int): (seq<Hit>, Reply) {
    var kept := Prune(arr, c.now - windowMs);
    if |kept| >= c.max then (kept, Reply(false, |kept|))
    else if HasMember(kept, c.member) then (kept, Reply(true, |kept|))
    else (kept + [Hit(c.now, c.member)], Reply(true, |kept| + 1))
  }

  function Query(arr: seq<Hit>, now: int, windowMs: int): nat { |Keep(arr, now - windowMs)| }

  /** A bucket and all admissions it ever made. */
  datatype Bucket = Bucket(arr: seq<Hit>, admitted: seq<Hit>)

  function Serve(b: Bucket, c: Call, windowMs: int): Bucket {
    var (arr, reply) := Consume(b.arr, c, windowMs);
    Bucket(arr, if reply.ok then b.admitted + [Hit(c.now, c.member)] else b.admitted)
  }

  function ServeAll(calls: seq<Call>, windowMs: int): Bucket {
    if calls == [] then Bucket([], [])
    else Serve(ServeAll(calls[..|calls| - 1], windowMs), calls[|calls| - 1], windowMs)
  }

  ghost predicate FreshMembers(calls: seq<Call>) {
    forall i, j :: 0 <= i < j < |calls| ==> calls[i].member != calls[j].member
  }

  /** No call carries a time more than `skew` older than an earlier call's. */
  ghost predicate SkewAtMost(calls: seq<Call>, skew: nat) {
    forall i, j :: 0 <= i < j < |calls| ==> calls[j].now >= calls[i].now - skew
  }

  /** How many of `hits` lie in the interval (lo, hi]. */
  function Within(hits: seq<Hit>, lo: int, hi: int): nat {
    if hits == [] then 0 else (if lo < hits[0].ts <= hi then 1 else 0) + Within(hits[1..], lo, hi)
  }

  // ---- the pieces -----------------------------------------------------------------------

  lemma {:induction false} WithinSnoc(a: seq<Hit>, h: Hit, lo: int, hi: int)
    ensures Within(a + [h], lo, hi) == Within(a, lo, hi) + (if lo < h.ts <= hi then 1 else 0)
  {
    if a == [] {
      assert a + [h] == [h];
    } else {
      assert (a + [h])[1..] == a[1..] + [h];
      WithinSnoc(a[1..], h, lo, hi);
    }
  }

  lemma {:induction false} WithinAtMost(hits: seq<Hit>, lo: int, hi: int)
    ensures Within(hits, lo, hi) <= |hits|
  {
    if hits != [] {
      WithinAtMost(hits[1..], lo, hi);
    }
  }

  lemma {:induction false} WithinAll(hits: seq<Hit>, lo: int, hi: int)
    requires forall h <- hits :: lo < h.ts <= hi
    ensures Within(hits, lo, hi) == |hits|
  {
    if hits != [] {
      assert hits[0] in hits;
      WithinAll(hits[1..], lo, hi);
    }
  }

  /** Pruning at or below `lo` leaves the count above `lo` alone. */
  lemma {:induction false} PruneWithin(arr: seq<Hit>, cutoff: int, lo: int, hi: int)
    requires cutoff <= lo
    ensures Within(Prune(arr, cutoff), lo, hi) == Within(arr, lo, hi)
  {
    if arr != [] && arr[0].ts <= cutoff {
      PruneWithin(arr[1..], cutoff, lo, hi);
    }
  }

  lemma {:induction false} PruneSub(arr: seq<Hit>, cutoff: int)
    ensures forall h <- Prune(arr, cutoff) :: h in arr
  {
    if arr != [] && arr[0].ts <= cutoff {
      PruneSub(arr[1..], cutoff);
    }
  }

  /** A fresh member is inserted exactly when the pruned list has room. */
  lemma {:induction false} ServeFresh(b: Bucket, c: Call, windowMs: int)
    requires !HasMember(b.arr, c.member)
    ensures var kept := Prune(b.arr, c.now - windowMs);
            Serve(b, c, windowMs) ==
              if |kept| < c.max then Bucket(kept + [Hit(c.now, c.member)], b.admitted + [Hit(c.now, c.member)])
              else Bucket(kept, b.admitted)
  {
    PruneSub(b.arr, c.now - windowMs);
  }

  lemma {:induction false} ServeTracks(b: Bucket, c: Call, windowMs: int, lo: int, hi: int)
    requires !HasMember(b.arr, c.member) && c.now - windowMs <= lo
    requires Within(b.arr, lo, hi) == Within(b.admitted, lo, hi)
    ensures var t := Serve(b, c, windowMs); Within(t.arr, lo, hi) == Within(t.admitted, lo, hi)
  {
    ServeFresh(b, c, windowMs);
    var kept := Prune(b.arr, c.now - windowMs);
    PruneWithin(b.arr, c.now - windowMs, lo, hi);
    WithinSnoc(kept, Hit(c.now, c.member), lo, hi);
    WithinSnoc(b.admitted, Hit(c.now, c.member), lo, hi);
  }

  /** Members in the list come from calls already made. */
  ghost predicate FromCalls(arr: seq<Hit>, calls: seq<Call>) {
    forall h <- arr :: exists i :: 0 <= i < |calls| && calls[i].member == h.member
  }

  lemma {:induction false} ServeFromCalls(b: Bucket, calls: seq<Call>, c: Call, windowMs: int)
    requires FromCalls(b.arr, calls)
    ensures FromCalls(Serve(b, c, windowMs).arr, calls + [c])
  {
    PruneSub(b.arr, c.now - windowMs);
    var all := calls + [c];
    forall h | h in Serve(b, c, windowMs).arr ensures exists i :: 0 <= i < |all| && all[i].member == h.member {
      if h in b.arr {
        var i :| 0 <= i < |calls| && calls[i].member == h.member;
        assert all[i] == calls[i];
      } else {
        assert all[|calls|].member == h.member;
      }
    }
  }

  lemma {:induction false} RunFromCalls(calls: seq<Call>, windowMs: int)
    ensures FromCalls(ServeAll(calls, windowMs).arr, calls)
  {
    if calls != [] {
      var pre, c := calls[..|calls| - 1], calls[|calls| - 1];
      RunFromCalls(pre, windowMs);
      ServeFromCalls(ServeAll(pre, windowMs), pre, c, windowMs);
      assert pre + [c] == calls;
    }
  }

  /** What the last of a sequence of fresh calls may rely on. */
  lemma {:induction false} LastIsFresh(calls: seq<Call>, windowMs: int)
    requires calls != [] && FreshMembers(calls)
    ensures FreshMembers(calls[..|calls| - 1])
    ensures !HasMember(ServeAll(calls[..|calls| - 1], windowMs).arr, calls[|calls| - 1].member)
  {
    var n := |calls| - 1;
    RunFromCalls(calls[..n], windowMs);
    forall h | h in ServeAll(calls[..n], windowMs).arr ensures h.member != calls[n].member {
      var i :| 0 <= i < n && calls[..n][i].member == h.member;
    }
  }

  lemma {:induction false} LastIsLatest(calls: seq<Call>, skew: nat)
    requires calls != [] && SkewAtMost(calls, skew)
    ensures SkewAtMost(calls[..|calls| - 1], skew)
    ensures forall d <- calls[..|calls| - 1] :: d.now <= calls[|calls| - 1].now + skew
  {
    var n := |calls| - 1;
    forall d | d in calls[..n] ensures d.now <= calls[n].now + skew {
      var i :| 0 <= i < n && calls[..n][i] == d;
      assert calls[n].now >= calls[i].now - skew;
    }
  }

  // ---- the bound ------------------------------------------------------------------------

  /** Above the reach of any pruning so far, the list holds all admissions. */
  lemma {:induction false} ListTracksAdmissions(calls: seq<Call>, windowMs: int, bound: int, lo: int, hi: int)
    requires FreshMembers(calls)
    requires (forall c <- calls :: c.now <= bound) && lo >= bound - windowMs
    ensures var b := ServeAll(calls, windowMs); Within(b.arr, lo, hi) == Within(b.admitted, lo, hi)
  {
    if calls != [] {
      var pre, c := calls[..|calls| - 1], calls[|calls| - 1];
      assert c in calls;
      LastIsFresh(calls, windowMs);
      ListTracksAdmissions(pre, windowMs, bound, lo, hi);
      ServeTracks(ServeAll(pre, windowMs), c, windowMs, lo, hi);
    }
  }

  /**
   The window bound.  When concurrent requests deliver their times out of order by at most
   `skew`, every interval of length `windowMs - skew` holds at most `max` admissions.
   With skew 0 this is the limiter's promise for the whole window.
   */
  lemma {:induction false} WindowBound(calls: seq<Call>, windowMs: int, skew: nat, max: nat, t: int)
    requires FreshMembers(calls) && SkewAtMost(calls, skew) && forall c <- calls :: c.max <= max
    ensures Within(ServeAll(calls, windowMs).admitted, t - (windowMs - skew), t) <= max
  {
    if calls != [] {
      var pre, c := calls[..|calls| - 1], calls[|calls| - 1];
      var lo := t - (windowMs - skew);
      LastIsFresh(calls, windowMs);
      LastIsLatest(calls, skew);
      WindowBound(pre, windowMs, skew, max, t);
      assert c in calls;
      if lo < c.now <= t {
        ListTracksAdmissions(pre, windowMs, c.now + skew, lo, t);
      }
      BoundStep(ServeAll(pre, windowMs), c, windowMs, lo, t, max);
    }
  }

  lemma {:induction false} BoundStep(b: Bucket, c: Call, windowMs: int, lo: int, hi: int, max: nat)
    requires !HasMember(b.arr, c.member) && c.max <= max && Within(b.admitted, lo, hi) <= max
    requires lo < c.now <= hi ==> c.now - windowMs <= lo && Within(b.arr, lo, hi) == Within(b.admitted, lo, hi)
    ensures Within(Serve(b, c, windowMs).admitted, lo, hi) <= max
  {
    ServeFresh(b, c, windowMs);
    WithinSnoc(b.admitted, Hit(c.now, c.member), lo, hi);
    if lo < c.now <= hi {
      PruneWithin(b.arr, c.now - windowMs, lo, hi);
      WithinAtMost(Prune(b.arr, c.now - windowMs), lo, hi);
    }
  }

  lemma {:induction false} ServeSnoc(calls: seq<Call>, c: Call, windowMs: int)
    ensures ServeAll(calls + [c], windowMs) == Serve(ServeAll(calls, windowMs), c, windowMs)
  {
    assert (calls + [c])[..|calls|] == calls;
  }

  // ---- forward clock: exact answers -----------------------------------------------------

  ghost predicate Sorted(arr: seq<Hit>) { forall i, j :: SortedAt(arr, i, j) }

  ghost predicate SortedAt(arr: seq<Hit>, i: int, j: int) { 0 <= i < j < |arr| ==> arr[i].ts <= arr[j].ts }

  lemma {:induction false} SortedTail(arr: seq<Hit>)
    requires Sorted(arr) && arr != []
    ensures Sorted(arr[1..])
  {
    forall i, j ensures SortedAt(arr[1..], i, j) {
      assert SortedAt(arr, i + 1, j + 1);
    }
  }

  ghost predicate NoneAfter(arr: seq<Hit>, now: int) { forall h <- arr :: h.ts <= now }

  lemma {:induction false} PruneSorted(arr: seq<Hit>, cutoff: int)
    requires Sorted(arr)
    ensures Sorted(Prune(arr, cutoff))
  {
    if arr != [] && arr[0].ts <= cutoff {
      SortedTail(arr);
      PruneSorted(arr[1..], cutoff);
    }
  }

  lemma {:induction false} ServeSorted(b: Bucket, c: Call, windowMs: int)
    requires !HasMember(b.arr, c.member) && Sorted(b.arr) && NoneAfter(b.arr, c.now)
    ensures Sorted(Serve(b, c, windowMs).arr) && NoneAfter(Serve(b, c, windowMs).arr, c.now)
  {
    ServeFresh(b, c, windowMs);
    PruneSorted(b.arr, c.now - windowMs);
    PruneSub(b.arr, c.now - windowMs);
    SortedSnoc(Prune(b.arr, c.now - windowMs), Hit(c.now, c.member));
  }

  lemma {:induction false} SortedSnoc(arr: seq<Hit>, h: Hit)
    requires Sorted(arr) && NoneAfter(arr, h.ts)
    ensures Sorted(arr + [h])
  {
    forall i, j ensures SortedAt(arr + [h], i, j) {
      assert SortedAt(arr, i, j);
    }
  }

  lemma {:induction false} ForwardSorted(calls: seq<Call>, windowMs: int, now: int)
    requires FreshMembers(calls) && SkewAtMost(calls, 0) && forall c <- calls :: c.now <= now
    ensures Sorted(ServeAll(calls, windowMs).arr) && NoneAfter(ServeAll(calls, windowMs).arr, now)
  {
    if calls != [] {
      var pre, c := calls[..|calls| - 1], calls[|calls| - 1];
      assert c in calls;
      LastIsFresh(calls, windowMs);
      LastIsLatest(calls, 0);
      ForwardSorted(pre, windowMs, c.now);
      ServeSorted(ServeAll(pre, windowMs), c, windowMs);
    }
  }

  /** On a sorted list, pruning only the head is filtering the whole list. */
  lemma {:induction false} HeadPruneIsFilter(arr: seq<Hit>, cutoff: int)
    requires Sorted(arr)
    ensures Prune(arr, cutoff) == Keep(arr, cutoff)
  {
    if arr != [] {
      if arr[0].ts <= cutoff {
        SortedTail(arr);
        HeadPruneIsFilter(arr[1..], cutoff);
      } else {
        forall i | 0 <= i < |arr| ensures arr[i].ts > cutoff { assert SortedAt(arr, 0, i); }
        KeepAll(arr, cutoff);
      }
    }
  }

  lemma {:induction false} KeepAll(arr: seq<Hit>, cutoff: int)
    requires forall i :: 0 <= i < |arr| ==> arr[i].ts > cutoff
    ensures Keep(arr, cutoff) == arr
  {
    if arr != [] {
      KeepAll(arr[1..], cutoff);
    }
  }

  lemma {:induction false} KeepIn(arr: seq<Hit>, cutoff: int, h: Hit)
    ensures h in Keep(arr, cutoff) <==> h in arr && h.ts > cutoff
  {
    if arr != [] {
      KeepIn(arr[1..], cutoff, h);
    }
  }

  /** With a forward clock a call is admitted exactly when its own window holds fewer than `max` admissions. */
  lemma {:induction false} AdmittedExactly(calls: seq<Call>, windowMs: int)
    requires calls != [] && FreshMembers(calls) && SkewAtMost(calls, 0)
    ensures var c := calls[|calls| - 1];
            var b := ServeAll(calls[..|calls| - 1], windowMs);
            var before := Within(b.admitted, c.now - windowMs, c.now);
            Consume(b.arr, c, windowMs).1 == if before < c.max then Reply(true, before + 1) else Reply(false, before)
  {
    var pre, c := calls[..|calls| - 1], calls[|calls| - 1];
    var b := ServeAll(pre, windowMs);
    var lo := c.now - windowMs;
    LastIsFresh(calls, windowMs);
    LastIsLatest(calls, 0);
    ForwardSorted(pre, windowMs, c.now);
    ListTracksAdmissions(pre, windowMs, c.now, lo, c.now);
    WindowHolds(b.arr, lo, c.now);
    PruneSub(b.arr, lo);
  }

  lemma {:induction false} WindowHolds(arr: seq<Hit>, lo: int, now: int)
    requires Sorted(arr) && NoneAfter(arr, now)
    ensures |Prune(arr, lo)| == Within(arr, lo, now)
  {
    var kept := Prune(arr, lo);
    HeadPruneIsFilter(arr, lo);
    forall h | h in kept ensures lo < h.ts <= now {
      KeepIn(arr, lo, h);
    }
    WithinAll(kept, lo, now);
    PruneWithin(arr, lo, lo, now);
  }
}

/**
 The standalone QoS scheduler as a transition function on values.

 Requests are numbered by arrival, so `e.id < f.id` reads "e arrived before f".
 Times are integer milliseconds and scores are multiplied by 50, which makes the
 aged score `score + age / 50` exact.  What the scheduler does not decide is an input of
 each step: which callbacks throw, and what the clock reads.
 */
module QosModel {

  datatype Mode = Off | Standalone | Cooperative

  datatype Config = Config(mode: Mode, maxInFlight: nat, maxQueueDepth: nat, bypassThreshold: real)

  datatype Entry = Entry(id: nat, score: int, enqueuedAt: int)

  /** What became of a request. */
  datatype Event =
    | Passed(id: nat)            // not scheduled here: mode off, or cooperative outside the fallback window
    | Bypassed(id: nat)          // fast path
    | Dispatched(entry: Entry)   // taken from the queue
    | Overflowed(id: nat)        // 503
    | TimedOut(entry: Entry)     // 504

  /** `open`: requests whose release closure has not run yet; `freed`: those whose closure has. */
  datatype State = State(inFlight: int, queue: seq<Entry>, open: set<nat>, freed: set<nat>,
                         arrivals: nat, log: seq<Event>)

  const INIT := State(0, [], {}, {}, 0, [])

  function EventId(ev: Event): nat {
    match ev
    case Dispatched(e) => e.id
    case TimedOut(e) => e.id
    case _ => ev.id
  }

  predicate Granted(ev: Event) { ev.Bypassed? || ev.Dispatched? }

  /** Fifty times the aged score at time `now`. */
  function AgedScore(e: Entry, now: int): int { 50 * e.score + (now - e.enqueuedAt) }

  /** The part of the aged score that no clock changes. */
  function Key(e: Entry): int { 50 * e.score - e.enqueuedAt }

  /**
   `throwing`: the requests whose `next()` callback throws during the step.  `clock(n)(i)`: the time read for
   the entry at position `i` by the scan that finds `n` entries waiting.
   */
  datatype Env = Env(throwing: set<nat>, clock: nat -> nat -> int)

  const CALM := Env({}, (n: nat) => (i: nat) => 0)

  /** `i` is the first position whose score was the largest when it was read. */
  predicate IsPick(q: seq<Entry>, read: nat -> int, i: nat) {
    && i < |q|
    && (forall j: nat :: j < |q| ==> AgedScore(q[j], read(j)) <= AgedScore(q[i], read(i)))
    && (forall j: nat :: j < i ==> AgedScore(q[j], read(j)) < AgedScore(q[i], read(i)))
  }

  function Best(q: seq<Entry>, read: nat -> int): (i: nat)
    requires q != []
    ensures IsPick(q, read, i)
  {
    if |q| == 1 then 0
    else
      var n := |q| - 1;
      var b := Best(q[..n], read);
      if AgedScore(q[n], read(n)) > AgedScore(q[b], read(b)) then n else b
  }

  /** There is only one such position. */
  lemma {:induction false} OnePick(q: seq<Entry>, read: nat -> int, i: nat)
    requires q != [] && IsPick(q, read, i)
    ensures i == Best(q, read)
  {
    var b := Best(q, read);
    assert AgedScore(q[b], read(b)) == AgedScore(q[i], read(i));
  }

  function RemoveAt<T>(q: seq<T>, i: nat): (r: seq<T>)
    requires i < |q|
    ensures |r| == |q| - 1
  {
    if i == 0 then q[1..] else [q[0]] + RemoveAt(q[1..], i - 1)
  }

  lemma {:induction false} RemoveAtIs<T>(q: seq<T>, i: nat)
    requires i < |q|
    ensures RemoveAt(q, i) == q[..i] + q[i + 1..]
  {
    if i > 0 {
      RemoveAtIs(q[1..], i - 1);
      assert [q[0]] + q[1..][..i - 1] == q[..i] && q[1..][i..] == q[i + 1..];
    }
  }

  function IndexOf(q: seq<Entry>, id: nat): (i: int)
    ensures -1 <= i < |q|
    ensures i >= 0 ==> q[i].id == id
    ensures i == -1 ==> forall j :: 0 <= j < |q| ==> q[j].id != id
  {
    if q == [] then -1
    else if q[|q| - 1].id == id then |q| - 1
    else IndexOf(q[..|q| - 1], id)
  }

  /** One dispatch.  A callback that throws hands its slot back at once. */
  function DispatchOne(s: State, env: Env): State
    requires s.queue != []
  {
    var i := Best(s.queue, env.clock(|s.queue|));
    var e := s.queue[i];
    var rest := s.(queue := RemoveAt(s.queue, i), log := s.log + [Dispatched(e)]);
    if e.id in env.throwing then rest.(freed := s.freed + {e.id})
    else rest.(inFlight := s.inFlight + 1, open := s.open + {e.id})
  }

  predicate CanDispatch(cfg: Config, s: State) { s.inFlight < cfg.maxInFlight && s.queue != [] }

  function Drain(cfg: Config, s: State, env: Env): State
    decreases |s.queue|
  {
    if CanDispatch(cfg, s) then Drain(cfg, DispatchOne(s, env), env) else s
  }

  /** A response fires `finish` or `close`; the closure acts the first time only. */
  function Release(cfg: Config, s: State, id: nat, env: Env): State {
    if id in s.open then Drain(cfg, Freed(s, id), env) else s
  }

  function Freed(s: State, id: nat): State {
    s.(inFlight := s.inFlight - 1, open := s.open - {id}, freed := s.freed + {id})
  }

  predicate Forwards(cfg: Config, now: int, fallbackUntil: int) {
    cfg.mode.Off? || (cfg.mode.Cooperative? && now >= fallbackUntil)
  }

  predicate Bypasses(cfg: Config, s: State) {
    s.inFlight as real < BypassLimit(cfg)
  }

  function BypassLimit(cfg: Config): real { cfg.maxInFlight as real * cfg.bypassThreshold }

  /** The state after an arrival that leaves the queue alone. */
  function Logged(s: State, ev: Event): State {
    var t := s.(arrivals := s.arrivals + 1, log := s.log + [ev]);
    if ev.Bypassed? then t.(inFlight := s.inFlight + 1, open := s.open + {s.arrivals}) else t
  }

  function Arrive(cfg: Config, s: State, score: int, now: int, fallbackUntil: int, env: Env): State {
    if Forwards(cfg, now, fallbackUntil) then Logged(s, Passed(s.arrivals))
    else if Bypasses(cfg, s) then Logged(s, Bypassed(s.arrivals))
    else Contend(cfg, s, Entry(s.arrivals, score, now), env)
  }

  /** No slot for the fast path: refuse when the queue is full, else queue and drain. */
  function Contend(cfg: Config, s: State, e: Entry, env: Env): State {
    if |s.queue| >= cfg.maxQueueDepth then Logged(s, Overflowed(e.id))
    else Drain(cfg, Queued(s, e), env)
  }

  function Queued(s: State, e: Entry): State { s.(arrivals := s.arrivals + 1, queue := s.queue + [e]) }

  function Expire(s: State, id: nat): State {
    var i := IndexOf(s.queue, id);
    if i >= 0 then s.(queue := RemoveAt(s.queue, i), log := s.log + [TimedOut(s.queue[i])]) else s
  }

  datatype Step =
    | ArriveStep(score: int, now: int, fallbackUntil: int, env: Env)
    | ReleaseStep(id: nat, env: Env)
    | TimeoutStep(id: nat)

  function Apply(cfg: Config, s: State, step: Step): State {
    match step
    case ArriveStep(score, now, fallbackUntil, env) => Arrive(cfg, s, score, now, fallbackUntil, env)
    case ReleaseStep(id, env) => Release(cfg, s, id, env)
    case TimeoutStep(id) => Expire(s, id)
  }

  /** The state after any steps in any order. */
  function Run(cfg: Config, steps: seq<Step>): State {
    if steps == [] then INIT
    else Apply(cfg, Run(cfg, steps[..|steps| - 1]), steps[|steps| - 1])
  }

  /** Arrivals read a clock that does not go back. */
  predicate ClockForward(steps: seq<Step>) {
    forall i, j :: 0 <= i < j < |steps| && steps[i].ArriveStep? && steps[j].ArriveStep?
                   ==> steps[i].now <= steps[j].now
  }
}

/** Runs that meet the bound on the call counter, and runs under which there is none. */
module QuotaBounds {
  import opened Common
  import opened Quota
  import opened Tally

  lemma {:induction false} Prepend(s: State, step: Step, rest: seq<Step>, limit: nat, load: Load)
    requires WithinLoad(s, load) && AlwaysWithinLoad(Apply(s, step, limit), rest, limit, load)
    ensures AlwaysWithinLoad(s, [step] + rest, limit, load)
    ensures Run(s, [step] + rest, limit) == Run(Apply(s, step, limit), rest, limit)
  {
    assert ([step] + rest)[1..] == rest;
  }

  /** `n` requests that have worked out the month and not yet read it. */
  function Queue(now: Month, counters: Counters, n: nat): State {
    State(now, counters, seq(n, _ => Entered(now)))
  }

  predicate HoldsQueue(load: Load, n: nat) {
    load.counting.FromRead? || n <= load.requests
  }

  lemma {:induction false} QueueWithinLoad(now: Month, counters: Counters, n: nat, load: Load)
    requires HoldsQueue(load, n)
    ensures WithinLoad(Queue(now, counters, n), load)
  {
    if load.counting.FromRead? {
      NoneFlagged(InFlight(Queue(now, counters, n).requests, load.counting));
    }
  }

  lemma {:induction false} EnterAll(now: Month, counters: Counters, m: nat, n: nat, rest: seq<Step>, limit: nat, load: Load)
      returns (steps: seq<Step>)
    requires m <= n && HoldsQueue(load, n) && AlwaysWithinLoad(Queue(now, counters, n), rest, limit, load)
    ensures AlwaysWithinLoad(Queue(now, counters, m), steps, limit, load)
    ensures Run(Queue(now, counters, m), steps, limit) == Run(Queue(now, counters, n), rest, limit)
    decreases n - m
  {
    if m == n {
      steps := rest;
    } else {
      steps := EnterAll(now, counters, m + 1, n, rest, limit, load);
      QueueWithinLoad(now, counters, m, load);
      assert Apply(Queue(now, counters, m), Enter, limit) == Queue(now, counters, m + 1);
      Prepend(Queue(now, counters, m), Enter, steps, limit, load);
      steps := [Enter] + steps;
    }
  }

  // ----- the bound is met --------------------------------------------------------------

  /** The requests before `r` are in one phase and the others in another. */
  predicate Split(requests: seq<Phase>, r: nat, before: Phase, after: Phase) {
    && r <= |requests|
    && (forall i | 0 <= i < r :: requests[i] == before)
    && (forall i | r <= i < |requests| :: requests[i] == after)
  }

  /** Requests that have all read count themselves one after the other. */
  lemma {:induction false} ChargeAll(s: State, r: nat, limit: nat, load: Load) returns (steps: seq<Step>)
    requires Split(s.requests, r, Done, Passed) && |s.requests| <= load.requests
    ensures AlwaysWithinLoad(s, steps, limit, load)
    ensures Usage(Run(s, steps, limit).counters, s.now) == Usage(s.counters, s.now) + |s.requests| - r
    decreases |s.requests| - r
  {
    steps := [];
    if r < |s.requests| {
      var started := Apply(s, StartIncrement(r), limit);
      var counted := Apply(started, Increment(r), limit);
      steps := ChargeAll(counted, r + 1, limit, load);
      Prepend(started, Increment(r), steps, limit, load);
      Prepend(s, StartIncrement(r), [Increment(r)] + steps, limit, load);
      steps := [StartIncrement(r)] + ([Increment(r)] + steps);
    }
  }

  /** Before that they all read the same counter. */
  lemma {:induction false} ReadAll(s: State, r: nat, limit: nat, load: Load) returns (steps: seq<Step>)
    requires Split(s.requests, r, Passed, Entered(s.now)) && |s.requests| <= load.requests
    requires Usage(s.counters, s.now) < limit
    ensures AlwaysWithinLoad(s, steps, limit, load)
    ensures Usage(Run(s, steps, limit).counters, s.now) == Usage(s.counters, s.now) + |s.requests|
    decreases |s.requests| - r
  {
    if r == |s.requests| {
      steps := ChargeAll(s, 0, limit, load);
    } else {
      steps := ReadAll(Apply(s, ReadUsage(r), limit), r + 1, limit, load);
      Prepend(s, ReadUsage(r), steps, limit, load);
      steps := [ReadUsage(r)] + steps;
    }
  }

  /** The bound is met for every limit and load, however requests are counted: with one call left,
      as many requests as the load allows read before any of them counts. */
  lemma {:induction false} BoundIsMet(now: Month, limit: nat, load: Load) returns (s: State, steps: seq<Step>)
    requires 1 <= limit && 1 <= load.requests
    ensures IsStart(s, now, limit) && AlwaysWithinLoad(s, steps, limit, load)
    ensures Usage(Run(s, steps, limit).counters, now) == limit + load.requests - 1
  {
    var counters: Counters := map[now := limit - 1];
    steps := ReadAll(Queue(now, counters, load.requests), 0, limit, load);
    steps := EnterAll(now, counters, 0, load.requests, steps, limit, load);
    s := State(now, counters, []);
    assert Queue(now, counters, 0) == s;
  }

  // ----- counting from the read --------------------------------------------------------

  /** Requests of a month that is over read its counter and count themselves in the present one. */
  lemma {:induction false} LateReaders(s: State, past: Month, r: nat, limit: nat, load: Load) returns (steps: seq<Step>)
    requires Split(s.requests, r, Done, Entered(past)) && past != s.now && Usage(s.counters, past) < limit
    requires load.counting.FromRead? && 1 <= load.requests
    ensures AlwaysWithinLoad(s, steps, limit, load)
    ensures Usage(Run(s, steps, limit).counters, s.now) == Usage(s.counters, s.now) + |s.requests| - r
    decreases |s.requests| - r
  {
    OneFlagged(InFlight(s.requests, load.counting), r);
    steps := [];
    if r < |s.requests| {
      var read := Apply(s, ReadUsage(r), limit);
      var started := Apply(read, StartIncrement(r), limit);
      var counted := Apply(started, Increment(r), limit);
      OneFlagged(InFlight(read.requests, load.counting), r);
      OneFlagged(InFlight(started.requests, load.counting), r);
      steps := LateReaders(counted, past, r + 1, limit, load);
      Prepend(started, Increment(r), steps, limit, load);
      Prepend(read, StartIncrement(r), [Increment(r)] + steps, limit, load);
      Prepend(s, ReadUsage(r), [StartIncrement(r)] + ([Increment(r)] + steps), limit, load);
      steps := [ReadUsage(r)] + ([StartIncrement(r)] + ([Increment(r)] + steps));
    }
  }

  /** Were a request in flight only from its read on, there would be no bound at all: whatever the
      limit, one request at a time takes the counter to any number across the turn of a month. */
  lemma {:induction false} CountingFromTheReadBoundsNothing(now: Month, limit: nat, load: Load, n: nat)
      returns (steps: seq<Step>)
    requires 1 <= limit && 1 <= load.requests && load.counting.FromRead?
    ensures AlwaysWithinLoad(State(now, map[], []), steps, limit, load)
    ensures Usage(Run(State(now, map[], []), steps, limit).counters, now + 1) == n
  {
    var queue := Queue(now, map[], n);
    var turned := Apply(queue, Tick(now + 1), limit);
    steps := LateReaders(turned, now, 0, limit, load);
    QueueWithinLoad(now, map[], n, load);
    Prepend(queue, Tick(now + 1), steps, limit, load);
    steps := EnterAll(now, map[], 0, n, [Tick(now + 1)] + steps, limit, load);
    assert Queue(now, map[], 0) == State(now, map[], []);
  }

  /** The bound, over every run from every start that stays within a load. */
  ghost predicate AlwaysBounded(limit: nat, load: Load) {
    forall s, steps, month | IsStart(s, month, limit) && AlwaysWithinLoad(s, steps, limit, load) ::
      Usage(Run(s, steps, limit).counters, month) <= limit + load.requests - 1
  }

  /** So the bound holds if and only if requests are counted from working out the month to read. */
  lemma {:induction false} BoundedWhen(limit: nat, load: Load)
    requires 1 <= limit && 1 <= load.requests
    ensures AlwaysBounded(limit, load) <==> load.counting.FromMonth?
  {
    if load.counting.FromMonth? {
      forall s, steps, month | IsStart(s, month, limit) && AlwaysWithinLoad(s, steps, limit, load)
        ensures Usage(Run(s, steps, limit).counters, month) <= limit + load.requests - 1
      {
        QuotaOvershootIsBounded(s, steps, month, limit, load);
      }
    } else {
      var steps := CountingFromTheReadBoundsNothing(0, limit, load, limit + load.requests);
      var start := State(0, map[], []);
      assert IsStart(start, 1, limit) && AlwaysWithinLoad(start, steps, limit, load);
    }
  }
}

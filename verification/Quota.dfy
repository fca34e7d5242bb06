/** The monthly API-call quota: a request reads the counter, is let through or turned away, and
    if let through counts itself later. */
module Quota {
  import opened Common
  import opened Calendar
  import opened Tally

  /** A billing period, `YYYY-MM`. */
  type Month = int

  function MonthOf(now: DateTime): Month {
    now.date.year * 12 + now.date.month
  }

  /** Two moments count towards the same period if and only if they share year and month, which is
      when one lies in the monthly window of the other; periods follow time. */
  lemma {:induction false} MonthsAreCalendarMonths(a: DateTime, b: DateTime)
    requires IsDateTime(a) && IsDateTime(b)
    ensures MonthOf(a) == MonthOf(b) <==> a.date.year == b.date.year && a.date.month == b.date.month
    ensures CurrentPeriodWindow(Monthly, a).Some? ==>
              (MonthOf(a) == MonthOf(b) <==> Within(CurrentPeriodWindow(Monthly, a).value, b))
    ensures Instant(a) <= Instant(b) ==> MonthOf(a) <= MonthOf(b)
  {
    MonthIndex(a.date.year, a.date.month, b.date.year, b.date.month);
    if CurrentPeriodWindow(Monthly, a).Some? { WindowIsThePeriod(Monthly, a, b); }
    if Instant(a) <= Instant(b) { PeriodsFollowTime(Monthly, a, b); }
  }

  /** `billing_usage_monthly` for one tenant. */
  type Counters = map<Month, nat>

  function Usage(counters: Counters, month: Month): nat {
    if month in counters then counters[month] else 0
  }

  function Incremented(counters: Counters, month: Month): Counters {
    counters[month := Usage(counters, month) + 1]
  }

  // ----- one request at a time ---------------------------------------------------------

  datatype Answer = PaymentRequired | QuotaExceeded | Forwarded

  class CommercialMiddleware {
    var counters: Counters

    constructor ()
      ensures counters == map[]
    {
      counters := map[];
    }

    /** `dispatch` from step 3 on, for a request that meets no other.  No limit means unlimited. */
    method Dispatch(now: DateTime, canAccessApi: bool, limit: Option<int>) returns (answer: Answer)
      modifies this
      ensures answer == PaymentRequired <==> !canAccessApi
      ensures answer == QuotaExceeded <==> canAccessApi && limit.Some? && Usage(old(counters), MonthOf(now)) >= limit.value
      ensures counters == if answer == Forwarded then Incremented(old(counters), MonthOf(now)) else old(counters)
      ensures forall m ::
                Usage(counters, m) == Usage(old(counters), m) + if answer == Forwarded && m == MonthOf(now) then 1 else 0
      ensures limit.Some? && Usage(old(counters), MonthOf(now)) <= limit.value ==> Usage(counters, MonthOf(now)) <= limit.value
    {
      var usage := Usage(counters, MonthOf(now));
      if !canAccessApi {
        return PaymentRequired;
      }
      if limit.Some? && usage >= limit.value {
        return QuotaExceeded;
      }
      counters := Incremented(counters, MonthOf(now));
      return Forwarded;
    }
  }

  // ----- many requests at once ---------------------------------------------------------

  /** Where a request stands.  `get_snapshot` and `increment` each work out the month before they
      reach the table, so the month may turn in between. */
  datatype Phase =
    | Entered(readMonth: Month)
    | Passed
    | Charging(chargeMonth: Month)
    | Done

  datatype State = State(now: Month, counters: Counters, requests: seq<Phase>)

  datatype Step =
    | Tick(now: Month)
    | Enter
    | ReadUsage(r: nat)
    | StartIncrement(r: nat)
    | Increment(r: nat)
    | Abandon(r: nat)

  function Move(s: State, r: nat, phase: Phase): State
    requires r < |s.requests|
  {
    s.(requests := s.requests[r := phase])
  }

  /** A step that cannot be taken changes nothing. */
  function Apply(s: State, step: Step, limit: nat): State {
    match step
    case Tick(now) => if s.now <= now then s.(now := now) else s
    case Enter => s.(requests := s.requests + [Entered(s.now)])
    case ReadUsage(r) =>
      if r < |s.requests| && s.requests[r].Entered?
      then Move(s, r, if Usage(s.counters, s.requests[r].readMonth) >= limit then Done else Passed) else s
    case StartIncrement(r) =>
      if r < |s.requests| && s.requests[r].Passed? then Move(s, r, Charging(s.now)) else s
    case Increment(r) =>
      if r < |s.requests| && s.requests[r].Charging?
      then Move(s, r, Done).(counters := Incremented(s.counters, s.requests[r].chargeMonth)) else s
    case Abandon(r) =>
      if r < |s.requests| then Move(s, r, Done) else s
  }

  function Run(s: State, steps: seq<Step>, limit: nat): State
    decreases |steps|
  {
    if steps == [] then s else Run(Apply(s, steps[0], limit), steps[1..], limit)
  }

  /** The steps of one request that enters as number `r`. */
  function Request(r: nat): seq<Step> {
    [Enter, ReadUsage(r), StartIncrement(r), Increment(r)]
  }

  lemma {:induction false} RunFour(s: State, a: Step, b: Step, c: Step, d: Step, limit: nat)
    ensures Run(s, [a, b, c, d], limit) == Apply(Apply(Apply(Apply(s, a, limit), b, limit), c, limit), d, limit)
  {
    assert [a, b, c, d][1..] == [b, c, d] && [b, c, d][1..] == [c, d] && [c, d][1..] == [d] && [d][1..] == [];
    var afterThree := Apply(Apply(Apply(s, a, limit), b, limit), c, limit);
    assert Run(afterThree, [d], limit) == Run(Apply(afterThree, d, limit), [], limit);
    assert Run(Apply(Apply(s, a, limit), b, limit), [c, d], limit) == Run(afterThree, [d], limit);
  }

  /** A request that nobody meets is answered and counted as `Dispatch` has it, whatever others are
      in progress. */
  lemma {:induction false} UndisturbedRequest(s: State, limit: nat, m: Month)
    ensures var after := Run(s, Request(|s.requests|), limit);
            && after.now == s.now && after.requests == s.requests + [Done]
            && Usage(after.counters, m) == Usage(s.counters, m)
                 + if Usage(s.counters, s.now) < limit && m == s.now then 1 else 0
  {
    var r := |s.requests|;
    RunFour(s, Enter, ReadUsage(r), StartIncrement(r), Increment(r), limit);
  }

  /** A request that is abandoned is over, whatever comes later. */
  lemma {:induction false} AbandonedIsOver(s: State, steps: seq<Step>, r: nat, limit: nat)
    requires r < |s.requests|
    ensures var end := Run(s, [Abandon(r)] + steps, limit);
            r < |end.requests| && end.requests[r].Done?
  {
    assert ([Abandon(r)] + steps)[1..] == steps;
    DoneStaysDone(Apply(s, Abandon(r), limit), steps, r, limit);
  }

  lemma {:induction false} DoneStaysDone(s: State, steps: seq<Step>, r: nat, limit: nat)
    requires r < |s.requests| && s.requests[r].Done?
    ensures r < |Run(s, steps, limit).requests| && Run(s, steps, limit).requests[r].Done?
    decreases |steps|
  {
    if steps != [] { DoneStaysDone(Apply(s, steps[0], limit), steps[1..], r, limit); }
  }

  /** When a request starts to count as in flight: once it has worked out the month to read, or
      only once it has read it. */
  datatype Counting = FromMonth | FromRead

  predicate IsInFlight(phase: Phase, c: Counting) {
    phase.Passed? || phase.Charging? || (phase.Entered? && c.FromMonth?)
  }

  function InFlight(requests: seq<Phase>, c: Counting): (flags: seq<bool>)
    ensures |flags| == |requests|
  {
    seq(|requests|, i requires 0 <= i < |requests| => IsInFlight(requests[i], c))
  }

  /** At most `requests` are in flight. */
  datatype Load = Load(requests: nat, counting: Counting)

  predicate WithinLoad(s: State, load: Load) {
    Count(InFlight(s.requests, load.counting)) <= load.requests
  }

  predicate AlwaysWithinLoad(s: State, steps: seq<Step>, limit: nat, load: Load)
    decreases |steps|
  {
    && WithinLoad(s, load)
    && (steps == [] || AlwaysWithinLoad(Apply(s, steps[0], limit), steps[1..], limit, load))
  }

  /** A step does not read the counter of a month that is over by then. */
  predicate ReadsInTime(s: State, step: Step) {
    step.ReadUsage? && step.r < |s.requests| && s.requests[step.r].Entered? ==> s.requests[step.r].readMonth == s.now
  }

  predicate AlwaysReadsInTime(s: State, steps: seq<Step>, limit: nat)
    decreases |steps|
  {
    steps == [] || (ReadsInTime(s, steps[0]) && AlwaysReadsInTime(Apply(s, steps[0], limit), steps[1..], limit))
  }

  // ----- what a request may still add to a month's counter -----------------------------

  function Weight(month: Month, now: Month, phase: Phase, c: Counting): int {
    match phase
    case Entered(readMonth) => if c.FromMonth? && month == now && readMonth != month then 1 else 0
    case Passed => if month == now then 1 else 0
    case Charging(chargeMonth) => if chargeMonth == month then 1 else 0
    case Done => 0
  }

  function Weights(month: Month, now: Month, requests: seq<Phase>, c: Counting): (weights: seq<int>)
    ensures |weights| == |requests|
  {
    seq(|requests|, i requires 0 <= i < |requests| => Weight(month, now, requests[i], c))
  }

  /** Up to now the counter and what is still to come fit; nothing lies in the future. */
  ghost predicate Inv(s: State, month: Month, limit: nat, load: Load) {
    && (forall i | 0 <= i < |s.requests| && s.requests[i].Charging? :: s.requests[i].chargeMonth <= s.now)
    && (if s.now < month then Usage(s.counters, month) == 0
        else Usage(s.counters, month) + Sum(Weights(month, s.now, s.requests, load.counting)) <= limit + load.requests - 1)
  }

  lemma {:induction false} WeightsCapped(month: Month, now: Month, requests: seq<Phase>, c: Counting)
    ensures Capped(Weights(month, now, requests, c), InFlight(requests, c), 1)
  {
  }

  lemma {:induction false} MoveWeight(s: State, r: nat, phase: Phase, month: Month, c: Counting)
    requires r < |s.requests|
    ensures Sum(Weights(month, s.now, Move(s, r, phase).requests, c))
         == Sum(Weights(month, s.now, s.requests, c)) - Weight(month, s.now, s.requests[r], c)
          + Weight(month, s.now, phase, c)
  {
    var w := Weight(month, s.now, phase, c);
    SumUpdate(Weights(month, s.now, s.requests, c), r, w);
    assert Weights(month, s.now, Move(s, r, phase).requests, c) == Weights(month, s.now, s.requests, c)[r := w];
  }

  lemma {:induction false} EnterKeepsInv(s: State, month: Month, limit: nat, load: Load)
    requires Inv(s, month, limit, load)
    ensures Inv(Apply(s, Enter, limit), month, limit, load)
  {
    SumAppend(Weights(month, s.now, s.requests, load.counting), 0);
    assert Weights(month, s.now, s.requests + [Entered(s.now)], load.counting)
        == Weights(month, s.now, s.requests, load.counting) + [0];
  }

  lemma {:induction false} StepKeepsInv(s: State, step: Step, month: Month, limit: nat, load: Load)
    requires 1 <= limit && 1 <= load.requests && Inv(s, month, limit, load)
    requires WithinLoad(s, load) && WithinLoad(Apply(s, step, limit), load)
    requires load.counting.FromRead? ==> ReadsInTime(s, step)
    ensures Inv(Apply(s, step, limit), month, limit, load)
  {
    var s' := Apply(s, step, limit);
    match step {
      case Tick(now) =>
        if s.now <= now { TickKeepsInv(s, now, month, limit, load); }
      case Enter => EnterKeepsInv(s, month, limit, load);
      case ReadUsage(r) =>
        if r < |s.requests| && s.requests[r].Entered? { ReadKeepsInv(s, r, month, limit, load); }
      case StartIncrement(r) =>
        if s' != s { MoveWeight(s, r, Charging(s.now), month, load.counting); }
      case Increment(r) =>
        if s' != s { MoveWeight(s, r, Done, month, load.counting); }
      case Abandon(r) =>
        if s' != s { MoveWeight(s, r, Done, month, load.counting); }
    }
  }

  lemma {:induction false} TickKeepsInv(s: State, now: Month, month: Month, limit: nat, load: Load)
    requires 1 <= limit && 1 <= load.requests && Inv(s, month, limit, load) && s.now <= now && WithinLoad(s, load)
    ensures Inv(s.(now := now), month, limit, load)
  {
    var s' := s.(now := now);
    var c := load.counting;
    if month <= s.now {
      SumLess(Weights(month, now, s.requests, c), Weights(month, s.now, s.requests, c));
    } else if month == now {
      WeightsCapped(month, now, s.requests, c);
      SumFlagged(Weights(month, now, s.requests, c), InFlight(s.requests, c), 1, 1, load.requests);
      TimesIsProduct(load.requests - 1, 1);
    } else if month < now {
      NothingCharges(s', month, c);
    }
  }

  /** Before its month nobody has charged it, and after it only a charge already begun counts. */
  lemma {:induction false} NothingCharges(s: State, month: Month, c: Counting)
    requires month < s.now
    requires forall i | 0 <= i < |s.requests| && s.requests[i].Charging? :: s.requests[i].chargeMonth < month
    ensures Sum(Weights(month, s.now, s.requests, c)) <= 0
  {
    var flags := seq(|s.requests|, i => false);
    NoneFlagged(flags);
    SumCapped(Weights(month, s.now, s.requests, c), flags, 1);
  }

  lemma {:induction false} ReadKeepsInv(s: State, r: nat, month: Month, limit: nat, load: Load)
    requires 1 <= limit && Inv(s, month, limit, load) && r < |s.requests| && s.requests[r].Entered?
    requires WithinLoad(Apply(s, ReadUsage(r), limit), load)
    requires load.counting.FromRead? ==> ReadsInTime(s, ReadUsage(r))
    ensures Inv(Apply(s, ReadUsage(r), limit), month, limit, load)
  {
    var s' := Apply(s, ReadUsage(r), limit);
    var c := load.counting;
    MoveWeight(s, r, s'.requests[r], month, c);
    if month == s.now == s.requests[r].readMonth && s'.requests[r].Passed? {
      WeightsCapped(month, s.now, s'.requests, c);
      SumOthers(Weights(month, s.now, s'.requests, c), InFlight(s'.requests, c), 1, load.requests, r);
      TimesIsProduct(load.requests - 1, 1);
    }
  }

  lemma {:induction false} RunKeepsInv(s: State, steps: seq<Step>, month: Month, limit: nat, load: Load)
    requires 1 <= limit && 1 <= load.requests && Inv(s, month, limit, load) && AlwaysWithinLoad(s, steps, limit, load)
    requires load.counting.FromRead? ==> AlwaysReadsInTime(s, steps, limit)
    ensures Inv(Run(s, steps, limit), month, limit, load)
    decreases |steps|
  {
    if steps != [] {
      var s' := Apply(s, steps[0], limit);
      assert AlwaysWithinLoad(s', steps[1..], limit, load);
      assert WithinLoad(s', load);
      StepKeepsInv(s, steps[0], month, limit, load);
      RunKeepsInv(s', steps[1..], month, limit, load);
    }
  }

  /** A start: no request in progress, the counter within the limit, nothing counted ahead. */
  predicate IsStart(s: State, month: Month, limit: nat) {
    s.requests == [] && Usage(s.counters, month) <= limit && (s.now < month ==> Usage(s.counters, month) == 0)
  }

  /** Over every interleaving with at most `requests` in flight no month's counter passes
      `limit + requests - 1`, and with one request at a time none passes the limit; requests that
      read in one month and count in another are included.  Requests count as in flight from
      working out the month to read, or, if no month is over by the time it is read, only from
      that read. */
  lemma {:induction false} QuotaOvershootIsBounded(s: State, steps: seq<Step>, month: Month, limit: nat, load: Load)
    requires 1 <= limit && 1 <= load.requests && IsStart(s, month, limit) && AlwaysWithinLoad(s, steps, limit, load)
    requires load.counting.FromRead? ==> AlwaysReadsInTime(s, steps, limit)
    ensures Usage(Run(s, steps, limit).counters, month) <= limit + load.requests - 1
  {
    RunKeepsInv(s, steps, month, limit, load);
    var end := Run(s, steps, limit);
    SumNotNegative(Weights(month, end.now, end.requests, load.counting));
  }
}

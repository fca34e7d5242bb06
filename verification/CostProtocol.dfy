/** Budget enforcement with any number of requests in progress.

    A request lists its matching budgets, then for each works out the window and reads the
    spend, decides, and if allowed records its actual cost some time later.  Top-ups, new
    budgets and the clock come in between in any order.  A step that cannot be taken changes
    nothing. */
module CostProtocol {
  import opened Common
  import opened Calendar
  import opened Budgets
  import opened CostLedger
  import opened Tally

  datatype Phase =
    | Reading(next: nat, window: Option<Window>, spend: Spend)
    | Allowed
    | Done

  datatype Request = Request(attr: Attribution, matched: seq<CostBudget>, phase: Phase)

  datatype State = State(
    now: DateTime,
    budgets: map<string, CostBudget>,
    events: seq<SpendEvent>,
    requests: seq<Request>)

  datatype Step =
    | Tick(now: DateTime)
    | Begin(attr: Attribution, matched: seq<CostBudget>)
    | OpenWindow(r: nat)
    | ReadSpend(r: nat)
    | Decide(r: nat)
    | Record(r: nat, actual: int)
    | Abandon(r: nat)
    | TopUp(id: string, amount: int)
    | Create(budget: CostBudget)

  predicate HasId(b: CostBudget, id: string) {
    b.budgetId == Some(id) && id != ""
  }

  /** A list of exactly the budgets that match, in whatever order the table gives them. */
  ghost predicate IsMatchList(budgets: map<string, CostBudget>, a: Attribution, matched: seq<CostBudget>) {
    && (forall b | b in matched :: Matches(b, a) && exists id :: id in budgets && budgets[id] == b)
    && (forall id | id in budgets && Matches(budgets[id], a) :: budgets[id] in matched)
    && DistinctKeys(matched)
  }

  function Move(s: State, r: nat, phase: Phase): State
    requires r < |s.requests|
  {
    s.(requests := s.requests[r := s.requests[r].(phase := phase)])
  }

  /** The whole check of a request whose reads are complete.  A negative projection does not
      get past the enforcement record. */
  function Verdict(r: Request): Phase
    requires r.phase.Reading?
  {
    var outcome := Walk(Ordered(r.matched), r.phase.spend, r.attr.projected);
    if outcome.Decided? && outcome.decision.Allow? && (r.matched == [] || 0 <= r.attr.projected) then Allowed else Done
  }

  /** The next thing a reading request does about the window of its next budget. */
  function Opened(r: Request, now: DateTime): Phase
    requires r.phase.Reading? && r.phase.next < |r.matched| && IsDateTime(now)
  {
    match CurrentPeriodWindow(r.matched[r.phase.next].period, now)
    case None => Done
    case Some(window) => r.phase.(window := Some(window))
  }

  function Read(r: Request, events: seq<SpendEvent>): Phase
    requires r.phase.Reading? && r.phase.next < |r.matched| && r.phase.window.Some?
  {
    var b := r.matched[r.phase.next];
    Reading(r.phase.next + 1, None, r.phase.spend[Key(b) := CurrentSpend(events, b.scope, r.phase.window.value)])
  }

  ghost predicate Enabled(s: State, step: Step) {
    match step
    case Tick(now) => IsDateTime(now) && Instant(s.now) <= Instant(now)
    case Begin(attr, matched) => IsMatchList(s.budgets, attr, matched)
    case OpenWindow(r) =>
      r < |s.requests| && s.requests[r].phase.Reading? && s.requests[r].phase.window.None?
      && s.requests[r].phase.next < |s.requests[r].matched| && IsDateTime(s.now)
    case ReadSpend(r) =>
      r < |s.requests| && s.requests[r].phase.Reading? && s.requests[r].phase.window.Some?
      && s.requests[r].phase.next < |s.requests[r].matched|
    case Decide(r) =>
      r < |s.requests| && s.requests[r].phase.Reading? && s.requests[r].phase.next == |s.requests[r].matched|
    case Record(r, actual) =>
      r < |s.requests| && s.requests[r].phase.Allowed? && 0 <= actual <= s.requests[r].attr.projected
    case Abandon(r) => r < |s.requests|
    case TopUp(id, amount) => id in s.budgets && s.budgets[id].scope.scopeType.Tenant? && 0 < amount
    case Create(b) => IsValid(b) && b.budgetId.Some? && b.budgetId.value != "" && b.budgetId.value !in s.budgets
  }

  ghost function Apply(s: State, step: Step): State {
    if !Enabled(s, step) then s else
    match step
    case Tick(now) => s.(now := now)
    case Begin(attr, matched) => s.(requests := s.requests + [Request(attr, matched, Reading(0, None, map[]))])
    case OpenWindow(r) => Move(s, r, Opened(s.requests[r], s.now))
    case ReadSpend(r) => Move(s, r, Read(s.requests[r], s.events))
    case Decide(r) => Move(s, r, Verdict(s.requests[r]))
    case Record(r, actual) =>
      Move(s, r, Done).(events := s.events + [EventOf(s.requests[r].attr.(actual := actual), s.now)])
    case Abandon(r) => Move(s, r, Done)
    case TopUp(id, amount) =>
      s.(budgets := s.budgets[id := s.budgets[id].(amountCents := s.budgets[id].amountCents + amount)])
    case Create(b) => s.(budgets := s.budgets[b.budgetId.value := b])
  }

  ghost function Run(s: State, steps: seq<Step>): State
    decreases |steps|
  {
    if steps == [] then s else Run(Apply(s, steps[0]), steps[1..])
  }

  // ----- what the steps come to --------------------------------------------------------

  /** What a request does, budget by budget, until it is decided. */
  function Check(r: nat, budgets: nat): seq<Step> {
    if budgets == 0 then [Decide(r)] else [OpenWindow(r), ReadSpend(r)] + Check(r, budgets - 1)
  }

  lemma {:induction false} RunOne(s: State, a: Step)
    ensures Run(s, [a]) == Apply(s, a)
  {
    assert [a][1..] == [];
  }

  lemma {:induction false} DoneStaysDone(s: State, steps: seq<Step>, r: nat)
    requires r < |s.requests| && s.requests[r].phase.Done?
    ensures r < |Run(s, steps).requests| && Run(s, steps).requests[r] == s.requests[r]
    decreases |steps|
  {
    if steps != [] { DoneStaysDone(Apply(s, steps[0]), steps[1..], r); }
  }

  /** A request that is abandoned is over, whatever comes later. */
  lemma {:induction false} AbandonedIsOver(s: State, steps: seq<Step>, r: nat)
    requires r < |s.requests|
    ensures var end := Run(s, [Abandon(r)] + steps);
            r < |end.requests| && end.requests[r] == s.requests[r].(phase := Done)
  {
    assert ([Abandon(r)] + steps)[1..] == steps;
    DoneStaysDone(Apply(s, Abandon(r)), steps, r);
  }

  /** Nothing a request reads or decides touches the tables. */
  lemma {:induction false} CheckWritesNothing(s: State, r: nat, n: nat)
    ensures var end := Run(s, Check(r, n)); end.now == s.now && end.budgets == s.budgets && end.events == s.events
    decreases n
  {
    if n == 0 {
      RunOne(s, Decide(r));
    } else {
      CheckWritesNothing(Apply(Apply(s, OpenWindow(r)), ReadSpend(r)), r, n - 1);
    }
  }

  /** A request that has read the spend of its first budgets. */
  predicate HasRead(s: State, r: nat, next: nat)
    requires IsDateTime(s.now)
  {
    && r < |s.requests| && next <= |s.requests[r].matched|
    && match SpendByBudget(s.requests[r].matched[..next], s.events, s.now)
       case None => false
       case Some(spend) => s.requests[r].phase == Reading(next, None, spend)
  }

  lemma {:induction false} ReadOneMore(s: State, r: nat, next: nat)
    requires IsDateTime(s.now) && HasRead(s, r, next) && next < |s.requests[r].matched|
    ensures var after := Apply(Apply(s, OpenWindow(r)), ReadSpend(r));
            && after.now == s.now && after.events == s.events && |after.requests| == |s.requests|
            && after.requests[r].matched == s.requests[r].matched && after.requests[r].attr == s.requests[r].attr
            && if SpendByBudget(s.requests[r].matched[..next + 1], s.events, s.now).Some? then HasRead(after, r, next + 1)
               else after.requests[r].phase.Done?
  {
    SpendByOneMore(s.requests[r].matched, next, s.events, s.now);
  }

  predicate Passes(outcome: Outcome) {
    outcome.Decided? && outcome.decision.Allow?
  }

  /** Whether the service's own check lets the request through as things stand. */
  predicate ServicePasses(s: State, r: nat)
    requires IsDateTime(s.now) && r < |s.requests|
  {
    Passes(CheckOutcome(s.requests[r].matched, s.events, s.requests[r].attr, s.now))
  }

  predicate IsAllowed(s: State, r: nat) {
    r < |s.requests| && s.requests[r].phase.Allowed?
  }

  lemma {:induction false} AllReadThenDecided(s: State, r: nat)
    requires IsDateTime(s.now) && r < |s.requests| && HasRead(s, r, |s.requests[r].matched|)
    ensures IsAllowed(Run(s, [Decide(r)]), r) <==> ServicePasses(s, r)
  {
    var matched := s.requests[r].matched;
    assert matched[..|matched|] == matched;
    RunOne(s, Decide(r));
  }

  lemma {:induction false} NotReadNotPassed(s: State, r: nat, k: nat, after: State, rest: seq<Step>)
    requires IsDateTime(s.now) && r < |s.requests| && 0 < k <= |s.requests[r].matched|
    requires SpendByBudget(s.requests[r].matched[..k], s.events, s.now).None?
    requires r < |after.requests| && after.requests[r].phase.Done?
    ensures !ServicePasses(s, r) && !IsAllowed(Run(after, rest), r)
  {
    NoSpendBeyond(s.requests[r].matched, k, s.events, s.now);
    DoneStaysDone(after, rest, r);
  }

  lemma {:induction false} SameService(s: State, after: State, r: nat)
    requires IsDateTime(s.now) && after.now == s.now && after.events == s.events
    requires r < |s.requests| && r < |after.requests|
    requires after.requests[r].matched == s.requests[r].matched && after.requests[r].attr == s.requests[r].attr
    ensures ServicePasses(after, r) == ServicePasses(s, r)
  {
  }

  lemma {:induction false} ReadThenDecided(s: State, r: nat, next: nat, left: nat)
    requires IsDateTime(s.now) && HasRead(s, r, next) && next + left == |s.requests[r].matched|
    ensures IsAllowed(Run(s, Check(r, left)), r) <==> ServicePasses(s, r)
    decreases left, 1
  {
    if left == 0 {
      AllReadThenDecided(s, r);
    } else {
      ReadOneMore(s, r, next);
      OneMoreThenDecided(s, Apply(Apply(s, OpenWindow(r)), ReadSpend(r)), r, next, left);
    }
  }

  lemma {:induction false} OneMoreThenDecided(s: State, after: State, r: nat, next: nat, left: nat)
    requires IsDateTime(s.now) && r < |s.requests| && 0 < left && next + left == |s.requests[r].matched|
    requires after.now == s.now && after.events == s.events && |after.requests| == |s.requests|
    requires after.requests[r].matched == s.requests[r].matched && after.requests[r].attr == s.requests[r].attr
    requires if SpendByBudget(s.requests[r].matched[..next + 1], s.events, s.now).Some? then HasRead(after, r, next + 1)
             else after.requests[r].phase.Done?
    ensures IsAllowed(Run(after, Check(r, left - 1)), r) <==> ServicePasses(s, r)
    decreases left, 0
  {
    if SpendByBudget(s.requests[r].matched[..next + 1], s.events, s.now).Some? {
      ReadThenDecided(after, r, next + 1, left - 1);
      SameService(s, after, r);
    } else {
      NotReadNotPassed(s, r, next + 1, after, Check(r, left - 1));
    }
  }

  /** A request that nobody meets is let through if and only if the service's own check lets it
      through, and writes nothing up to then. */
  lemma {:induction false} UndisturbedCheck(s: State, attr: Attribution, matched: seq<CostBudget>)
    requires IsDateTime(s.now) && IsMatchList(s.budgets, attr, matched)
    ensures var r := |s.requests|;
            var end := Run(s, [Begin(attr, matched)] + Check(r, |matched|));
            && end.now == s.now && end.budgets == s.budgets && end.events == s.events
            && (IsAllowed(end, r) <==> Passes(CheckOutcome(matched, s.events, attr, s.now)))
  {
    var r := |s.requests|;
    var steps := Check(r, |matched|);
    assert ([Begin(attr, matched)] + steps)[1..] == steps;
    var begun := Apply(s, Begin(attr, matched));
    assert matched[..0] == [];
    CheckWritesNothing(begun, r, |matched|);
    ReadThenDecided(begun, r, 0, |matched|);
  }

  /** What the top-ups of a run add to a budget. */
  function ToppedUp(steps: seq<Step>, id: string): int {
    if steps == [] then 0 else
    (if steps[0].TopUp? && steps[0].id == id && 0 < steps[0].amount then steps[0].amount else 0) + ToppedUp(steps[1..], id)
  }

  /** Over every run a budget stays as it is but for its amount, which grows by exactly the top-ups
      if it is of tenant scope and not at all otherwise. */
  lemma {:induction false} AmountsFollowTopUps(s: State, steps: seq<Step>, id: string)
    requires id in s.budgets
    ensures id in Run(s, steps).budgets
    ensures var b := s.budgets[id];
            Run(s, steps).budgets[id] ==
            b.(amountCents := b.amountCents + if b.scope.scopeType.Tenant? then ToppedUp(steps, id) else 0)
    decreases |steps|
  {
    if steps != [] {
      AmountsFollowTopUps(Apply(s, steps[0]), steps[1..], id);
    }
  }

  /** A budget that is valid and new is there from its creation on. */
  lemma {:induction false} CreatedBudgetIsThere(s: State, b: CostBudget, id: string, steps: seq<Step>)
    requires IsValid(b) && b.budgetId == Some(id) && id != "" && id !in s.budgets
    ensures var end := Run(s, [Create(b)] + steps);
            && id in end.budgets && b.amountCents <= end.budgets[id].amountCents
            && end.budgets[id].(amountCents := b.amountCents) == b
  {
    assert ([Create(b)] + steps)[1..] == steps;
    AmountsFollowTopUps(Apply(s, Create(b)), steps, id);
    ToppedUpNotNegative(steps, id);
  }

  lemma {:induction false} ToppedUpNotNegative(steps: seq<Step>, id: string)
    ensures 0 <= ToppedUp(steps, id)
  {
    if steps != [] { ToppedUpNotNegative(steps[1..], id); }
  }

  // ----- requests in flight ------------------------------------------------------------

  /** Where a budget stands in a request's list; the length if it does not. */
  function IndexOf(matched: seq<CostBudget>, id: string): (k: nat)
    ensures k <= |matched|
    ensures k < |matched| ==> HasId(matched[k], id)
    ensures k == |matched| ==> forall b | b in matched :: !HasId(b, id)
  {
    if matched == [] || HasId(matched[0], id) then 0 else IndexOf(matched[1..], id) + 1
  }

  /** When a request starts to count as in flight for a budget: once it has worked out the
      budget's window, or only once it has read its spend. */
  datatype Counting = FromWindow | FromRead

  /** In flight until the request has recorded its spend or gone away. */
  predicate IsInFlight(r: Request, id: string, c: Counting) {
    var k := IndexOf(r.matched, id);
    k < |r.matched| &&
    match r.phase
    case Reading(next, window, _) => k < next || (c.FromWindow? && k == next && window.Some?)
    case Allowed => true
    case Done => false
  }

  function InFlight(requests: seq<Request>, id: string, c: Counting): (flags: seq<bool>)
    ensures |flags| == |requests|
  {
    seq(|requests|, i requires 0 <= i < |requests| => IsInFlight(requests[i], id, c))
  }

  /** The load a budget is under: at most `requests` in flight, each projecting at most `cents`. */
  datatype Load = Load(requests: nat, cents: nat, counting: Counting)

  predicate WithinLoad(s: State, id: string, load: Load) {
    && Count(InFlight(s.requests, id, load.counting)) <= load.requests
    && forall i | 0 <= i < |s.requests| && IsInFlight(s.requests[i], id, load.counting) ::
         s.requests[i].attr.projected <= load.cents
  }

  ghost predicate AlwaysWithinLoad(s: State, steps: seq<Step>, id: string, load: Load)
    decreases |steps|
  {
    && WithinLoad(s, id, load)
    && (steps == [] || AlwaysWithinLoad(Apply(s, steps[0]), steps[1..], id, load))
  }

  /** A step does not read the spend of the budget for a window that is over by then. */
  ghost predicate ReadsInTime(s: State, step: Step, id: string) {
    step.ReadSpend? && Enabled(s, step) && id in s.budgets && IsDateTime(s.now) ==>
      var r := s.requests[step.r];
      IndexOf(r.matched, id) == r.phase.next ==> CurrentPeriodWindow(s.budgets[id].period, s.now) == r.phase.window
  }

  ghost predicate AlwaysReadsInTime(s: State, steps: seq<Step>, id: string)
    decreases |steps|
  {
    steps == [] || (ReadsInTime(s, steps[0], id) && AlwaysReadsInTime(Apply(s, steps[0]), steps[1..], id))
  }

  // ----- what a request may still add to the current period ----------------------------

  /** Counting from the window, a request whose window is over may still read the old spend. */
  function Weight(now: DateTime, id: string, r: Request, c: Counting): (weight: int)
    requires IsDateTime(now)
    ensures 0 <= weight
  {
    var k := IndexOf(r.matched, id);
    if k == |r.matched| || r.attr.projected < 0 then 0 else
    var b, p := r.matched[k], r.attr.projected;
    match r.phase
    case Done => 0
    case Allowed => p
    case Reading(next, window, spend) =>
      if k < next then if SpendOf(b, spend) + p <= b.amountCents then p else 0
      else if c.FromWindow? && k == next && window.Some? && CurrentPeriodWindow(b.period, now) != window
              && p <= b.amountCents then p
      else 0
  }

  function Weights(now: DateTime, id: string, requests: seq<Request>, c: Counting): (weights: seq<int>)
    requires IsDateTime(now)
    ensures |weights| == |requests|
  {
    seq(|requests|, i requires 0 <= i < |requests| => Weight(now, id, requests[i], c))
  }

  /** Spend of a scope in one period, by the period's index. */
  function SpendIn(events: seq<SpendEvent>, scope: Scope, period: Period, index: int): nat {
    if events == [] then 0 else
    var e := events[|events| - 1];
    SpendIn(events[..|events| - 1], scope, period, index)
      + if Counts(scope, e) && PeriodIndex(period, e.at.date) == index then e.cost else 0
  }

  lemma {:induction false} SpendInAppend(events: seq<SpendEvent>, e: SpendEvent, scope: Scope, period: Period,
                                         index: int)
    ensures SpendIn(events + [e], scope, period, index) == SpendIn(events, scope, period, index)
              + if Counts(scope, e) && PeriodIndex(period, e.at.date) == index then e.cost else 0
  {
    assert (events + [e])[..|events|] == events;
  }

  lemma {:induction false} SpendInIsCurrentSpend(events: seq<SpendEvent>, scope: Scope, period: Period, t: DateTime)
    requires IsDateTime(t) && CurrentPeriodWindow(period, t).Some? && forall i | 0 <= i < |events| :: IsDateTime(events[i].at)
    ensures CurrentSpend(events, scope, CurrentPeriodWindow(period, t).value)
         == SpendIn(events, scope, period, PeriodIndex(period, t.date))
  {
    if events != [] {
      var n := |events| - 1;
      SpendInIsCurrentSpend(events[..n], scope, period, t);
      WindowIsThePeriod(period, t, events[n].at);
    }
  }

  lemma {:induction false} NoSpendAhead(events: seq<SpendEvent>, scope: Scope, period: Period, now: DateTime,
                                        index: int)
    requires IsDateTime(now) && PeriodIndex(period, now.date) < index
    requires forall i | 0 <= i < |events| :: IsDateTime(events[i].at) && Instant(events[i].at) <= Instant(now)
    ensures SpendIn(events, scope, period, index) == 0
  {
    if events != [] {
      var n := |events| - 1;
      NoSpendAhead(events[..n], scope, period, now, index);
      PeriodsFollowTime(period, events[n].at, now);
    }
  }
}

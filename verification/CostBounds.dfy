/** Runs that meet the overshoot bound, and runs under which there is none. */
module CostBounds {
  import opened Common
  import opened Calendar
  import opened Budgets
  import opened CostLedger
  import opened CostProtocol
  import opened CostOvershoot
  import Tally

  /** One budget, and callers that it matches and that cost the same each. */
  datatype Scene = Scene(id: string, budget: CostBudget, cost: nat)

  predicate IsScene(x: Scene) {
    HasId(x.budget, x.id) && IsValid(x.budget) && x.cost <= x.budget.amountCents
  }

  /** Labels that a budget matches. */
  function Labels(b: CostBudget, cost: int): (a: Attribution)
    ensures IsValid(b) ==> Matches(b, a)
    ensures a.projected == a.actual == cost
  {
    var tenant, value := b.scope.tenantId, Some(b.scope.value);
    match b.scope.scopeType
    case Tenant => Attribution(tenant, cost, cost, None, None, None)
    case Project => Attribution(tenant, cost, cost, None, value, None)
    case Agent => Attribution(tenant, cost, cost, value, None, None)
    case ApiKey => Attribution(tenant, cost, cost, None, None, value)
  }

  function Caller(x: Scene, phase: Phase): Request {
    Request(Labels(x.budget, x.cost), [x.budget], phase)
  }

  function At(x: Scene, now: DateTime, events: seq<SpendEvent>, phases: seq<Phase>): State {
    State(now, map[x.id := x.budget], events, seq(|phases|, i requires 0 <= i < |phases| => Caller(x, phases[i])))
  }

  const NEW: Phase := Reading(0, None, map[])

  function Opened(window: Window): Phase { Reading(0, Some(window), map[]) }

  function HasRead(x: Scene, spend: int): Phase { Reading(1, None, map[x.id := spend]) }

  function Spent(x: Scene, now: DateTime): SpendEvent { EventOf(Labels(x.budget, x.cost), now) }

  // ----- single steps ------------------------------------------------------------------

  lemma {:induction false} Begins(x: Scene, now: DateTime, events: seq<SpendEvent>, phases: seq<Phase>)
    requires IsScene(x)
    ensures Apply(At(x, now, events, phases), Begin(Labels(x.budget, x.cost), [x.budget]))
         == At(x, now, events, phases + [NEW])
  {
    var budgets := map[x.id := x.budget];
    assert x.id in budgets && budgets[x.id] == x.budget;
    assert IsMatchList(budgets, Labels(x.budget, x.cost), [x.budget]);
  }

  lemma {:induction false} Opens(x: Scene, now: DateTime, events: seq<SpendEvent>, phases: seq<Phase>, r: nat)
    requires IsDateTime(now) && CurrentPeriodWindow(x.budget.period, now).Some? && r < |phases| && phases[r] == NEW
    ensures Apply(At(x, now, events, phases), OpenWindow(r))
         == At(x, now, events, phases[r := Opened(CurrentPeriodWindow(x.budget.period, now).value)])
  {
  }

  lemma {:induction false} Reads(x: Scene, now: DateTime, w: Window, events: seq<SpendEvent>, phases: seq<Phase>, r: nat)
    requires IsScene(x) && r < |phases| && phases[r] == Opened(w)
    ensures var spend := CurrentSpend(events, x.budget.scope, w);
            Apply(At(x, now, events, phases), ReadSpend(r)) == At(x, now, events, phases[r := HasRead(x, spend)])
  {
    assert Key(x.budget) == x.id;
  }

  lemma {:induction false} VerdictOfOne(x: Scene, spend: int)
    requires IsScene(x) && spend + x.cost <= x.budget.amountCents
    ensures Verdict(Caller(x, HasRead(x, spend))) == Allowed
  {
    var b, seen := x.budget, map[x.id := spend];
    assert Key(b) == x.id;
    assert Ordered([b]) == [b];
    var none := [b][1..];
    assert none == [] && Walk(none, seen, x.cost) == Budgets.Decided(Allow(None, 0, false));
    assert EvaluateBudget(b, SpendOf(b, seen), x.cost).decision.Allow?;
  }

  lemma {:induction false} Decides(x: Scene, now: DateTime, events: seq<SpendEvent>, phases: seq<Phase>, r: nat, spend: int)
    requires IsScene(x) && r < |phases| && phases[r] == HasRead(x, spend) && spend + x.cost <= x.budget.amountCents
    ensures Apply(At(x, now, events, phases), Decide(r)) == At(x, now, events, phases[r := Allowed])
  {
    VerdictOfOne(x, spend);
  }

  lemma {:induction false} Records(x: Scene, now: DateTime, events: seq<SpendEvent>, phases: seq<Phase>, r: nat)
    requires r < |phases| && phases[r] == Allowed
    ensures Apply(At(x, now, events, phases), Record(r, x.cost))
         == At(x, now, events + [Spent(x, now)], phases[r := Done])
  {
  }

  lemma {:induction false} SpendsIn(x: Scene, now: DateTime, events: seq<SpendEvent>, w: Window)
    requires IsScene(x)
    ensures CurrentSpend(events + [Spent(x, now)], x.budget.scope, w)
         == CurrentSpend(events, x.budget.scope, w) + if Within(w, now) then x.cost else 0
  {
    CheckedWhereCounted(x.budget, Labels(x.budget, x.cost), now);
    assert (events + [Spent(x, now)])[..|events|] == events;
  }

  lemma {:induction false} Prepend(s: State, step: Step, rest: seq<Step>, id: string, load: Load)
    requires WithinLoad(s, id, load) && AlwaysWithinLoad(Apply(s, step), rest, id, load)
    ensures AlwaysWithinLoad(s, [step] + rest, id, load) && Run(s, [step] + rest) == Run(Apply(s, step), rest)
  {
    assert ([step] + rest)[1..] == rest;
  }

  // ----- loads -------------------------------------------------------------------------

  predicate Waits(phase: Phase) {
    phase.Done? || (phase.Reading? && phase.next == 0)
  }

  /** Counted from the read, callers other than `r` do not weigh on the load before their own. */
  predicate OneReader(phases: seq<Phase>, r: nat, load: Load) {
    && load.counting.FromRead? && 1 <= load.requests
    && forall i | 0 <= i < |phases| && i != r :: Waits(phases[i])
  }

  lemma {:induction false} FitsLoad(x: Scene, now: DateTime, events: seq<SpendEvent>, phases: seq<Phase>, r: nat, load: Load)
    requires IsScene(x) && x.cost <= load.cents && (|phases| <= load.requests || OneReader(phases, r, load))
    ensures WithinLoad(At(x, now, events, phases), x.id, load)
  {
    if |phases| > load.requests {
      Tally.OneFlagged(InFlight(At(x, now, events, phases).requests, x.id, load.counting), r);
    }
  }

  // ----- callers that open a window ----------------------------------------------------

  function Row(w: Window, n: nat): seq<Phase> {
    seq(n, _ => Opened(w))
  }

  lemma {:induction false} OpenOne(x: Scene, now: DateTime, w: Window, events: seq<SpendEvent>, m: nat, rest: seq<Step>,
                                   load: Load) returns (steps: seq<Step>)
    requires IsScene(x) && x.cost <= load.cents && 1 <= load.requests && (m < load.requests || load.counting.FromRead?)
    requires IsDateTime(now) && CurrentPeriodWindow(x.budget.period, now) == Some(w)
    requires AlwaysWithinLoad(At(x, now, events, Row(w, m + 1)), rest, x.id, load)
    ensures AlwaysWithinLoad(At(x, now, events, Row(w, m)), steps, x.id, load)
    ensures Run(At(x, now, events, Row(w, m)), steps) == Run(At(x, now, events, Row(w, m + 1)), rest)
  {
    var row := Row(w, m);
    assert (row + [NEW])[m := Opened(w)] == Row(w, m + 1);
    FitsLoad(x, now, events, row, 0, load);
    FitsLoad(x, now, events, row + [NEW], 0, load);
    Opens(x, now, events, row + [NEW], m);
    Prepend(At(x, now, events, row + [NEW]), OpenWindow(m), rest, x.id, load);
    Begins(x, now, events, row);
    var begin := Begin(Labels(x.budget, x.cost), [x.budget]);
    Prepend(At(x, now, events, row), begin, [OpenWindow(m)] + rest, x.id, load);
    steps := [begin] + ([OpenWindow(m)] + rest);
  }

  lemma {:induction false} OpenAll(x: Scene, now: DateTime, w: Window, events: seq<SpendEvent>, m: nat, n: nat,
                                   rest: seq<Step>, load: Load) returns (steps: seq<Step>)
    requires IsScene(x) && x.cost <= load.cents && 1 <= load.requests && (n <= load.requests || load.counting.FromRead?)
    requires IsDateTime(now) && CurrentPeriodWindow(x.budget.period, now) == Some(w) && m <= n
    requires AlwaysWithinLoad(At(x, now, events, Row(w, n)), rest, x.id, load)
    ensures AlwaysWithinLoad(At(x, now, events, Row(w, m)), steps, x.id, load)
    ensures Run(At(x, now, events, Row(w, m)), steps) == Run(At(x, now, events, Row(w, n)), rest)
    decreases n - m
  {
    steps := rest;
    if m < n {
      steps := OpenAll(x, now, w, events, m + 1, n, rest, load);
      steps := OpenOne(x, now, w, events, m, steps, load);
    }
  }

  /** The callers before `r` are in one phase and the others in another. */
  predicate Split(phases: seq<Phase>, r: nat, before: Phase, after: Phase) {
    && r <= |phases|
    && (forall i | 0 <= i < r :: phases[i] == before)
    && (forall i | r <= i < |phases| :: phases[i] == after)
  }

  lemma {:induction false} SplitNext(phases: seq<Phase>, r: nat, before: Phase, after: Phase)
    requires Split(phases, r, before, after) && r < |phases|
    ensures Split(phases[r := before], r + 1, before, after)
  {
  }

  /** A run within the load that ends with the same budget and so much spend in a window. */
  ghost predicate Spends(s: State, steps: seq<Step>, x: Scene, load: Load, v: Window, spend: int) {
    && AlwaysWithinLoad(s, steps, x.id, load)
    && LeavesSpend(Run(s, steps), x, v, spend)
  }

  predicate LeavesSpend(s: State, x: Scene, v: Window, spend: int) {
    s.budgets == map[x.id := x.budget] && CurrentSpend(s.events, x.budget.scope, v) == spend
  }

  // ----- the bound is met --------------------------------------------------------------

  lemma {:induction false} SettleOne(x: Scene, now: DateTime, events: seq<SpendEvent>, phases: seq<Phase>, r: nat,
                                     spend: int, rest: seq<Step>, load: Load) returns (steps: seq<Step>)
    requires IsScene(x) && x.cost <= load.cents && |phases| <= load.requests
    requires r < |phases| && phases[r] == HasRead(x, spend) && spend + x.cost <= x.budget.amountCents
    requires AlwaysWithinLoad(At(x, now, events + [Spent(x, now)], phases[r := Done]), rest, x.id, load)
    ensures AlwaysWithinLoad(At(x, now, events, phases), steps, x.id, load)
    ensures Run(At(x, now, events, phases), steps) == Run(At(x, now, events + [Spent(x, now)], phases[r := Done]), rest)
  {
    var allowed := phases[r := Allowed];
    assert allowed[r := Done] == phases[r := Done];
    FitsLoad(x, now, events, phases, r, load);
    FitsLoad(x, now, events, allowed, r, load);
    Records(x, now, events, allowed, r);
    Prepend(At(x, now, events, allowed), Record(r, x.cost), rest, x.id, load);
    Decides(x, now, events, phases, r, spend);
    Prepend(At(x, now, events, phases), Decide(r), [Record(r, x.cost)] + rest, x.id, load);
    steps := [Decide(r)] + ([Record(r, x.cost)] + rest);
  }

  /** Callers that have all read the same spend decide and record one after the other. */
  lemma {:induction false} SettleAll(x: Scene, now: DateTime, events: seq<SpendEvent>, phases: seq<Phase>, r: nat,
                                     spend: int, v: Window, load: Load) returns (steps: seq<Step>)
    requires IsScene(x) && x.cost <= load.cents && |phases| <= load.requests
    requires Split(phases, r, Done, HasRead(x, spend)) && spend + x.cost <= x.budget.amountCents && Within(v, now)
    ensures Spends(At(x, now, events, phases), steps, x, load, v,
                   CurrentSpend(events, x.budget.scope, v) + Tally.Times(|phases| - r, x.cost))
    decreases |phases| - r
  {
    FitsLoad(x, now, events, phases, r, load);
    steps := [];
    if r < |phases| {
      SplitNext(phases, r, Done, HasRead(x, spend));
      SpendsIn(x, now, events, v);
      steps := SettleAll(x, now, events + [Spent(x, now)], phases[r := Done], r + 1, spend, v, load);
      steps := SettleOne(x, now, events, phases, r, spend, steps, load);
    }
  }

  lemma {:induction false} ReadOne(x: Scene, now: DateTime, w: Window, events: seq<SpendEvent>, phases: seq<Phase>, r: nat,
                                   rest: seq<Step>, load: Load) returns (steps: seq<Step>)
    requires IsScene(x) && x.cost <= load.cents && |phases| <= load.requests && r < |phases| && phases[r] == Opened(w)
    requires var read := phases[r := HasRead(x, CurrentSpend(events, x.budget.scope, w))];
             AlwaysWithinLoad(At(x, now, events, read), rest, x.id, load)
    ensures AlwaysWithinLoad(At(x, now, events, phases), steps, x.id, load)
    ensures var read := phases[r := HasRead(x, CurrentSpend(events, x.budget.scope, w))];
            Run(At(x, now, events, phases), steps) == Run(At(x, now, events, read), rest)
  {
    Reads(x, now, w, events, phases, r);
    FitsLoad(x, now, events, phases, r, load);
    Prepend(At(x, now, events, phases), ReadSpend(r), rest, x.id, load);
    steps := [ReadSpend(r)] + rest;
  }

  /** Before that they read it one after the other. */
  lemma {:induction false} ReadAll(x: Scene, now: DateTime, w: Window, events: seq<SpendEvent>, phases: seq<Phase>, r: nat,
                                   load: Load) returns (steps: seq<Step>)
    requires IsScene(x) && x.cost <= load.cents && |phases| <= load.requests && Within(w, now)
    requires Split(phases, r, HasRead(x, CurrentSpend(events, x.budget.scope, w)), Opened(w))
    requires CurrentSpend(events, x.budget.scope, w) + x.cost <= x.budget.amountCents
    ensures Spends(At(x, now, events, phases), steps, x, load, w,
                   CurrentSpend(events, x.budget.scope, w) + Tally.Times(|phases|, x.cost))
    decreases |phases| - r
  {
    var spend := CurrentSpend(events, x.budget.scope, w);
    if r == |phases| {
      steps := SettleAll(x, now, events, phases, 0, spend, w, load);
    } else {
      SplitNext(phases, r, HasRead(x, spend), Opened(w));
      steps := ReadAll(x, now, w, events, phases[r := HasRead(x, spend)], r + 1, load);
      steps := ReadOne(x, now, w, events, phases, r, steps, load);
    }
  }

  /** All of the amount but one call spent already. */
  function Before(x: Scene, now: DateTime): SpendEvent
    requires IsScene(x)
  {
    EventOf(Labels(x.budget, x.budget.amountCents - x.cost), now)
  }

  lemma {:induction false} NearlySpent(x: Scene, now: DateTime, w: Window)
    requires IsScene(x) && IsDateTime(now) && CurrentPeriodWindow(x.budget.period, now) == Some(w)
    ensures IsStart(At(x, now, [Before(x, now)], []), x.id) && Within(w, now)
    ensures CurrentSpend([Before(x, now)], x.budget.scope, w) == x.budget.amountCents - x.cost
  {
    var e := Before(x, now);
    assert [e][..0] == [];
    WindowIsThePeriod(x.budget.period, now, now);
    CheckedWhereCounted(x.budget, Labels(x.budget, x.budget.amountCents - x.cost), now);
  }

  lemma {:induction false} AllButOne(load: Load, b: CostBudget)
    requires 1 <= load.requests
    ensures Tally.Times(load.requests, Cap(load, b)) == Cap(load, b) + Overshoot(load, b)
  {
    OvershootIsTimes(load, b);
  }

  /** The bound is met by every budget under every load, however requests are counted: with one call
      left, as many as the load allows read before any of them records. */
  lemma {:induction false} BoundIsMet(id: string, b: CostBudget, now: DateTime, load: Load)
      returns (s: State, steps: seq<Step>)
    requires HasId(b, id) && IsValid(b) && 1 <= load.requests
    requires IsDateTime(now) && CurrentPeriodWindow(b.period, now).Some?
    ensures IsStart(s, id) && AlwaysWithinLoad(s, steps, id, load) && Run(s, steps).budgets == map[id := b]
    ensures CurrentSpend(Run(s, steps).events, b.scope, CurrentPeriodWindow(b.period, now).value)
         == b.amountCents + Overshoot(load, b)
  {
    var x, w := Scene(id, b, Cap(load, b)), CurrentPeriodWindow(b.period, now).value;
    NearlySpent(x, now, w);
    steps := Race(x, now, w, [Before(x, now)], load);
    s := At(x, now, [Before(x, now)], []);
    AllButOne(load, b);
  }

  lemma {:induction false} Race(x: Scene, now: DateTime, w: Window, events: seq<SpendEvent>, load: Load)
      returns (steps: seq<Step>)
    requires IsScene(x) && x.cost <= load.cents && 1 <= load.requests && Within(w, now)
    requires IsDateTime(now) && CurrentPeriodWindow(x.budget.period, now) == Some(w)
    requires CurrentSpend(events, x.budget.scope, w) + x.cost <= x.budget.amountCents
    ensures Spends(At(x, now, events, []), steps, x, load, w,
                   CurrentSpend(events, x.budget.scope, w) + Tally.Times(load.requests, x.cost))
  {
    steps := ReadAll(x, now, w, events, Row(w, load.requests), 0, load);
    steps := OpenAll(x, now, w, events, 0, load.requests, steps, load);
    assert Row(w, 0) == [];
  }

  // ----- counting from the read --------------------------------------------------------

  /** Callers whose window is over read the spend it had and record in the present one. */
  lemma {:induction false} LateReaders(x: Scene, now: DateTime, w: Window, events: seq<SpendEvent>, phases: seq<Phase>,
                                       r: nat, v: Window, load: Load) returns (steps: seq<Step>)
    requires IsScene(x) && x.cost <= load.cents && load.counting.FromRead? && 1 <= load.requests
    requires Split(phases, r, Done, Opened(w)) && !Within(w, now) && Within(v, now)
    requires CurrentSpend(events, x.budget.scope, w) == 0
    ensures Spends(At(x, now, events, phases), steps, x, load, v,
                   CurrentSpend(events, x.budget.scope, v) + Tally.Times(|phases| - r, x.cost))
    decreases |phases| - r
  {
    FitsLoad(x, now, events, phases, r, load);
    steps := [];
    if r < |phases| {
      SplitNext(phases, r, Done, Opened(w));
      SpendsIn(x, now, events, v);
      SpendsIn(x, now, events, w);
      steps := LateReaders(x, now, w, events + [Spent(x, now)], phases[r := Done], r + 1, v, load);
      steps := LateReader(x, now, w, events, phases, r, steps, load);
    }
  }

  lemma {:induction false} LateReader(x: Scene, now: DateTime, w: Window, events: seq<SpendEvent>, phases: seq<Phase>,
                                      r: nat, rest: seq<Step>, load: Load) returns (steps: seq<Step>)
    requires IsScene(x) && x.cost <= load.cents && r < |phases| && phases[r] == Opened(w) && OneReader(phases, r, load)
    requires CurrentSpend(events, x.budget.scope, w) == 0
    requires AlwaysWithinLoad(At(x, now, events + [Spent(x, now)], phases[r := Done]), rest, x.id, load)
    ensures AlwaysWithinLoad(At(x, now, events, phases), steps, x.id, load)
    ensures Run(At(x, now, events, phases), steps) == Run(At(x, now, events + [Spent(x, now)], phases[r := Done]), rest)
  {
    var read := phases[r := HasRead(x, 0)];
    var allowed := read[r := Allowed];
    assert allowed[r := Done] == phases[r := Done];
    FitsLoad(x, now, events, phases, r, load);
    FitsLoad(x, now, events, read, r, load);
    FitsLoad(x, now, events, allowed, r, load);
    Records(x, now, events, allowed, r);
    Prepend(At(x, now, events, allowed), Record(r, x.cost), rest, x.id, load);
    Decides(x, now, events, read, r, 0);
    Prepend(At(x, now, events, read), Decide(r), [Record(r, x.cost)] + rest, x.id, load);
    Reads(x, now, w, events, phases, r);
    Prepend(At(x, now, events, phases), ReadSpend(r), [Decide(r)] + ([Record(r, x.cost)] + rest), x.id, load);
    steps := [ReadSpend(r)] + ([Decide(r)] + ([Record(r, x.cost)] + rest));
  }

  /** A moment with a window after which there is another. */
  predicate Rolls(period: Period, now: DateTime) {
    && IsDateTime(now) && CurrentPeriodWindow(period, now).Some?
    && IsDateTime(CurrentPeriodWindow(period, now).value.end)
    && CurrentPeriodWindow(period, CurrentPeriodWindow(period, now).value.end).Some?
  }

  /** Were a request in flight only from its read on, there would be no bound at all: whatever the
      budget, one request at a time of a single cent takes its spend to any number across the turn
      of a period. */
  lemma {:induction false} CountingFromTheReadBoundsNothing(id: string, b: CostBudget, now: DateTime, load: Load, n: nat)
      returns (s: State, steps: seq<Step>, t: DateTime)
    requires HasId(b, id) && IsValid(b) && load.counting.FromRead? && 1 <= load.requests && 1 <= load.cents
    requires Rolls(b.period, now)
    ensures IsStart(s, id) && AlwaysWithinLoad(s, steps, id, load) && Run(s, steps).budgets == map[id := b]
    ensures s.budgets == map[id := b] && IsDateTime(t) && CurrentPeriodWindow(b.period, t).Some?
    ensures CurrentSpend(Run(s, steps).events, b.scope, CurrentPeriodWindow(b.period, t).value) == n
  {
    var x, w := Scene(id, b, 1), CurrentPeriodWindow(b.period, now).value;
    s, t := At(x, now, [], []), w.end;
    WindowsTile(b.period, t, t);
    steps := LateRun(x, now, w, CurrentPeriodWindow(b.period, t).value, n, load);
    Tally.TimesIsProduct(n, 1);
  }

  /** Callers open a window, it ends, and all of them read it then. */
  lemma {:induction false} LateRun(x: Scene, now: DateTime, w: Window, next: Window, n: nat, load: Load)
      returns (steps: seq<Step>)
    requires IsScene(x) && x.cost <= load.cents && load.counting.FromRead? && 1 <= load.requests
    requires IsDateTime(now) && CurrentPeriodWindow(x.budget.period, now) == Some(w)
    requires IsDateTime(w.end) && Within(next, w.end)
    ensures Spends(At(x, now, [], []), steps, x, load, next, Tally.Times(n, x.cost))
  {
    var late := LateReaders(x, w.end, w, [], Row(w, n), 0, next, load);
    FitsLoad(x, now, [], Row(w, n), 0, load);
    Turns(x, now, w, n);
    Prepend(At(x, now, [], Row(w, n)), Tick(w.end), late, x.id, load);
    steps := OpenAll(x, now, w, [], 0, n, [Tick(w.end)] + late, load);
    assert Row(w, 0) == [];
  }

  lemma {:induction false} Turns(x: Scene, now: DateTime, w: Window, n: nat)
    requires IsDateTime(now) && CurrentPeriodWindow(x.budget.period, now) == Some(w) && IsDateTime(w.end)
    ensures Apply(At(x, now, [], Row(w, n)), Tick(w.end)) == At(x, w.end, [], Row(w, n))
  {
    WindowsTile(x.budget.period, now, now);
  }

  // ----- when the bound holds ----------------------------------------------------------

  /** The bound, for a budget over every run from every start that stays within a load. */
  ghost predicate AlwaysBounded(id: string, b: CostBudget, load: Load)
    requires 1 <= load.requests
  {
    forall s, steps, t | IsStart(s, id) && s.budgets[id] == b && AlwaysWithinLoad(s, steps, id, load) ::
      WithinBound(Run(s, steps), id, load, t)
  }

  lemma {:induction false} FirstIndex(period: Period, first: Date, last: Date)
    requires first == Date(1, 1, 1) && IsLastDay(last)
    ensures PeriodIndex(period, first) + 1 < PeriodIndex(period, last)
  {
    LastOrdinal(last);
    NextDayIsNext(last);
  }

  lemma {:induction false} NextWindowExists(period: Period, now: DateTime, last: Date)
    requires IsDateTime(now) && IsLastDay(last) && PeriodIndex(period, now.date) + 1 < PeriodIndex(period, last)
    ensures Rolls(period, now)
  {
    WindowExistsUnlessLast(period, now, last);
    WindowsAreAdjacent(period, now);
    WindowExistsUnlessLast(period, CurrentPeriodWindow(period, now).value.end, last);
  }

  lemma {:induction false} SomeRunPasses(id: string, b: CostBudget, load: Load)
      returns (s: State, steps: seq<Step>, t: DateTime)
    requires HasId(b, id) && IsValid(b) && load.counting.FromRead? && 1 <= load.requests && 1 <= load.cents
    ensures IsStart(s, id) && s.budgets[id] == b && AlwaysWithinLoad(s, steps, id, load)
    ensures !WithinBound(Run(s, steps), id, load, t)
  {
    var first, last := DateTime(Date(1, 1, 1), 0), Date(MAX_YEAR, 12, 31);
    FirstIndex(b.period, first.date, last);
    NextWindowExists(b.period, first, last);
    var n: nat := b.amountCents + Overshoot(load, b) + 1;
    s, steps, t := CountingFromTheReadBoundsNothing(id, b, first, load, n);
  }

  /** So the bound holds if and only if requests are counted from working out the window, or they
      project nothing. */
  lemma {:induction false} BoundedWhen(id: string, b: CostBudget, load: Load)
    requires HasId(b, id) && IsValid(b) && 1 <= load.requests
    ensures AlwaysBounded(id, b, load) <==> load.counting.FromWindow? || load.cents == 0
  {
    if load.counting.FromWindow? || load.cents == 0 {
      forall s, steps, t | IsStart(s, id) && s.budgets[id] == b && AlwaysWithinLoad(s, steps, id, load)
        ensures WithinBound(Run(s, steps), id, load, t)
      {
        OvershootIsBounded(s, steps, id, load, t);
      }
    } else {
      var s, steps, t := SomeRunPasses(id, b, load);
    }
  }
}

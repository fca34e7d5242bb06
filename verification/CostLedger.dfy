/** The cost tables and the service over them, one caller at a time. */
module CostLedger {
  import opened Common
  import opened Calendar
  import opened Budgets
  import opened PyText
  import TopUps

  /** Labels of a request, before (`projected`) and after (`actual`) it runs. */
  datatype Attribution = Attribution(
    tenantId: string,
    projected: int,
    actual: int,
    actorId: Option<string>,
    projectId: Option<string>,
    apiKeyId: Option<string>)

  /** A row of `cost_spend_events`. */
  datatype SpendEvent = SpendEvent(
    at: DateTime,
    cost: nat,
    tenantId: string,
    actorId: Option<string>,
    projectId: Option<string>,
    apiKeyId: Option<string>)

  function Label(a: Attribution, s: ScopeType): Option<string> {
    match s
    case Tenant => Some(a.tenantId)
    case Project => a.projectId
    case Agent => a.actorId
    case ApiKey => a.apiKeyId
  }

  /** `matching_scope_values`: labels that are missing or empty match no budget. */
  function ScopeValue(a: Attribution, s: ScopeType): Option<string> {
    if s.Tenant? || (Label(a, s).Some? && Label(a, s).value != "") then Label(a, s) else None
  }

  /** The filter of `_matching_budgets`. */
  predicate Matches(b: CostBudget, a: Attribution) {
    b.scope.tenantId == a.tenantId && ScopeValue(a, b.scope.scopeType) == Some(b.scope.value)
  }

  function Column(e: SpendEvent, s: ScopeType): Option<string> {
    match s
    case Tenant => Some(e.tenantId)
    case Project => e.projectId
    case Agent => e.actorId
    case ApiKey => e.apiKeyId
  }

  /** The filter of `_current_spend`, but for the window. */
  predicate Counts(scope: Scope, e: SpendEvent) {
    e.tenantId == scope.tenantId && Column(e, scope.scopeType) == Some(scope.value)
  }

  /** A budget, valid or not, is looked up by one label; an empty label but the tenant's finds none. */
  lemma {:induction false} MatchesWhen(b: CostBudget, a: Attribution)
    ensures Matches(b, a) <==>
            && b.scope.tenantId == a.tenantId
            && match b.scope.scopeType
               case ApiKey => a.apiKeyId == Some(b.scope.value) && |b.scope.value| > 0
               case Agent => a.actorId == Some(b.scope.value) && |b.scope.value| > 0
               case Project => a.projectId == Some(b.scope.value) && |b.scope.value| > 0
               case Tenant => b.scope.value == a.tenantId
  {
    match b.scope.scopeType { case Tenant => case Project => case Agent => case ApiKey => }
  }

  function EventOf(a: Attribution, at: DateTime): SpendEvent
    requires 0 <= a.actual
  {
    SpendEvent(at, a.actual, a.tenantId, a.actorId, a.projectId, a.apiKeyId)
  }

  /** A request is checked against exactly the budgets its spend will be counted towards. */
  lemma {:induction false} CheckedWhereCounted(b: CostBudget, a: Attribution, at: DateTime)
    requires IsValid(b) && 0 <= a.actual
    ensures Matches(b, a) <==> Counts(b.scope, EventOf(a, at))
    ensures Counts(b.scope, EventOf(a, at)) <==>
            && b.scope.tenantId == a.tenantId
            && Some(b.scope.value) ==
               match b.scope.scopeType
               case ApiKey => a.apiKeyId case Agent => a.actorId case Project => a.projectId case Tenant => Some(a.tenantId)
  {
    match b.scope.scopeType { case Tenant => case Project => case Agent => case ApiKey => }
  }

  // ----- sums --------------------------------------------------------------------------

  function CurrentSpend(events: seq<SpendEvent>, scope: Scope, window: Window): nat {
    if events == [] then 0 else
    var e := events[|events| - 1];
    CurrentSpend(events[..|events| - 1], scope, window) + if Counts(scope, e) && Within(window, e.at) then e.cost else 0
  }

  /** Spend of a tenant's events that carry no label of a kind. */
  function Unattributed(events: seq<SpendEvent>, tenantId: string, s: ScopeType, window: Window): nat {
    if events == [] then 0 else
    var e := events[|events| - 1];
    Unattributed(events[..|events| - 1], tenantId, s, window)
      + if e.tenantId == tenantId && Column(e, s).None? && Within(window, e.at) then e.cost else 0
  }

  function SumOver(events: seq<SpendEvent>, tenantId: string, s: ScopeType, values: seq<string>, window: Window): nat {
    if values == [] then 0 else
    CurrentSpend(events, Scope(tenantId, s, values[0]), window) + SumOver(events, tenantId, s, values[1..], window)
  }

  ghost predicate AreDistinct(values: seq<string>) {
    forall i, j | 0 <= i < j < |values| :: values[i] != values[j]
  }

  lemma {:induction false} SumOverNone(tenantId: string, s: ScopeType, values: seq<string>, window: Window)
    ensures SumOver([], tenantId, s, values, window) == 0
  {
    if values != [] { SumOverNone(tenantId, s, values[1..], window); }
  }

  /** One more event adds its cost to one of the sums at most. */
  lemma {:induction false} SumOverAppend(events: seq<SpendEvent>, e: SpendEvent, tenantId: string, s: ScopeType,
                                         values: seq<string>, window: Window)
    requires AreDistinct(values)
    ensures SumOver(events + [e], tenantId, s, values, window) == SumOver(events, tenantId, s, values, window)
              + if e.tenantId == tenantId && Within(window, e.at) && Column(e, s).Some? && Column(e, s).value in values
                then e.cost else 0
  {
    if values != [] {
      assert (events + [e])[..|events|] == events;
      assert forall v :: v in values <==> v == values[0] || v in values[1..];
      SumOverAppend(events, e, tenantId, s, values[1..], window);
    }
  }

  /** Money is neither lost nor counted twice: over any window a tenant's spend is the sum over
      its projects (agents, API keys) plus what carries no such label. */
  lemma {:induction false} SpendIsConserved(events: seq<SpendEvent>, tenantId: string, s: ScopeType, values: seq<string>,
                                            window: Window)
    requires AreDistinct(values)
    requires forall e | e in events && e.tenantId == tenantId && Column(e, s).Some? :: Column(e, s).value in values
    ensures CurrentSpend(events, Scope(tenantId, Tenant, tenantId), window)
         == SumOver(events, tenantId, s, values, window) + Unattributed(events, tenantId, s, window)
  {
    if events == [] {
      SumOverNone(tenantId, s, values, window);
    } else {
      var n := |events| - 1;
      SpendIsConserved(events[..n], tenantId, s, values, window);
      SumOverAppend(events[..n], events[n], tenantId, s, values, window);
      assert events == events[..n] + [events[n]];
    }
  }

  lemma {:induction false} NarrowerSpendsNoMore(events: seq<SpendEvent>, scope: Scope, window: Window)
    ensures CurrentSpend(events, scope, window) <= CurrentSpend(events, Scope(scope.tenantId, Tenant, scope.tenantId), window)
  {
    if events != [] { NarrowerSpendsNoMore(events[..|events| - 1], scope, window); }
  }

  lemma {:induction false} WiderWindowSpendsNoLess(events: seq<SpendEvent>, scope: Scope, inner: Window, outer: Window)
    requires forall e | e in events && Within(inner, e.at) :: Within(outer, e.at)
    ensures CurrentSpend(events, scope, inner) <= CurrentSpend(events, scope, outer)
  {
    if events != [] {
      assert events[|events| - 1] in events;
      WiderWindowSpendsNoLess(events[..|events| - 1], scope, inner, outer);
    }
  }

  /** At any moment the spend of the day is at most that of the week and of the month. */
  lemma {:induction false} DailySpendIsTheLeast(events: seq<SpendEvent>, scope: Scope, now: DateTime, longer: Period)
    requires IsDateTime(now) && forall e | e in events :: IsDateTime(e.at)
    requires CurrentPeriodWindow(Daily, now).Some? && CurrentPeriodWindow(longer, now).Some?
    ensures CurrentSpend(events, scope, CurrentPeriodWindow(Daily, now).value)
         <= CurrentSpend(events, scope, CurrentPeriodWindow(longer, now).value)
  {
    var inner, outer := CurrentPeriodWindow(Daily, now).value, CurrentPeriodWindow(longer, now).value;
    forall e | e in events && Within(inner, e.at) ensures Within(outer, e.at) {
      DaysNestInWeeksAndMonths(now, e.at, longer);
    }
    WiderWindowSpendsNoLess(events, scope, inner, outer);
  }

  // ----- the service -------------------------------------------------------------------

  function MatchingBudgets(budgets: seq<CostBudget>, a: Attribution): (matching: seq<CostBudget>)
    ensures forall b :: b in matching <==> b in budgets && Matches(b, a)
  {
    if budgets == [] then [] else
    var rest := MatchingBudgets(budgets[1..], a);
    if Matches(budgets[0], a) then [budgets[0]] + rest else rest
  }

  /** Spend of each budget in its own window; none if a window runs past the calendar. */
  function SpendByBudget(budgets: seq<CostBudget>, events: seq<SpendEvent>, now: DateTime): Option<Spend>
    requires IsDateTime(now)
  {
    if budgets == [] then Some(map[]) else
    var b := budgets[|budgets| - 1];
    match SpendByBudget(budgets[..|budgets| - 1], events, now)
    case None => None
    case Some(spend) =>
      match CurrentPeriodWindow(b.period, now)
      case None => None
      case Some(window) => Some(spend[Key(b) := CurrentSpend(events, b.scope, window)])
  }

  /** A row of `cost_enforcement_events`: what was decided on which request. */
  datatype EnforcementRow = EnforcementRow(decision: Decision, request: Attribution)

  /** What a check on the budgets that match comes to. */
  function CheckOutcome(matching: seq<CostBudget>, events: seq<SpendEvent>, a: Attribution, now: DateTime): Outcome
    requires IsDateTime(now)
  {
    if matching == [] then Decided(Allow(None, 0, false)) else
    match SpendByBudget(matching, events, now)
    case None => Raised
    case Some(spend) => if a.projected < 0 then Raised else Walk(Ordered(matching), spend, a.projected)
  }

  /** The row a top-up names; the number of rows if there is none. */
  function RowOf(budgets: seq<CostBudget>, t: TopUps.TopUp): (k: nat)
    ensures k <= |budgets|
    ensures k < |budgets| ==> TopUps.IsTarget(budgets[k], t)
    ensures k == |budgets| ==> forall b | b in budgets :: !TopUps.IsTarget(b, t)
  {
    if budgets == [] || TopUps.IsTarget(budgets[0], t) then 0 else RowOf(budgets[1..], t) + 1
  }

  class CostControlService {
    var budgets: seq<CostBudget>               // active rows of cost_budgets
    var events: seq<SpendEvent>                // cost_spend_events, in insertion order
    var enforcements: seq<EnforcementRow>      // cost_enforcement_events, in insertion order
    var adjustments: seq<TopUps.Adjustment>    // cost_budget_adjustments, in insertion order

    constructor (budgets: seq<CostBudget>)
      ensures this.budgets == budgets && events == [] && enforcements == [] && adjustments == []
    {
      this.budgets, events, enforcements, adjustments := budgets, [], [], [];
    }

    /** `check_budget`, all its reads at one moment: what it decides on the budgets that match is
        recorded, and a decision that cannot be recorded raises. */
    method CheckBudget(a: Attribution, now: DateTime) returns (outcome: Outcome)
      requires IsDateTime(now)
      modifies this`enforcements
      ensures outcome == CheckOutcome(Ordered(MatchingBudgets(budgets, a)), events, a, now)
      ensures enforcements == if outcome.Decided? && MatchingBudgets(budgets, a) != []
                              then old(enforcements) + [EnforcementRow(outcome.decision, a)] else old(enforcements)
    {
      var matching := Ordered(MatchingBudgets(budgets, a));
      OrderedIsOrdered(MatchingBudgets(budgets, a));
      if matching == [] {
        return Decided(Allow(None, 0, false));
      }
      var spend: Spend := map[];
      for i := 0 to |matching|
        invariant SpendByBudget(matching[..i], events, now) == Some(spend)
        invariant enforcements == old(enforcements)
      {
        var b := matching[i];
        SpendByOneMore(matching, i, events, now);
        var window := CurrentPeriodWindow(b.period, now);
        if window.None? {
          NoSpendBeyond(matching, i + 1, events, now);
          return Raised;
        }
        spend := spend[Key(b) := CurrentSpend(events, b.scope, window.value)];
      }
      assert matching[..|matching|] == matching;
      outcome := EvaluateBudgetSet(matching, spend, a.projected);
      if outcome.Decided? {
        outcome := RecordEnforcement(outcome.decision, a);
      }
    }

    /** `record_enforcement`; the table refuses a negative projection. */
    method RecordEnforcement(d: Decision, a: Attribution) returns (outcome: Outcome)
      modifies this`enforcements
      ensures outcome == if a.projected < 0 then Raised else Decided(d)
      ensures enforcements == if a.projected < 0 then old(enforcements)
                              else old(enforcements) + [EnforcementRow(d, a)]
    {
      if a.projected < 0 {
        return Raised;
      }
      enforcements := enforcements + [EnforcementRow(d, a)];
      return Decided(d);
    }

    /** `record_spend`; a negative cost is refused. */
    method RecordSpend(a: Attribution, now: DateTime) returns (recorded: bool)
      modifies this`events
      ensures recorded <==> 0 <= a.actual
      ensures events == if 0 <= a.actual then old(events) + [EventOf(a, now)] else old(events)
      ensures forall scope, window ::
                CurrentSpend(events, scope, window) == CurrentSpend(old(events), scope, window)
                  + if 0 <= a.actual && Counts(scope, EventOf(a, now)) && Within(window, now) then a.actual else 0
    {
      if a.actual < 0 {
        return false;
      }
      events := events + [EventOf(a, now)];
      assert events[..|events| - 1] == old(events);
      return true;
    }

    /** `top_up_tenant_budget` for a caller that meets no other: refused without a trace, or the
        amount raised and an adjustment recorded that goes from the old amount to the new. */
    method TopUpTenantBudget(t: TopUps.TopUp) returns (refusal: Option<TopUps.Refusal>)
      modifies this`budgets, this`adjustments
      ensures TopUps.Invalid(t).Some? ==> refusal == TopUps.Invalid(t)
      ensures TopUps.Invalid(t).None? ==>
                (refusal == Some(TopUps.BudgetNotFound) <==>
                 forall b | b in old(budgets) :: b.budgetId != Some(t.budgetId) || b.scope.tenantId != t.tenantId)
      ensures TopUps.Invalid(t).None? && refusal != Some(TopUps.BudgetNotFound) ==>
                var i := RowOf(old(budgets), t);
                && i < |old(budgets)|
                && old(budgets)[i].budgetId == Some(t.budgetId) && old(budgets)[i].scope.tenantId == t.tenantId
                && refusal == if old(budgets)[i].scope.scopeType.Tenant? then None else Some(TopUps.NotTenantScope)
      ensures refusal.Some? ==> budgets == old(budgets) && adjustments == old(adjustments)
      ensures refusal.None? ==>
                var i := RowOf(old(budgets), t);
                && i < |old(budgets)| && 0 < t.amountCents
                && var before := old(budgets)[i].amountCents;
                   var after := before + t.amountCents;
                   && budgets == old(budgets)[i := old(budgets)[i].(amountCents := after)]
                   && adjustments == old(adjustments)
                                     + [TopUps.Adjustment(t.budgetId, t.amountCents, before, after, Strip(t.reason))]
    {
      refusal := TopUps.Invalid(t);
      if refusal.Some? {
        return;
      }
      var i := RowOf(budgets, t);
      if i == |budgets| {
        return Some(TopUps.BudgetNotFound);
      }
      if !budgets[i].scope.scopeType.Tenant? {
        return Some(TopUps.NotTenantScope);
      }
      var adjustment := TopUps.AdjustmentOf(t, budgets[i].amountCents);
      budgets := budgets[i := budgets[i].(amountCents := adjustment.resulting)];
      adjustments := adjustments + [adjustment];
      return None;
    }
  }

  lemma {:induction false} SpendByOneMore(budgets: seq<CostBudget>, i: nat, events: seq<SpendEvent>, now: DateTime)
    requires IsDateTime(now) && i < |budgets|
    ensures SpendByBudget(budgets[..i + 1], events, now) ==
            match SpendByBudget(budgets[..i], events, now)
            case None => None
            case Some(spend) =>
              match CurrentPeriodWindow(budgets[i].period, now)
              case None => None
              case Some(window) => Some(spend[Key(budgets[i]) := CurrentSpend(events, budgets[i].scope, window)])
  {
    assert budgets[..i + 1][..i] == budgets[..i];
  }

  lemma {:induction false} NoSpendBeyond(budgets: seq<CostBudget>, k: nat, events: seq<SpendEvent>, now: DateTime)
    requires IsDateTime(now) && k <= |budgets| && SpendByBudget(budgets[..k], events, now).None?
    ensures SpendByBudget(budgets, events, now).None?
  {
    if k < |budgets| {
      var n := |budgets| - 1;
      assert budgets[..n][..k] == budgets[..k];
      NoSpendBeyond(budgets[..n], k, events, now);
    } else {
      assert budgets[..k] == budgets;
    }
  }

  // ----- what a check decides ----------------------------------------------------------

  ghost predicate DistinctKeys(budgets: seq<CostBudget>) {
    forall i, j | 0 <= i < j < |budgets| :: Key(budgets[i]) != Key(budgets[j])
  }

  /** Each budget is held against the spend of its own scope in its own window. */
  lemma {:induction false} EachItsOwnSpend(budgets: seq<CostBudget>, events: seq<SpendEvent>, now: DateTime, i: nat)
    requires IsDateTime(now) && DistinctKeys(budgets) && i < |budgets| && SpendByBudget(budgets, events, now).Some?
    ensures CurrentPeriodWindow(budgets[i].period, now).Some?
    ensures SpendOf(budgets[i], SpendByBudget(budgets, events, now).value)
         == CurrentSpend(events, budgets[i].scope, CurrentPeriodWindow(budgets[i].period, now).value)
  {
    var n := |budgets| - 1;
    var last := budgets[n];
    if i < n {
      EachItsOwnSpend(budgets[..n], events, now, i);
      assert Key(budgets[i]) != Key(last);
    }
  }

  /** A budget stands in the way of a request. */
  predicate StandsInTheWay(b: CostBudget, a: Attribution, events: seq<SpendEvent>, now: DateTime)
    requires IsDateTime(now)
  {
    Matches(b, a) && CurrentPeriodWindow(b.period, now).Some? &&
    CurrentSpend(events, b.scope, CurrentPeriodWindow(b.period, now).value) + a.projected > b.amountCents
  }

  /** `check_budget` denies a request if and only if it projects no negative cost and some budget that
      matches it would pass its amount: recorded spend of the budget's scope in its current window plus
      the projection. */
  lemma {:induction false} CheckDeniesWhen(budgets: seq<CostBudget>, matching: seq<CostBudget>, a: Attribution,
                                           events: seq<SpendEvent>, now: DateTime)
    requires IsDateTime(now) && AllValid(budgets) && DistinctKeys(matching)
    requires matching == Ordered(MatchingBudgets(budgets, a)) && SpendByBudget(matching, events, now).Some?
    ensures var outcome := CheckOutcome(matching, events, a, now);
            outcome.Decided? && outcome.decision.Deny? <==>
            0 <= a.projected && exists b :: b in budgets && StandsInTheWay(b, a, events, now)
  {
    var spend := SpendByBudget(matching, events, now).value;
    OrderedContents(MatchingBudgets(budgets, a));
    DenialNamesTheFirstExceeded(matching, spend, a.projected);
    forall b | b in matching ensures Exceeded(b, spend, a.projected) <==> StandsInTheWay(b, a, events, now) {
      var i :| 0 <= i < |matching| && matching[i] == b;
      EachItsOwnSpend(matching, events, now, i);
    }
  }
}

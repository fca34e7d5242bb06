/** Cost budgets and the decision a set of them takes on a request. */
module Budgets {
  import opened Common
  import opened Calendar

  datatype ScopeType = Tenant | Project | Agent | ApiKey

  datatype Enforcement = Block | RequireApproval | Throttle

  /** Whose spend a budget counts. */
  datatype Scope = Scope(tenantId: string, scopeType: ScopeType, value: string)

  datatype CostBudget = CostBudget(
    budgetId: Option<string>,
    scope: Scope,
    amountCents: int,
    period: Period,
    enforcement: Enforcement,
    warningPercent: int)

  function Priority(b: CostBudget): (priority: int) {
    match b.scope.scopeType case ApiKey => 4 case Agent => 3 case Project => 2 case Tenant => 1
  }

  /** `validate_budget`, for the conditions the types leave open. */
  predicate IsValid(b: CostBudget) {
    && 0 < b.amountCents
    && 1 <= b.warningPercent <= 100
    && b.scope.value != ""
    && (b.scope.scopeType.Tenant? ==> b.scope.value == b.scope.tenantId)
  }

  function ScopeName(s: ScopeType): string {
    match s case ApiKey => "api_key" case Agent => "agent" case Project => "project" case Tenant => "tenant"
  }

  /** `budget_id`, or the scope when there is none. */
  function Key(b: CostBudget): string {
    match b.budgetId
    case Some(id) => if id != "" then id else ScopeName(b.scope.scopeType) + ":" + b.scope.value
    case None => ScopeName(b.scope.scopeType) + ":" + b.scope.value
  }

  /** A colon ends every scope name, so keys made of scopes tell scopes apart. */
  lemma {:induction false} ScopeKeysInjective(b: CostBudget, c: CostBudget)
    requires b.budgetId.None? && c.budgetId.None? && Key(b) == Key(c)
    ensures b.scope.scopeType == c.scope.scopeType && b.scope.value == c.scope.value
  {
    var m, n := ScopeName(b.scope.scopeType), ScopeName(c.scope.scopeType);
    assert Key(b)[|m|] == ':' && Key(c)[|n|] == ':';
    assert m == Key(b)[..|m|] && n == Key(c)[..|n|];
    assert b.scope.value == Key(b)[|m| + 1..] && c.scope.value == Key(c)[|n| + 1..];
  }

  type Spend = map<string, int>

  function SpendOf(b: CostBudget, spend: Spend): int {
    if Key(b) in spend then spend[Key(b)] else 0
  }

  /** The decision on a request.  `budget` is what decided; no budget means none matched. */
  datatype Decision =
    | Allow(budget: Option<CostBudget>, currentSpend: int, warning: bool)
    | Deny(denier: CostBudget, spent: int)

  /** An invalid budget raises instead of deciding. */
  datatype Outcome = Raised | Decided(decision: Decision)

  function WarningAt(b: CostBudget): int {
    b.amountCents * b.warningPercent / 100
  }

  predicate Exceeded(b: CostBudget, spend: Spend, projected: int) {
    SpendOf(b, spend) + projected > b.amountCents
  }

  function EvaluateBudget(b: CostBudget, currentSpend: int, projected: int): Outcome {
    if !IsValid(b) then Raised
    else if currentSpend + projected > b.amountCents then Decided(Deny(b, currentSpend))
    else Decided(Allow(Some(b), currentSpend, currentSpend + projected >= WarningAt(b)))
  }

  // ----- most specific first -----------------------------------------------------------

  /** Places a budget before the first one that is no more specific. */
  function Insert(b: CostBudget, ordered: seq<CostBudget>): seq<CostBudget> {
    if ordered == [] || Priority(b) >= Priority(ordered[0]) then [b] + ordered
    else [ordered[0]] + Insert(b, ordered[1..])
  }

  /** A stable sort by falling priority, as `sorted(..., reverse=True)` is. */
  function Ordered(budgets: seq<CostBudget>): seq<CostBudget> {
    if budgets == [] then [] else Insert(budgets[0], Ordered(budgets[1..]))
  }

  /** What walking the budgets in order decides: the first that raises or denies, or else what
      the very first said. */
  function Walk(ordered: seq<CostBudget>, spend: Spend, projected: int): Outcome {
    if ordered == [] then Decided(Allow(None, 0, false)) else
    var first := EvaluateBudget(ordered[0], SpendOf(ordered[0], spend), projected);
    if first.Raised? || first.decision.Deny? then first else
    var rest := Walk(ordered[1..], spend, projected);
    if rest.Raised? || rest.decision.Deny? then rest else first
  }

  method EvaluateBudgetSet(budgets: seq<CostBudget>, spend: Spend, projected: int) returns (outcome: Outcome)
    ensures outcome == Walk(Ordered(budgets), spend, projected)
  {
    if budgets == [] {
      return Decided(Allow(None, 0, false));
    }
    var ordered := Ordered(budgets);
    var firstDecision: Option<Decision> := None;
    for i := 0 to |ordered|
      invariant firstDecision.None? <==> i == 0
      invariant firstDecision.Some? ==>
                  && firstDecision.value.Allow?
                  && EvaluateBudget(ordered[0], SpendOf(ordered[0], spend), projected) == Decided(firstDecision.value)
      invariant Walk(ordered, spend, projected) ==
                  var rest := Walk(ordered[i..], spend, projected);
                  if firstDecision.None? || rest.Raised? || rest.decision.Deny? then rest else Decided(firstDecision.value)
    {
      var result := EvaluateBudget(ordered[i], SpendOf(ordered[i], spend), projected);
      assert ordered[i..][1..] == ordered[i + 1..];
      if result.Raised? {
        return result;
      }
      if firstDecision.None? {
        firstDecision := Some(result.decision);
      }
      if result.decision.Deny? {
        return result;
      }
    }
    assert ordered[|ordered|..] == [];
    outcome := match firstDecision case Some(d) => Decided(d) case None => Decided(Allow(None, 0, false));
  }

  /** Whether a budget stops the walk. */
  predicate Stops(b: CostBudget, spend: Spend, projected: int) {
    !IsValid(b) || Exceeded(b, spend, projected)
  }

  function FirstStop(ordered: seq<CostBudget>, spend: Spend, projected: int): Option<CostBudget> {
    if ordered == [] then None
    else if Stops(ordered[0], spend, projected) then Some(ordered[0])
    else FirstStop(ordered[1..], spend, projected)
  }

  lemma {:induction false} WalkIsFirstStop(ordered: seq<CostBudget>, spend: Spend, projected: int)
    ensures match FirstStop(ordered, spend, projected)
            case Some(b) => Stops(b, spend, projected)
                         && Walk(ordered, spend, projected) == EvaluateBudget(b, SpendOf(b, spend), projected)
            case None => Walk(ordered, spend, projected) ==
                         if ordered == [] then Decided(Allow(None, 0, false))
                         else EvaluateBudget(ordered[0], SpendOf(ordered[0], spend), projected)
  {
    if ordered != [] { WalkIsFirstStop(ordered[1..], spend, projected); }
  }

  predicate IsOrdered(ordered: seq<CostBudget>) {
    |ordered| < 2 || (Priority(ordered[0]) >= Priority(ordered[1]) && IsOrdered(ordered[1..]))
  }

  lemma {:induction false} InsertOrders(b: CostBudget, ordered: seq<CostBudget>)
    requires IsOrdered(ordered)
    ensures IsOrdered(Insert(b, ordered))
    ensures Insert(b, ordered) != []
    ensures Insert(b, ordered)[0] == if ordered == [] || Priority(b) >= Priority(ordered[0]) then b else ordered[0]
  {
    if ordered != [] && Priority(b) < Priority(ordered[0]) {
      InsertOrders(b, ordered[1..]);
      assert Insert(b, ordered)[1..] == Insert(b, ordered[1..]);
    } else {
      assert ([b] + ordered)[1..] == ordered;
    }
  }

  lemma {:induction false} OrderedIsOrdered(budgets: seq<CostBudget>)
    ensures IsOrdered(Ordered(budgets)) && (Ordered(budgets) == [] <==> budgets == [])
  {
    if budgets != [] {
      OrderedIsOrdered(budgets[1..]);
      InsertOrders(budgets[0], Ordered(budgets[1..]));
    }
  }

  lemma {:induction false} LaterIsNoMoreSpecific(ordered: seq<CostBudget>, spend: Spend, projected: int)
    requires IsOrdered(ordered) && ordered != []
    ensures match FirstStop(ordered, spend, projected)
            case None => true case Some(b) => Priority(b) <= Priority(ordered[0])
  {
    if |ordered| > 1 { LaterIsNoMoreSpecific(ordered[1..], spend, projected); }
  }

  lemma {:induction false} InsertFirstStop(b: CostBudget, ordered: seq<CostBudget>, spend: Spend, projected: int)
    requires IsOrdered(ordered)
    ensures FirstStop(Insert(b, ordered), spend, projected) ==
            match FirstStop(ordered, spend, projected)
            case None => if Stops(b, spend, projected) then Some(b) else None
            case Some(c) => if Stops(b, spend, projected) && Priority(b) >= Priority(c) then Some(b) else Some(c)
  {
    if ordered == [] || Priority(b) >= Priority(ordered[0]) {
      assert ([b] + ordered)[1..] == ordered;
      if ordered != [] { LaterIsNoMoreSpecific(ordered, spend, projected); }
    } else {
      var inserted := Insert(b, ordered);
      assert inserted[1..] == Insert(b, ordered[1..]);
      InsertFirstStop(b, ordered[1..], spend, projected);
    }
  }

  /** An API key is narrower than an agent, an agent than a project, a project than a tenant. */
  predicate Narrower(s: ScopeType, t: ScopeType) {
    match s
    case ApiKey => t.Agent? || t.Project? || t.Tenant?
    case Agent => t.Project? || t.Tenant?
    case Project => t.Tenant?
    case Tenant => false
  }

  /** Position `i` decides over position `j`: of a narrower scope, or of the same and listed earlier. */
  predicate Precedes(budgets: seq<CostBudget>, i: nat, j: nat)
    requires i < |budgets| && j < |budgets|
  {
    var s, t := budgets[i].scope.scopeType, budgets[j].scope.scopeType;
    Narrower(s, t) || (s == t && i <= j)
  }

  lemma {:induction false} NarrowerIsHigher(b: CostBudget, c: CostBudget)
    ensures Narrower(b.scope.scopeType, c.scope.scopeType) <==> Priority(b) > Priority(c)
    ensures b.scope.scopeType == c.scope.scopeType <==> Priority(b) == Priority(c)
  {
  }

  /** Position `i` is the first to stop the walk, most specific first, ties in list order. */
  ghost predicate Decides(budgets: seq<CostBudget>, spend: Spend, projected: int, i: nat) {
    && i < |budgets| && Stops(budgets[i], spend, projected)
    && forall j | 0 <= j < |budgets| && Stops(budgets[j], spend, projected) :: Precedes(budgets, i, j)
  }

  lemma {:induction false} FirstStopDecides(budgets: seq<CostBudget>, spend: Spend, projected: int)
    ensures match FirstStop(Ordered(budgets), spend, projected)
            case None => forall j | 0 <= j < |budgets| :: !Stops(budgets[j], spend, projected)
            case Some(b) => exists i: nat :: Decides(budgets, spend, projected, i) && budgets[i] == b
  {
    if budgets != [] {
      var rest := budgets[1..];
      FirstStopDecides(rest, spend, projected);
      OrderedIsOrdered(rest);
      InsertFirstStop(budgets[0], Ordered(rest), spend, projected);
      match FirstStop(Ordered(rest), spend, projected) {
        case None =>
          assert Stops(budgets[0], spend, projected) ==> Decides(budgets, spend, projected, 0);
        case Some(b) =>
          var i: nat :| Decides(rest, spend, projected, i) && rest[i] == b;
      }
    }
  }

  /** Position `i` has the narrowest scope of all, ties in list order. */
  ghost predicate IsFirst(budgets: seq<CostBudget>, i: nat) {
    i < |budgets| && forall j | 0 <= j < |budgets| :: Precedes(budgets, i, j)
  }

  lemma {:induction false} OrderedFirst(budgets: seq<CostBudget>)
    requires budgets != []
    ensures Ordered(budgets) != [] && exists i: nat :: IsFirst(budgets, i) && budgets[i] == Ordered(budgets)[0]
  {
    var rest := Ordered(budgets[1..]);
    OrderedIsOrdered(budgets[1..]);
    InsertOrders(budgets[0], rest);
    if rest == [] {
      assert IsFirst(budgets, 0);
    } else {
      OrderedFirst(budgets[1..]);
      var i: nat :| IsFirst(budgets[1..], i) && budgets[1..][i] == rest[0];
      FirstBehind(budgets, i);
    }
  }

  lemma {:induction false} FirstBehind(budgets: seq<CostBudget>, i: nat)
    requires budgets != [] && IsFirst(budgets[1..], i)
    ensures IsFirst(budgets, if Priority(budgets[0]) >= Priority(budgets[1..][i]) then 0 else i + 1)
  {
    var first := if Priority(budgets[0]) >= Priority(budgets[1..][i]) then 0 else i + 1;
    forall j | 0 <= j < |budgets| ensures Precedes(budgets, first, j) {
      NarrowerIsHigher(budgets[0], budgets[j]);
      NarrowerIsHigher(budgets[i + 1], budgets[j]);
      if j > 0 { assert Precedes(budgets[1..], i, j - 1); }
    }
  }

  // ----- the verdict -------------------------------------------------------------------

  ghost predicate AllValid(budgets: seq<CostBudget>) {
    forall b | b in budgets :: IsValid(b)
  }

  predicate Denied(budgets: seq<CostBudget>, spend: Spend, projected: int) {
    var outcome := Walk(Ordered(budgets), spend, projected);
    outcome.Decided? && outcome.decision.Deny?
  }

  /** A set of valid budgets denies if and only if one of them would be exceeded, and the one it
      names is the first exceeded in most-specific-first order, ties in list order. */
  lemma {:induction false} DenialNamesTheFirstExceeded(budgets: seq<CostBudget>, spend: Spend, projected: int)
    requires AllValid(budgets)
    ensures Walk(Ordered(budgets), spend, projected).Decided?
    ensures Denied(budgets, spend, projected) <==> exists b :: b in budgets && Exceeded(b, spend, projected)
    ensures Denied(budgets, spend, projected) ==>
              exists i: nat :: Decides(budgets, spend, projected, i)
                && Walk(Ordered(budgets), spend, projected) == Decided(Deny(budgets[i], SpendOf(budgets[i], spend)))
  {
    FirstStopDecides(budgets, spend, projected);
    WalkIsFirstStop(Ordered(budgets), spend, projected);
    var stop := FirstStop(Ordered(budgets), spend, projected);
    if stop.Some? {
      var i: nat :| Decides(budgets, spend, projected, i) && budgets[i] == stop.value;
    } else {
      NothingExceeded(budgets, spend, projected);
    }
  }

  /** What `validate_budget` objects to. */
  predicate HasBadField(b: CostBudget) {
    || b.amountCents < 1 || b.warningPercent < 1 || 100 < b.warningPercent || |b.scope.value| == 0
    || (b.scope.scopeType.Tenant? && b.scope.value != b.scope.tenantId)
  }

  /** A set raises if and only if the first budget to stop it, narrowest scope first, ties in list
      order, has a bad field; one behind a budget that denies goes unnoticed. */
  lemma {:induction false} RaisesWhen(budgets: seq<CostBudget>, spend: Spend, projected: int)
    ensures Walk(Ordered(budgets), spend, projected).Raised? <==>
            exists i: nat :: i < |budgets| && HasBadField(budgets[i])
              && forall j: nat | j < |budgets| && (HasBadField(budgets[j]) || Exceeded(budgets[j], spend, projected)) ::
                   Precedes(budgets, i, j)
  {
    FirstStopDecides(budgets, spend, projected);
    WalkIsFirstStop(Ordered(budgets), spend, projected);
    OrderedIsOrdered(budgets);
    OrderedContents(budgets);
    assert forall b :: Stops(b, spend, projected) <==> HasBadField(b) || Exceeded(b, spend, projected);
    match FirstStop(Ordered(budgets), spend, projected) {
      case None =>
        assert budgets != [] ==> Ordered(budgets)[0] in Ordered(budgets);
      case Some(b) =>
        var k: nat :| Decides(budgets, spend, projected, k) && budgets[k] == b;
        forall i: nat | i < |budgets| && Precedes(budgets, i, k) && Precedes(budgets, k, i) ensures i == k {
          NarrowerIsHigher(budgets[i], budgets[k]);
          NarrowerIsHigher(budgets[k], budgets[i]);
        }
    }
  }

  /** It warns when spend and projection are less than a cent below the warning percentage of the amount. */
  function AllowanceOf(b: CostBudget, spend: Spend, projected: int): Outcome {
    var spent := SpendOf(b, spend);
    Decided(Allow(Some(b), spent, b.amountCents * b.warningPercent < 100 * (spent + projected + 1)))
  }

  /** An allowed request gets the decision of the narrowest budget, ties in list order. */
  lemma {:induction false} AllowanceComesFromTheNarrowest(budgets: seq<CostBudget>, spend: Spend, projected: int)
    requires AllValid(budgets) && !Denied(budgets, spend, projected)
    ensures budgets == [] ==> Walk(Ordered(budgets), spend, projected) == Decided(Allow(None, 0, false))
    ensures budgets != [] ==> exists i: nat :: IsFirst(budgets, i)
                                && Walk(Ordered(budgets), spend, projected) == AllowanceOf(budgets[i], spend, projected)
  {
    StopDenies(budgets, spend, projected);
    WalkIsFirstStop(Ordered(budgets), spend, projected);
    if budgets != [] {
      OrderedFirst(budgets);
      var i: nat :| IsFirst(budgets, i) && budgets[i] == Ordered(budgets)[0];
      var b := budgets[i];
      assert b in budgets && !Stops(b, spend, projected);
    }
  }

  lemma {:induction false} StopDenies(budgets: seq<CostBudget>, spend: Spend, projected: int)
    requires AllValid(budgets)
    ensures var stop := FirstStop(Ordered(budgets), spend, projected);
            if stop.Some? then Denied(budgets, spend, projected) else forall b | b in budgets :: !Stops(b, spend, projected)
  {
    FirstStopDecides(budgets, spend, projected);
    WalkIsFirstStop(Ordered(budgets), spend, projected);
    var stop := FirstStop(Ordered(budgets), spend, projected);
    if stop.Some? {
      var k: nat :| Decides(budgets, spend, projected, k) && budgets[k] == stop.value;
    }
  }

  lemma {:induction false} NothingExceeded(budgets: seq<CostBudget>, spend: Spend, projected: int)
    requires AllValid(budgets) && forall j | 0 <= j < |budgets| :: !Stops(budgets[j], spend, projected)
    ensures forall b | b in budgets :: !Exceeded(b, spend, projected)
    ensures budgets != [] ==> Ordered(budgets) != []
    ensures budgets != [] ==> IsValid(Ordered(budgets)[0]) && !Exceeded(Ordered(budgets)[0], spend, projected)
    ensures budgets == [] ==> Ordered(budgets) == []
  {
    forall b | b in budgets ensures !Exceeded(b, spend, projected) {
      var j :| 0 <= j < |budgets| && budgets[j] == b;
      assert !Stops(budgets[j], spend, projected);
    }
    OrderedIsOrdered(budgets);
    OrderedContents(budgets);
    if budgets != [] { assert Ordered(budgets)[0] in Ordered(budgets); }
  }

  lemma {:induction false} InsertContents(b: CostBudget, ordered: seq<CostBudget>)
    ensures multiset(Insert(b, ordered)) == multiset{b} + multiset(ordered)
  {
    if !(ordered == [] || Priority(b) >= Priority(ordered[0])) {
      InsertContents(b, ordered[1..]);
      assert ordered == [ordered[0]] + ordered[1..];
    }
  }

  /** Ordering rearranges the budgets and neither drops nor repeats one. */
  lemma {:induction false} OrderedContents(budgets: seq<CostBudget>)
    ensures multiset(Ordered(budgets)) == multiset(budgets)
    ensures forall b :: b in Ordered(budgets) <==> b in budgets
  {
    if budgets != [] {
      OrderedContents(budgets[1..]);
      InsertContents(budgets[0], Ordered(budgets[1..]));
      assert budgets == [budgets[0]] + budgets[1..];
    }
    forall b ensures b in Ordered(budgets) <==> b in budgets {
      assert b in multiset(Ordered(budgets)) <==> b in multiset(budgets);
    }
  }

  /** The verdict does not depend on the order budgets are listed in; a higher projected cost
      or further budgets can only turn it into a denial. */
  lemma {:induction false} VerdictIsMonotone(budgets: seq<CostBudget>, others: seq<CostBudget>, spend: Spend,
                                             projected: int, more: int)
    requires AllValid(budgets) && AllValid(others) && projected <= more
    requires forall b | b in budgets :: b in others
    ensures Denied(budgets, spend, projected) ==> Denied(others, spend, more)
    ensures multiset(budgets) == multiset(others) ==> Denied(budgets, spend, projected) == Denied(others, spend, projected)
  {
    DenialNamesTheFirstExceeded(budgets, spend, projected);
    DenialNamesTheFirstExceeded(others, spend, more);
    DenialNamesTheFirstExceeded(others, spend, projected);
    if multiset(budgets) == multiset(others) {
      forall b ensures b in budgets <==> b in others {
        assert b in multiset(budgets) <==> b in multiset(others);
      }
    }
  }

  /** Raising the amount of a budget can only turn a denial into a pass. */
  lemma {:induction false} RaisingAnAmountLoosens(budgets: seq<CostBudget>, i: nat, amount: int, spend: Spend,
                                                  projected: int)
    requires AllValid(budgets) && i < |budgets| && budgets[i].amountCents <= amount
    ensures var raised := budgets[i := budgets[i].(amountCents := amount)];
            Denied(raised, spend, projected) ==> Denied(budgets, spend, projected)
  {
    var raised := budgets[i := budgets[i].(amountCents := amount)];
    assert AllValid(raised) by {
      forall b | b in raised ensures IsValid(b) {
        assert b == raised[i] || b in budgets;
        assert budgets[i] in budgets;
      }
    }
    DenialNamesTheFirstExceeded(budgets, spend, projected);
    DenialNamesTheFirstExceeded(raised, spend, projected);
    if b :| b in raised && Exceeded(b, spend, projected) {
      if b == raised[i] {
        assert budgets[i] in budgets && Exceeded(budgets[i], spend, projected);
      }
    }
  }
}

/** Budget top-ups: who may make them, what they record, and what happens when several
    transactions top the same budgets up at once. */
module TopUps {
  import opened Common
  import opened Budgets
  import opened PyText

  datatype TopUp = TopUp(budgetId: string, tenantId: string, amountCents: int, reason: string, actorRole: string)

  /** A row of `cost_budget_adjustments`. */
  datatype Adjustment = Adjustment(budgetId: string, amount: int, previous: int, resulting: int, reason: string)

  datatype Refusal = AmountNotPositive | ReasonMissing | ReasonTooLong | RoleNotAllowed | BudgetNotFound | NotTenantScope

  const MAX_REASON: nat := 1000

  /** `validate_top_up`. */
  function Invalid(t: TopUp): Option<Refusal> {
    if t.amountCents <= 0 then Some(AmountNotPositive)
    else if Strip(t.reason) == "" then Some(ReasonMissing)
    else if |Strip(t.reason)| > MAX_REASON then Some(ReasonTooLong)
    else if !LowersTo(t.actorRole, "executive") then Some(RoleNotAllowed)
    else None
  }

  /** White space but for a stretch of at most `n` characters. */
  ghost predicate FitsWithin(s: string, n: nat) {
    exists i: nat, j: nat :: i <= j <= |s| && j - i <= n && SpaceBetween(s, 0, i) && SpaceBetween(s, j, |s|)
  }

  lemma {:induction false} FitsWhenStripped(s: string, n: nat)
    ensures FitsWithin(s, n) <==> |Strip(s)| <= n
  {
    var i, j := StripIs(s);
    assert |Strip(s)| <= n ==> FitsWithin(s, n);
    if FitsWithin(s, n) {
      var a: nat, b: nat :| a <= b <= |s| && b - a <= n && SpaceBetween(s, 0, a) && SpaceBetween(s, b, |s|);
      if i < j {
        assert Strip(s)[0] == s[i] && Strip(s)[j - 1 - i] == s[j - 1];
        assert a <= i && j <= b;
      }
    }
  }

  /** Each refusal and its exact condition; what is left is accepted. */
  lemma {:induction false} RefusedWhen(t: TopUp)
    ensures Invalid(t) ==
            if t.amountCents < 1 then Some(AmountNotPositive)
            else if AllSpace(t.reason) then Some(ReasonMissing)
            else if !FitsWithin(t.reason, 1000) then Some(ReasonTooLong)
            else if !IsExecutive(t.actorRole) then Some(RoleNotAllowed)
            else None
  {
    StripsToNothing(t.reason);
    FitsWhenStripped(t.reason, 1000);
  }

  /** The role in any mixture of capitals and small letters. */
  predicate IsExecutive(role: string) {
    |role| == 9 && forall i | 0 <= i < 9 :: role[i] == "executive"[i] || role[i] == "EXECUTIVE"[i]
  }

  predicate IsTarget(b: CostBudget, t: TopUp) {
    b.budgetId == Some(t.budgetId) && b.scope.tenantId == t.tenantId
  }

  function AdjustmentOf(t: TopUp, previous: int): Adjustment {
    Adjustment(t.budgetId, t.amountCents, previous, previous + t.amountCents, Strip(t.reason))
  }

  // ----- histories ---------------------------------------------------------------------

  function Of(adjustments: seq<Adjustment>, id: string): seq<Adjustment> {
    if adjustments == [] then [] else
    var last := adjustments[|adjustments| - 1];
    Of(adjustments[..|adjustments| - 1], id) + if last.budgetId == id then [last] else []
  }

  function Total(adjustments: seq<Adjustment>): int {
    if adjustments == [] then 0 else
    Total(adjustments[..|adjustments| - 1]) + adjustments[|adjustments| - 1].amount
  }

  /** Each adjustment takes over the amount the one before it left. */
  ghost predicate IsHistory(first: int, adjustments: seq<Adjustment>, last: int) {
    && (forall i | 0 <= i < |adjustments| :: adjustments[i].resulting == adjustments[i].previous + adjustments[i].amount)
    && (forall i, j | 0 <= i < j < |adjustments| && j == i + 1 :: adjustments[j].previous == adjustments[i].resulting)
    && (if adjustments == [] then first == last
        else adjustments[0].previous == first && adjustments[|adjustments| - 1].resulting == last)
  }

  /** In a history nothing is lost: the last amount is the first plus all adjustments. */
  lemma {:induction false} HistoryAddsUp(first: int, adjustments: seq<Adjustment>, last: int)
    requires IsHistory(first, adjustments, last)
    ensures last == first + Total(adjustments)
  {
    if adjustments != [] {
      var n := |adjustments| - 1;
      var before := if n == 0 then first else adjustments[n - 1].resulting;
      assert n > 0 ==> adjustments[n].previous == adjustments[n - 1].resulting;
      assert IsHistory(first, adjustments[..n], before);
      HistoryAddsUp(first, adjustments[..n], before);
    }
  }

  lemma {:induction false} HistoryGrows(first: int, adjustments: seq<Adjustment>, last: int, t: TopUp)
    requires IsHistory(first, adjustments, last)
    ensures IsHistory(first, adjustments + [AdjustmentOf(t, last)], last + t.amountCents)
  {
  }

  // ----- transactions ------------------------------------------------------------------

  datatype Phase =
    | Waiting
    | Locked(previous: int)
    | Updated(adjustment: Adjustment)
    | Finished

  datatype Txn = Txn(topUp: TopUp, phase: Phase)

  /** Committed rows, row locks by budget, and transactions.  What a transaction has written
      is not in the tables until it commits. */
  datatype State = State(
    budgets: map<string, CostBudget>,
    adjustments: seq<Adjustment>,
    holders: map<string, nat>,
    txns: seq<Txn>)

  datatype Step =
    | Begin(topUp: TopUp)
    | SelectForUpdate(t: nat)
    | Update(t: nat)
    | Commit(t: nat)
    | Abort(t: nat)

  function Move(s: State, t: nat, phase: Phase): State
    requires t < |s.txns|
  {
    s.(txns := s.txns[t := s.txns[t].(phase := phase)])
  }

  predicate Holds(txn: Txn) {
    txn.phase.Locked? || txn.phase.Updated?
  }

  /** The row is read once its lock is held; a budget that is missing, another tenant's or not of
      tenant scope ends the transaction. */
  function Selected(s: State, t: nat): State
    requires t < |s.txns|
  {
    var topUp := s.txns[t].topUp;
    if topUp.budgetId !in s.budgets || !IsTarget(s.budgets[topUp.budgetId], topUp)
       || !s.budgets[topUp.budgetId].scope.scopeType.Tenant? then Move(s, t, Finished) else
    Move(s, t, Locked(s.budgets[topUp.budgetId].amountCents)).(holders := s.holders[topUp.budgetId := t])
  }

  function Committed(s: State, t: nat): State
    requires t < |s.txns| && s.txns[t].phase.Updated? && s.txns[t].topUp.budgetId in s.budgets
  {
    var id, adjustment := s.txns[t].topUp.budgetId, s.txns[t].phase.adjustment;
    State(
      s.budgets[id := s.budgets[id].(amountCents := adjustment.resulting)],
      s.adjustments + [adjustment],
      s.holders - {id},
      Move(s, t, Finished).txns)
  }

  function Aborted(s: State, t: nat): State
    requires t < |s.txns|
  {
    Move(s, t, Finished).(holders := if Holds(s.txns[t]) then s.holders - {s.txns[t].topUp.budgetId} else s.holders)
  }

  /** A step that cannot be taken changes nothing; for a select that means waiting for the lock. */
  function Apply(s: State, step: Step): State {
    match step
    case Begin(topUp) =>
      if Invalid(topUp).None? then s.(txns := s.txns + [Txn(topUp, Waiting)]) else s
    case SelectForUpdate(t) =>
      if t < |s.txns| && s.txns[t].phase.Waiting? && s.txns[t].topUp.budgetId !in s.holders then Selected(s, t) else s
    case Update(t) =>
      if t < |s.txns| && s.txns[t].phase.Locked?
      then Move(s, t, Updated(AdjustmentOf(s.txns[t].topUp, s.txns[t].phase.previous))) else s
    case Commit(t) =>
      if t < |s.txns| && s.txns[t].phase.Updated? && s.txns[t].topUp.budgetId in s.budgets then Committed(s, t) else s
    case Abort(t) =>
      if t < |s.txns| then Aborted(s, t) else s
  }

  function Run(s: State, steps: seq<Step>): State
    decreases |steps|
  {
    if steps == [] then s else Run(Apply(s, steps[0]), steps[1..])
  }

  /** The steps of the transaction that begins as number `r`. */
  function Transaction(topUp: TopUp, r: nat): seq<Step> {
    [Begin(topUp), SelectForUpdate(r), Update(r), Commit(r)]
  }

  lemma {:induction false} RunFour(s: State, a: Step, b: Step, c: Step, d: Step)
    ensures Run(s, [a, b, c, d]) == Apply(Apply(Apply(Apply(s, a), b), c), d)
  {
    assert [a, b, c, d][1..] == [b, c, d] && [b, c, d][1..] == [c, d] && [c, d][1..] == [d] && [d][1..] == [];
    var afterThree := Apply(Apply(Apply(s, a), b), c);
    assert Run(afterThree, [d]) == Run(Apply(afterThree, d), []);
    assert Run(Apply(Apply(s, a), b), [c, d]) == Run(afterThree, [d]);
  }

  /** A top-up that finds its budget unlocked and meets nobody raises the amount and records the
      adjustment if it is in order and names a budget of its own tenant, of tenant scope; else
      nothing changes in the tables. */
  lemma {:induction false} UndisturbedTopUp(s: State, t: TopUp)
    requires t.budgetId !in s.holders
    ensures var end := Run(s, Transaction(t, |s.txns|));
            if Invalid(t).None? && t.budgetId in s.budgets && s.budgets[t.budgetId].budgetId == Some(t.budgetId)
               && s.budgets[t.budgetId].scope.tenantId == t.tenantId && s.budgets[t.budgetId].scope.scopeType.Tenant?
            then
              var b := s.budgets[t.budgetId];
              var after := b.amountCents + t.amountCents;
              && end.budgets == s.budgets[t.budgetId := b.(amountCents := after)]
              && end.adjustments == s.adjustments
                                    + [Adjustment(t.budgetId, t.amountCents, b.amountCents, after, Strip(t.reason))]
              && end.holders == s.holders
            else end.budgets == s.budgets && end.adjustments == s.adjustments && end.holders == s.holders
  {
    var r := |s.txns|;
    RunFour(s, Begin(t), SelectForUpdate(r), Update(r), Commit(r));
    if Invalid(t).None? {
      var waiting := s.(txns := s.txns + [Txn(t, Waiting)]);
      assert Apply(s, Begin(t)) == waiting;
      if t.budgetId in s.budgets && IsTarget(s.budgets[t.budgetId], t) && s.budgets[t.budgetId].scope.scopeType.Tenant? {
        FromWaiting(s, waiting, t);
      } else {
        assert Selected(waiting, r) == Move(waiting, r, Finished);
      }
    }
  }

  lemma {:induction false} FromWaiting(s: State, waiting: State, t: TopUp)
    requires t.budgetId !in s.holders && waiting == s.(txns := s.txns + [Txn(t, Waiting)])
    requires t.budgetId in s.budgets && IsTarget(s.budgets[t.budgetId], t) && s.budgets[t.budgetId].scope.scopeType.Tenant?
    ensures var r, b := |s.txns|, s.budgets[t.budgetId];
            var end := Apply(Apply(Apply(waiting, SelectForUpdate(r)), Update(r)), Commit(r));
            && end.budgets == s.budgets[t.budgetId := b.(amountCents := b.amountCents + t.amountCents)]
            && end.adjustments == s.adjustments + [AdjustmentOf(t, b.amountCents)]
            && end.holders == s.holders
  {
    var r, b := |s.txns|, s.budgets[t.budgetId];
    var locked := Apply(waiting, SelectForUpdate(r));
    assert locked.txns[r] == Txn(t, Locked(b.amountCents)) && locked.holders == s.holders[t.budgetId := r];
    var updated := Apply(locked, Update(r));
    assert updated.txns[r] == Txn(t, Updated(AdjustmentOf(t, b.amountCents))) && updated.holders == locked.holders;
    assert s.holders[t.budgetId := r] - {t.budgetId} == s.holders;
  }

  /** Giving up leaves the tables alone and the row to whoever waits for it. */
  lemma {:induction false} LockPassesOn(s: State, t: nat, next: nat)
    requires t < |s.txns| && next < |s.txns| && next != t && Holds(s.txns[t]) && s.txns[next].phase.Waiting?
    requires s.txns[next].topUp == s.txns[t].topUp && s.txns[t].topUp.budgetId in s.budgets
    requires var b := s.budgets[s.txns[t].topUp.budgetId]; IsTarget(b, s.txns[t].topUp) && b.scope.scopeType.Tenant?
    ensures var id := s.txns[t].topUp.budgetId;
            var after := Apply(Apply(s, Abort(t)), SelectForUpdate(next));
            && after.budgets == s.budgets && after.adjustments == s.adjustments
            && after.txns[t].phase == Finished && after.txns[next].phase == Locked(s.budgets[id].amountCents)
            && after.holders == s.holders[id := next]
  {
    var id := s.txns[t].topUp.budgetId;
    assert (s.holders - {id})[id := next] == s.holders[id := next];
  }

  /** Transactions past their select hold the lock of their row, alone, and read what is still
      committed there. */
  ghost predicate Good(s: State, i: nat)
    requires i < |s.txns|
  {
    var id := s.txns[i].topUp.budgetId;
    && 0 < s.txns[i].topUp.amountCents
    && (Holds(s.txns[i]) ==> id in s.holders && s.holders[id] == i && id in s.budgets)
    && match s.txns[i].phase
       case Locked(previous) => id in s.budgets && previous == s.budgets[id].amountCents
       case Updated(adjustment) => id in s.budgets && adjustment == AdjustmentOf(s.txns[i].topUp, s.budgets[id].amountCents)
       case _ => true
  }

  ghost predicate AllGood(s: State) {
    forall i | 0 <= i < |s.txns| :: Good(s, i)
  }

  ghost predicate Histories(start: map<string, CostBudget>, s: State) {
    forall id | id in start ::
      id in s.budgets && IsHistory(start[id].amountCents, Of(s.adjustments, id), s.budgets[id].amountCents)
  }

  ghost predicate AllPositive(adjustments: seq<Adjustment>) {
    forall i | 0 <= i < |adjustments| :: 0 < adjustments[i].amount
  }

  lemma {:induction false} OfAppend(adjustments: seq<Adjustment>, a: Adjustment, id: string)
    ensures Of(adjustments + [a], id) == Of(adjustments, id) + if a.budgetId == id then [a] else []
  {
    assert (adjustments + [a])[..|adjustments|] == adjustments;
  }

  lemma {:induction false} CommitKeepsGood(s: State, t: nat, i: nat)
    requires t < |s.txns| && s.txns[t].phase.Updated? && i < |s.txns| && Good(s, t) && Good(s, i)
    ensures Good(Committed(s, t), i)
  {
  }

  lemma {:induction false} CommitKeepsHistory(first: int, s: State, t: nat, id: string)
    requires t < |s.txns| && s.txns[t].phase.Updated? && Good(s, t)
    requires id in s.budgets && IsHistory(first, Of(s.adjustments, id), s.budgets[id].amountCents)
    ensures IsHistory(first, Of(Committed(s, t).adjustments, id), Committed(s, t).budgets[id].amountCents)
  {
    OfAppend(s.adjustments, s.txns[t].phase.adjustment, id);
    if id == s.txns[t].topUp.budgetId {
      HistoryGrows(first, Of(s.adjustments, id), s.budgets[id].amountCents, s.txns[t].topUp);
    } else {
      assert Of(s.adjustments, id) + [] == Of(s.adjustments, id);
    }
  }

  lemma {:induction false} CommitKeepsHistories(start: map<string, CostBudget>, s: State, t: nat)
    requires t < |s.txns| && s.txns[t].phase.Updated? && Good(s, t) && Histories(start, s)
    ensures Histories(start, Committed(s, t))
  {
    var s' := Committed(s, t);
    forall id | id in start
      ensures id in s'.budgets && IsHistory(start[id].amountCents, Of(s'.adjustments, id), s'.budgets[id].amountCents)
    {
      CommitKeepsHistory(start[id].amountCents, s, t, id);
    }
  }

  lemma {:induction false} BeginKeepsGood(s: State, topUp: TopUp, i: nat)
    requires i < |Apply(s, Begin(topUp)).txns| && (i < |s.txns| ==> Good(s, i))
    ensures Good(Apply(s, Begin(topUp)), i)
  {
  }

  lemma {:induction false} SelectKeepsGood(s: State, t: nat, i: nat)
    requires i < |s.txns| && Good(s, i)
    ensures |Apply(s, SelectForUpdate(t)).txns| == |s.txns| && Good(Apply(s, SelectForUpdate(t)), i)
  {
  }

  lemma {:induction false} UpdateKeepsGood(s: State, t: nat, i: nat)
    requires i < |s.txns| && Good(s, i)
    ensures |Apply(s, Update(t)).txns| == |s.txns| && Good(Apply(s, Update(t)), i)
  {
  }

  lemma {:induction false} AbortKeepsGood(s: State, t: nat, i: nat)
    requires i < |s.txns| && Good(s, i) && (t < |s.txns| ==> Good(s, t))
    ensures |Apply(s, Abort(t)).txns| == |s.txns| && Good(Apply(s, Abort(t)), i)
  {
  }

  lemma {:induction false} StepKeepsGood(s: State, step: Step, i: nat)
    requires AllGood(s) && i < |Apply(s, step).txns|
    ensures Good(Apply(s, step), i)
  {
    match step {
      case Begin(topUp) => BeginKeepsGood(s, topUp, i);
      case SelectForUpdate(t) => SelectKeepsGood(s, t, i);
      case Update(t) => UpdateKeepsGood(s, t, i);
      case Commit(t) => if Apply(s, step) != s { CommitKeepsGood(s, t, i); }
      case Abort(t) => AbortKeepsGood(s, t, i);
    }
  }

  /** Before its commit a transaction leaves the committed rows alone. */
  lemma {:induction false} OnlyCommitWrites(s: State, step: Step)
    requires !step.Commit? || step.t >= |s.txns| || !s.txns[step.t].phase.Updated?
    ensures Apply(s, step).budgets == s.budgets && Apply(s, step).adjustments == s.adjustments
  {
  }

  lemma {:induction false} StepKeepsAllGood(s: State, step: Step)
    requires AllGood(s)
    ensures AllGood(Apply(s, step))
  {
    forall i | 0 <= i < |Apply(s, step).txns| ensures Good(Apply(s, step), i) {
      StepKeepsGood(s, step, i);
    }
  }

  lemma {:induction false} CommitKeepsPositive(s: State, t: nat)
    requires t < |s.txns| && s.txns[t].phase.Updated? && Good(s, t) && AllPositive(s.adjustments)
    ensures AllPositive(Committed(s, t).adjustments)
  {
  }

  lemma {:induction false} StepKeepsTables(start: map<string, CostBudget>, s: State, step: Step)
    requires AllGood(s) && Histories(start, s) && AllPositive(s.adjustments)
    ensures Histories(start, Apply(s, step)) && AllPositive(Apply(s, step).adjustments)
  {
    if step.Commit? && step.t < |s.txns| && s.txns[step.t].phase.Updated? {
      assert Good(s, step.t);
      CommitKeepsHistories(start, s, step.t);
      CommitKeepsPositive(s, step.t);
    } else {
      OnlyCommitWrites(s, step);
    }
  }

  lemma {:induction false} RunKeeps(start: map<string, CostBudget>, s: State, steps: seq<Step>)
    requires AllGood(s) && Histories(start, s) && AllPositive(s.adjustments)
    ensures Histories(start, Run(s, steps)) && AllPositive(Run(s, steps).adjustments)
    decreases |steps|
  {
    if steps != [] {
      StepKeepsAllGood(s, steps[0]);
      StepKeepsTables(start, s, steps[0]);
      RunKeeps(start, Apply(s, steps[0]), steps[1..]);
    }
  }

  lemma {:induction false} OnlyIncreases(adjustments: seq<Adjustment>, id: string)
    requires AllPositive(adjustments)
    ensures 0 <= Total(Of(adjustments, id))
  {
    if adjustments != [] {
      var n := |adjustments| - 1;
      OnlyIncreases(adjustments[..n], id);
      var rest := Of(adjustments[..n], id);
      assert rest + [] == rest && (rest + [adjustments[n]])[..|rest|] == rest;
    }
  }

  /** No top-up is lost: over every interleaving the adjustments of each budget form a history
      from its first amount to its last, which is therefore the first plus all of them. */
  lemma {:induction false} NoTopUpIsLost(budgets: map<string, CostBudget>, steps: seq<Step>, id: string)
    requires id in budgets
    ensures var end := Run(State(budgets, [], map[], []), steps);
            && id in end.budgets
            && IsHistory(budgets[id].amountCents, Of(end.adjustments, id), end.budgets[id].amountCents)
            && end.budgets[id].amountCents == budgets[id].amountCents + Total(Of(end.adjustments, id))
            && budgets[id].amountCents <= end.budgets[id].amountCents
  {
    var start := State(budgets, [], map[], []);
    RunKeeps(budgets, start, steps);
    var end := Run(start, steps);
    OnlyIncreases(end.adjustments, id);
    HistoryAddsUp(budgets[id].amountCents, Of(end.adjustments, id), end.budgets[id].amountCents);
  }
}

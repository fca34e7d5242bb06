/** How far recorded spend can pass a budget, over every interleaving of the budget protocol. */
module CostOvershoot {
  import opened Common
  import opened Calendar
  import opened Budgets
  import opened CostLedger
  import opened Tally
  import opened CostProtocol

  // ----- what every step keeps ---------------------------------------------------------

  ghost predicate GoodTable(budgets: map<string, CostBudget>) {
    forall id | id in budgets :: HasId(budgets[id], id) && IsValid(budgets[id])
  }

  ghost predicate GoodEvents(events: seq<SpendEvent>, now: DateTime) {
    IsDateTime(now) && forall i | 0 <= i < |events| :: IsDateTime(events[i].at) && Instant(events[i].at) <= Instant(now)
  }

  /** The list of a request holds the budget if and only if it matches, perhaps with an amount
      from before a top-up. */
  ghost predicate GoodList(B: CostBudget, id: string, r: Request) {
    var k := IndexOf(r.matched, id);
    && (k < |r.matched| <==> Matches(B, r.attr))
    && (k < |r.matched| ==>
          r.matched[k].scope == B.scope && r.matched[k].period == B.period && r.matched[k].amountCents <= B.amountCents)
    && AllValid(r.matched)
    && DistinctKeys(r.matched)
  }

  /** Reads so far are of real spend; an allowed request fits the amount it was checked against. */
  ghost predicate GoodPhase(id: string, r: Request) {
    match r.phase
    case Reading(next, window, spend) =>
      && next <= |r.matched|
      && (window.Some? ==> next < |r.matched|)
      && (forall key | key in spend :: 0 <= spend[key])
    case Allowed =>
      var k := IndexOf(r.matched, id);
      k < |r.matched| ==> 0 <= r.attr.projected <= r.matched[k].amountCents
    case Done => true
  }

  ghost predicate GoodRequests(B: CostBudget, id: string, requests: seq<Request>) {
    forall i | 0 <= i < |requests| :: GoodList(B, id, requests[i]) && GoodPhase(id, requests[i])
  }

  ghost predicate Inv(s: State, id: string) {
    && GoodTable(s.budgets)
    && GoodEvents(s.events, s.now)
    && id in s.budgets
    && GoodRequests(s.budgets[id], id, s.requests)
  }

  /** Spend of the current period plus what may still be added to it. */
  function Committed(s: State, id: string, c: Counting): int
    requires IsDateTime(s.now) && id in s.budgets
  {
    var B := s.budgets[id];
    SpendIn(s.events, B.scope, B.period, PeriodIndex(B.period, s.now.date)) + Sum(Weights(s.now, id, s.requests, c))
  }

  /** The most one request may still add: what it projects, and no more than a budget lets through. */
  function Cap(load: Load, B: CostBudget): (cents: nat) {
    if B.amountCents <= 0 then 0 else Min(load.cents, B.amountCents)
  }

  ghost predicate Bounded(s: State, id: string, load: Load)
    requires IsDateTime(s.now) && id in s.budgets && 1 <= load.requests
  {
    var B := s.budgets[id];
    && Committed(s, id, load.counting) <= B.amountCents + Times(load.requests - 1, Cap(load, B))
    && forall index :: SpendIn(s.events, B.scope, B.period, index) <= B.amountCents + Times(load.requests - 1, Cap(load, B))
  }

  // ----- weights -----------------------------------------------------------------------

  lemma {:induction false} WeightsCapped(B: CostBudget, s: State, id: string, load: Load)
    requires IsDateTime(s.now) && GoodRequests(B, id, s.requests) && WithinLoad(s, id, load)
    ensures Capped(Weights(s.now, id, s.requests, load.counting), InFlight(s.requests, id, load.counting), Cap(load, B))
  {
    forall i | 0 <= i < |s.requests|
      ensures Weight(s.now, id, s.requests[i], load.counting)
           <= if IsInFlight(s.requests[i], id, load.counting) then Cap(load, B) else 0
    {
      WeightCapped(B, s.now, id, s.requests[i], load.counting);
    }
  }

  lemma {:induction false} WeightsFit(B: CostBudget, s: State, id: string, c: Counting)
    requires IsDateTime(s.now) && GoodRequests(B, id, s.requests) && IsValid(B)
    ensures forall i | 0 <= i < |s.requests| :: Weights(s.now, id, s.requests, c)[i] <= B.amountCents
  {
    forall i | 0 <= i < |s.requests| ensures Weights(s.now, id, s.requests, c)[i] <= B.amountCents {
      WeightCapped(B, s.now, id, s.requests[i], c);
    }
  }

  lemma {:induction false} WeightCapped(B: CostBudget, now: DateTime, id: string, r: Request, c: Counting)
    requires IsDateTime(now) && GoodList(B, id, r) && GoodPhase(id, r)
    ensures Weight(now, id, r, c) <= if IsInFlight(r, id, c) then Max(0, r.attr.projected) else 0
    ensures Weight(now, id, r, c) <= Max(0, B.amountCents)
  {
  }

  lemma {:induction false} MoveWeight(s: State, r: nat, phase: Phase, id: string, c: Counting)
    requires IsDateTime(s.now) && r < |s.requests|
    ensures Sum(Weights(s.now, id, Move(s, r, phase).requests, c))
         == Sum(Weights(s.now, id, s.requests, c)) - Weight(s.now, id, s.requests[r], c)
          + Weight(s.now, id, s.requests[r].(phase := phase), c)
  {
    var w := Weight(s.now, id, s.requests[r].(phase := phase), c);
    SumUpdate(Weights(s.now, id, s.requests, c), r, w);
    assert Weights(s.now, id, Move(s, r, phase).requests, c) == Weights(s.now, id, s.requests, c)[r := w];
  }

  // ----- the clock ---------------------------------------------------------------------

  lemma {:induction false} TickKeeps(s: State, now: DateTime, id: string, load: Load)
    requires Inv(s, id) && 1 <= load.requests && Bounded(s, id, load) && WithinLoad(s, id, load)
    requires IsDateTime(now) && Instant(s.now) <= Instant(now)
    ensures Inv(s.(now := now), id) && Bounded(s.(now := now), id, load)
  {
    var B := s.budgets[id];
    PeriodsFollowTime(B.period, s.now, now);
    if PeriodIndex(B.period, s.now.date) == PeriodIndex(B.period, now.date) {
      SamePeriodSameWindow(B.period, s.now, now);
      SameWeights(s, now, id, load.counting);
    } else {
      NewPeriodCommits(s, now, id, load);
    }
  }

  /** A period begins with nothing spent, and each request in flight alone fits the amount. */
  lemma {:induction false} NewPeriodCommits(s: State, now: DateTime, id: string, load: Load)
    requires Inv(s, id) && 1 <= load.requests && WithinLoad(s, id, load) && IsDateTime(now)
    requires PeriodIndex(s.budgets[id].period, s.now.date) < PeriodIndex(s.budgets[id].period, now.date)
    ensures Committed(s.(now := now), id, load.counting)
         <= s.budgets[id].amountCents + Times(load.requests - 1, Cap(load, s.budgets[id]))
  {
    var B := s.budgets[id];
    NoSpendAhead(s.events, B.scope, B.period, s.now, PeriodIndex(B.period, now.date));
    NewPeriodWeights(B, s.(now := now), id, load);
  }

  lemma {:induction false} NewPeriodWeights(B: CostBudget, s: State, id: string, load: Load)
    requires IsDateTime(s.now) && IsValid(B) && GoodRequests(B, id, s.requests)
    requires 1 <= load.requests && WithinLoad(s, id, load)
    ensures Sum(Weights(s.now, id, s.requests, load.counting)) <= B.amountCents + Times(load.requests - 1, Cap(load, B))
  {
    WeightsCapped(B, s, id, load);
    WeightsFit(B, s, id, load.counting);
    SumFlagged(Weights(s.now, id, s.requests, load.counting), InFlight(s.requests, id, load.counting), Cap(load, B),
               B.amountCents, load.requests);
  }

  lemma {:induction false} SameWeights(s: State, now: DateTime, id: string, c: Counting)
    requires Inv(s, id) && IsDateTime(now)
    requires CurrentPeriodWindow(s.budgets[id].period, s.now) == CurrentPeriodWindow(s.budgets[id].period, now)
    ensures Weights(now, id, s.requests, c) == Weights(s.now, id, s.requests, c)
  {
    forall i | 0 <= i < |s.requests|
      ensures Weight(now, id, s.requests[i], c) == Weight(s.now, id, s.requests[i], c)
    {
      assert GoodList(s.budgets[id], id, s.requests[i]);
    }
  }

  // ----- requests ----------------------------------------------------------------------

  lemma {:induction false} MoveKeepsInv(s: State, r: nat, phase: Phase, id: string)
    requires Inv(s, id) && r < |s.requests| && GoodPhase(id, s.requests[r].(phase := phase))
    ensures Inv(Move(s, r, phase), id)
  {
    var s' := Move(s, r, phase);
    forall i | 0 <= i < |s'.requests| ensures GoodList(s.budgets[id], id, s'.requests[i]) && GoodPhase(id, s'.requests[i]) {
      assert GoodList(s.budgets[id], id, s.requests[i]) && GoodPhase(id, s.requests[i]);
    }
  }

  lemma {:induction false} LighterKeeps(s: State, r: nat, phase: Phase, id: string, load: Load)
    requires Inv(s, id) && 1 <= load.requests && Bounded(s, id, load)
    requires r < |s.requests| && GoodPhase(id, s.requests[r].(phase := phase))
    requires Weight(s.now, id, s.requests[r].(phase := phase), load.counting)
          <= Weight(s.now, id, s.requests[r], load.counting)
    ensures Inv(Move(s, r, phase), id) && Bounded(Move(s, r, phase), id, load)
  {
    MoveKeepsInv(s, r, phase, id);
    MoveWeight(s, r, phase, id, load.counting);
  }

  lemma {:induction false} OpenKeeps(s: State, r: nat, id: string, load: Load)
    requires Inv(s, id) && 1 <= load.requests && Bounded(s, id, load) && Enabled(s, OpenWindow(r))
    ensures Inv(Apply(s, OpenWindow(r)), id) && Bounded(Apply(s, OpenWindow(r)), id, load)
  {
    assert GoodList(s.budgets[id], id, s.requests[r]) && GoodPhase(id, s.requests[r]);
    LighterKeeps(s, r, Opened(s.requests[r], s.now), id, load);
  }

  /** What reading the spend of the next budget does to a request's own entries. */
  lemma {:induction false} ReadOther(r: Request, events: seq<SpendEvent>, id: string)
    requires r.phase.Reading? && r.phase.next < |r.matched| && r.phase.window.Some? && DistinctKeys(r.matched)
    requires IndexOf(r.matched, id) < |r.matched| && IndexOf(r.matched, id) != r.phase.next
    ensures var b := r.matched[IndexOf(r.matched, id)];
            SpendOf(b, Read(r, events).spend) == SpendOf(b, r.phase.spend)
  {
    var k := IndexOf(r.matched, id);
    assert Key(r.matched[k]) != Key(r.matched[r.phase.next]);
  }

  lemma {:induction false} ReadWeight(B: CostBudget, now: DateTime, r: Request, events: seq<SpendEvent>, id: string,
                                      c: Counting)
    requires IsDateTime(now) && GoodList(B, id, r) && GoodPhase(id, r)
    requires r.phase.Reading? && r.phase.next < |r.matched| && r.phase.window.Some?
    ensures GoodPhase(id, r.(phase := Read(r, events)))
    ensures IndexOf(r.matched, id) != r.phase.next
            || (c.FromWindow? && CurrentPeriodWindow(B.period, now) != r.phase.window) ==>
              Weight(now, id, r.(phase := Read(r, events)), c) <= Weight(now, id, r, c)
    ensures IndexOf(r.matched, id) == r.phase.next ==>
              var w := Weight(now, id, r.(phase := Read(r, events)), c);
              w == 0 || w + CurrentSpend(events, B.scope, r.phase.window.value) <= B.amountCents
  {
    if IndexOf(r.matched, id) < |r.matched| && IndexOf(r.matched, id) != r.phase.next {
      ReadOther(r, events, id);
    }
  }

  /** One request's weight, and everybody else's. */
  lemma {:induction false} OthersWeigh(B: CostBudget, s: State, r: nat, id: string, load: Load)
    requires IsDateTime(s.now) && GoodRequests(B, id, s.requests) && WithinLoad(s, id, load)
    requires r < |s.requests| && 0 < Weights(s.now, id, s.requests, load.counting)[r] && 1 <= load.requests
    ensures Sum(Weights(s.now, id, s.requests, load.counting))
         <= Weights(s.now, id, s.requests, load.counting)[r] + Times(load.requests - 1, Cap(load, B))
  {
    WeightsCapped(B, s, id, load);
    SumOthers(Weights(s.now, id, s.requests, load.counting), InFlight(s.requests, id, load.counting), Cap(load, B),
              load.requests, r);
  }

  /** A fresh read sees all the spend of the period. */
  lemma {:induction false} FreshReadCommits(s: State, r: nat, id: string, load: Load)
    requires Inv(s, id) && 1 <= load.requests && Enabled(s, ReadSpend(r)) && WithinLoad(Apply(s, ReadSpend(r)), id, load)
    requires Inv(Apply(s, ReadSpend(r)), id)
    requires IndexOf(s.requests[r].matched, id) == s.requests[r].phase.next
    requires CurrentPeriodWindow(s.budgets[id].period, s.now) == s.requests[r].phase.window
    requires 0 < Weight(s.now, id, Apply(s, ReadSpend(r)).requests[r], load.counting)
    ensures Committed(Apply(s, ReadSpend(r)), id, load.counting)
         <= s.budgets[id].amountCents + Times(load.requests - 1, Cap(load, s.budgets[id]))
  {
    OthersWeigh(s.budgets[id], Apply(s, ReadSpend(r)), r, id, load);
    FreshReadFits(s.budgets[id], s.now, s.requests[r], s.events, id, load.counting);
  }

  lemma {:induction false} FreshReadFits(B: CostBudget, now: DateTime, r: Request, events: seq<SpendEvent>, id: string,
                                         c: Counting)
    requires GoodEvents(events, now) && GoodList(B, id, r) && GoodPhase(id, r)
    requires r.phase.Reading? && r.phase.next < |r.matched| && r.phase.window.Some?
    requires IndexOf(r.matched, id) == r.phase.next && CurrentPeriodWindow(B.period, now) == r.phase.window
    ensures var w := Weight(now, id, r.(phase := Read(r, events)), c);
            w == 0 || w + SpendIn(events, B.scope, B.period, PeriodIndex(B.period, now.date)) <= B.amountCents
  {
    ReadWeight(B, now, r, events, id, c);
    SpendInIsCurrentSpend(events, B.scope, B.period, now);
  }

  /** Where requests project nothing, reading cannot add anything. */
  lemma {:induction false} NothingToAdd(B: CostBudget, s: State, r: nat, id: string, load: Load)
    requires IsDateTime(s.now) && GoodRequests(B, id, s.requests) && WithinLoad(s, id, load)
    requires r < |s.requests| && load.cents == 0
    ensures Weight(s.now, id, s.requests[r], load.counting) == 0
  {
    WeightCapped(B, s.now, id, s.requests[r], load.counting);
  }

  lemma {:induction false} ReadKeeps(s: State, r: nat, id: string, load: Load)
    requires Inv(s, id) && 1 <= load.requests && Bounded(s, id, load) && Enabled(s, ReadSpend(r))
    requires WithinLoad(Apply(s, ReadSpend(r)), id, load)
    requires load.counting.FromRead? && 0 < load.cents ==> ReadsInTime(s, ReadSpend(r), id)
    ensures Inv(Apply(s, ReadSpend(r)), id) && Bounded(Apply(s, ReadSpend(r)), id, load)
  {
    var B := s.budgets[id];
    var q := s.requests[r];
    assert GoodList(B, id, q) && GoodPhase(id, q);
    ReadWeight(B, s.now, q, s.events, id, load.counting);
    MoveKeepsInv(s, r, Read(q, s.events), id);
    if load.cents == 0 { NothingToAdd(B, Apply(s, ReadSpend(r)), r, id, load); }
    if Weight(s.now, id, q.(phase := Read(q, s.events)), load.counting) <= Weight(s.now, id, q, load.counting) {
      LighterKeeps(s, r, Read(q, s.events), id, load);
    } else {
      FreshReadCommits(s, r, id, load);
    }
  }

  /** An allowed request exceeds none of its budgets. */
  lemma {:induction false} DecideWeight(B: CostBudget, now: DateTime, r: Request, id: string, c: Counting)
    requires IsDateTime(now) && GoodList(B, id, r) && GoodPhase(id, r) && r.phase.Reading? && r.phase.next == |r.matched|
    ensures GoodPhase(id, r.(phase := Verdict(r)))
    ensures Weight(now, id, r.(phase := Verdict(r)), c) <= Weight(now, id, r, c)
  {
    var k := IndexOf(r.matched, id);
    DenialNamesTheFirstExceeded(r.matched, r.phase.spend, r.attr.projected);
    if k < |r.matched| && Verdict(r).Allowed? {
      assert r.matched[k] in r.matched && !Exceeded(r.matched[k], r.phase.spend, r.attr.projected);
    }
  }

  lemma {:induction false} DecideKeeps(s: State, r: nat, id: string, load: Load)
    requires Inv(s, id) && 1 <= load.requests && Bounded(s, id, load) && Enabled(s, Decide(r))
    ensures Inv(Apply(s, Decide(r)), id) && Bounded(Apply(s, Decide(r)), id, load)
  {
    assert GoodList(s.budgets[id], id, s.requests[r]) && GoodPhase(id, s.requests[r]);
    DecideWeight(s.budgets[id], s.now, s.requests[r], id, load.counting);
    LighterKeeps(s, r, Verdict(s.requests[r]), id, load);
  }

  lemma {:induction false} RecordWeight(B: CostBudget, now: DateTime, r: Request, actual: int, id: string, c: Counting)
    requires IsDateTime(now) && IsValid(B) && GoodList(B, id, r) && r.phase.Allowed? && 0 <= actual <= r.attr.projected
    ensures Counts(B.scope, EventOf(r.attr.(actual := actual), now)) ==> actual <= Weight(now, id, r, c)
  {
    CheckedWhereCounted(B, r.attr.(actual := actual), now);
    assert Matches(B, r.attr.(actual := actual)) <==> Matches(B, r.attr);
  }

  lemma {:induction false} RecordCommits(s: State, r: nat, actual: int, id: string, c: Counting)
    requires Inv(s, id) && Enabled(s, Record(r, actual))
    ensures Inv(Apply(s, Record(r, actual)), id) && Committed(Apply(s, Record(r, actual)), id, c) <= Committed(s, id, c)
  {
    var B := s.budgets[id];
    assert GoodList(B, id, s.requests[r]);
    MoveKeepsInv(s, r, Done, id);
    MoveWeight(s, r, Done, id, c);
    RecordWeight(B, s.now, s.requests[r], actual, id, c);
    var e := EventOf(s.requests[r].attr.(actual := actual), s.now);
    SpendInAppend(s.events, e, B.scope, B.period, PeriodIndex(B.period, s.now.date));
  }

  lemma {:induction false} RecordKeeps(s: State, r: nat, actual: int, id: string, load: Load)
    requires Inv(s, id) && 1 <= load.requests && Bounded(s, id, load) && Enabled(s, Record(r, actual))
    ensures Inv(Apply(s, Record(r, actual)), id) && Bounded(Apply(s, Record(r, actual)), id, load)
  {
    var B := s.budgets[id];
    var e := EventOf(s.requests[r].attr.(actual := actual), s.now);
    var s' := Apply(s, Record(r, actual));
    RecordCommits(s, r, actual, id, load.counting);
    SumNotNegative(Weights(s.now, id, s'.requests, load.counting));
    forall index
      ensures SpendIn(s'.events, B.scope, B.period, index) <= B.amountCents + Times(load.requests - 1, Cap(load, B))
    {
      SpendInAppend(s.events, e, B.scope, B.period, index);
    }
  }

  lemma {:induction false} BeginKeeps(s: State, attr: Attribution, matched: seq<CostBudget>, id: string, load: Load)
    requires Inv(s, id) && 1 <= load.requests && Bounded(s, id, load) && IsMatchList(s.budgets, attr, matched)
    ensures Inv(Apply(s, Begin(attr, matched)), id) && Bounded(Apply(s, Begin(attr, matched)), id, load)
  {
    var r := Request(attr, matched, Reading(0, None, map[]));
    ListIsGood(s.budgets, attr, matched, id);
    SumAppend(Weights(s.now, id, s.requests, load.counting), 0);
    assert Weights(s.now, id, s.requests + [r], load.counting)
        == Weights(s.now, id, s.requests, load.counting) + [Weight(s.now, id, r, load.counting)];
  }

  lemma {:induction false} ListIsGood(budgets: map<string, CostBudget>, attr: Attribution, matched: seq<CostBudget>,
                                      id: string)
    requires GoodTable(budgets) && id in budgets && IsMatchList(budgets, attr, matched)
    ensures GoodList(budgets[id], id, Request(attr, matched, Reading(0, None, map[])))
  {
    var k := IndexOf(matched, id);
    if k < |matched| {
      assert matched[k] in matched;
      var other :| other in budgets && budgets[other] == matched[k];
    }
  }

  // ----- budgets -----------------------------------------------------------------------

  /** Replacing the budget table keeps everything if the budget keeps its scope and period and
      loses no amount. */
  lemma {:induction false} CapGrows(load: Load, B: CostBudget, raised: CostBudget)
    requires B.amountCents <= raised.amountCents && 1 <= load.requests
    ensures Times(load.requests - 1, Cap(load, B)) <= Times(load.requests - 1, Cap(load, raised))
  {
    TimesGrows(load.requests - 1, Cap(load, B), Cap(load, raised));
  }

  lemma {:induction false} TableKeeps(s: State, budgets: map<string, CostBudget>, id: string, load: Load)
    requires Inv(s, id) && 1 <= load.requests && Bounded(s, id, load) && GoodTable(budgets) && id in budgets
    requires budgets[id].scope == s.budgets[id].scope && budgets[id].period == s.budgets[id].period
    requires s.budgets[id].amountCents <= budgets[id].amountCents
    ensures Inv(s.(budgets := budgets), id) && Bounded(s.(budgets := budgets), id, load)
  {
    CapGrows(load, s.budgets[id], budgets[id]);
    forall i | 0 <= i < |s.requests| ensures GoodList(budgets[id], id, s.requests[i]) && GoodPhase(id, s.requests[i]) {
      assert GoodList(s.budgets[id], id, s.requests[i]);
    }
  }

  lemma {:induction false} TopUpKeeps(s: State, other: string, amount: int, id: string, load: Load)
    requires Inv(s, id) && 1 <= load.requests && Bounded(s, id, load) && Enabled(s, TopUp(other, amount))
    ensures Inv(Apply(s, TopUp(other, amount)), id) && Bounded(Apply(s, TopUp(other, amount)), id, load)
  {
    TableKeeps(s, Apply(s, TopUp(other, amount)).budgets, id, load);
  }

  lemma {:induction false} CreateKeeps(s: State, b: CostBudget, id: string, load: Load)
    requires Inv(s, id) && 1 <= load.requests && Bounded(s, id, load) && Enabled(s, Create(b))
    ensures Inv(Apply(s, Create(b)), id) && Bounded(Apply(s, Create(b)), id, load)
  {
    TableKeeps(s, Apply(s, Create(b)).budgets, id, load);
  }

  // ----- runs --------------------------------------------------------------------------

  lemma {:induction false} StepKeeps(s: State, step: Step, id: string, load: Load)
    requires Inv(s, id) && 1 <= load.requests && Bounded(s, id, load)
    requires WithinLoad(s, id, load) && WithinLoad(Apply(s, step), id, load)
    requires load.counting.FromRead? && 0 < load.cents ==> ReadsInTime(s, step, id)
    ensures Inv(Apply(s, step), id) && Bounded(Apply(s, step), id, load)
  {
    if Enabled(s, step) {
      match step {
        case Tick(now) => TickKeeps(s, now, id, load);
        case Begin(attr, matched) => BeginKeeps(s, attr, matched, id, load);
        case OpenWindow(r) => OpenKeeps(s, r, id, load);
        case ReadSpend(r) => ReadKeeps(s, r, id, load);
        case Decide(r) => DecideKeeps(s, r, id, load);
        case Record(r, actual) => RecordKeeps(s, r, actual, id, load);
        case Abandon(r) => LighterKeeps(s, r, Done, id, load);
        case TopUp(other, amount) => TopUpKeeps(s, other, amount, id, load);
        case Create(b) => CreateKeeps(s, b, id, load);
      }
    }
  }

  lemma {:induction false} RunKeeps(s: State, steps: seq<Step>, id: string, load: Load)
    requires Inv(s, id) && 1 <= load.requests && Bounded(s, id, load) && AlwaysWithinLoad(s, steps, id, load)
    requires load.counting.FromRead? && 0 < load.cents ==> AlwaysReadsInTime(s, steps, id)
    ensures Inv(Run(s, steps), id) && Bounded(Run(s, steps), id, load)
    decreases |steps|
  {
    if steps != [] {
      var s' := Apply(s, steps[0]);
      assert AlwaysWithinLoad(s', steps[1..], id, load);
      assert WithinLoad(s', id, load);
      StepKeeps(s, steps[0], id, load);
      RunKeeps(s', steps[1..], id, load);
    }
  }

  /** A start: no request in progress, and the budget not overspent in any period. */
  ghost predicate IsStart(s: State, id: string) {
    && GoodTable(s.budgets) && GoodEvents(s.events, s.now) && id in s.budgets && s.requests == []
    && forall index :: SpendIn(s.events, s.budgets[id].scope, s.budgets[id].period, index) <= s.budgets[id].amountCents
  }

  lemma {:induction false} StartKeeps(s: State, id: string, load: Load)
    requires IsStart(s, id) && 1 <= load.requests
    ensures Inv(s, id) && Bounded(s, id, load)
  {
    assert Weights(s.now, id, s.requests, load.counting) == [];
  }

  /** What requests in flight at once may add to a budget's amount. */
  function Overshoot(load: Load, B: CostBudget): (cents: int)
    requires 1 <= load.requests
    ensures 0 <= cents
  {
    (load.requests - 1) * Cap(load, B)
  }

  /** The spend recorded in the window of a moment is within the budget's amount and what requests in
      flight at once may add. */
  ghost predicate WithinBound(s: State, id: string, load: Load, t: DateTime)
    requires 1 <= load.requests
  {
    && id in s.budgets
    && (IsDateTime(t) && CurrentPeriodWindow(s.budgets[id].period, t).Some? ==>
          CurrentSpend(s.events, s.budgets[id].scope, CurrentPeriodWindow(s.budgets[id].period, t).value)
            <= s.budgets[id].amountCents + Overshoot(load, s.budgets[id]))
  }

  lemma {:induction false} OvershootIsTimes(load: Load, B: CostBudget)
    requires 1 <= load.requests
    ensures Overshoot(load, B) == Times(load.requests - 1, Cap(load, B))
  {
    TimesIsProduct(load.requests - 1, Cap(load, B));
  }

  lemma {:induction false} BoundedInWindows(s: State, id: string, load: Load, t: DateTime)
    requires Inv(s, id) && 1 <= load.requests && Bounded(s, id, load)
    ensures WithinBound(s, id, load, t)
  {
    OvershootIsTimes(load, s.budgets[id]);
    if IsDateTime(t) && CurrentPeriodWindow(s.budgets[id].period, t).Some? {
      SpendInIsCurrentSpend(s.events, s.budgets[id].scope, s.budgets[id].period, t);
    }
  }

  /** Over every interleaving with at most `requests` in flight for a budget, each projecting at
      most `cents`, the spend recorded in any window of the budget's stays within its amount plus
      `requests - 1` times the lesser of `cents` and the amount, rollovers included; one request at
      a time never passes the amount.
      Requests count as in flight from working out the window; where they project nothing, or no
      window is over by the time its spend is read, it is enough to count them from that read. */
  lemma {:induction false} OvershootIsBounded(s: State, steps: seq<Step>, id: string, load: Load, t: DateTime)
    requires IsStart(s, id) && 1 <= load.requests && AlwaysWithinLoad(s, steps, id, load)
    requires load.counting.FromRead? && 0 < load.cents ==> AlwaysReadsInTime(s, steps, id)
    ensures WithinBound(Run(s, steps), id, load, t)
  {
    StartKeeps(s, id, load);
    RunKeeps(s, steps, id, load);
    BoundedInWindows(Run(s, steps), id, load, t);
  }
}

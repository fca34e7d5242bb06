/** The trust snapshot engine, and what every run of it keeps. */
module TrustEngine {
  import opened Common
  import opened Trust
  import opened TrustLedger

  /** What a caller gets back. */
  datatype TrustScore = TrustScore(score: real, level: TrustBand, snapshotId: Option<int>)

  datatype State = State(rows: seq<Snapshot>, agents: map<string, Agent>)

  /** What an operation reads from elsewhere: the id its row draws and the three clock readings,
      for the probation check and for ending the old and starting the new snapshot. */
  datatype Draw = Draw(id: int, now: int, expired: int, inserted: int)

  /** `_create_snapshot` and `_update_agent_cache`. */
  function Stored(s: State, e: Entry, probationUntil: Option<int>, d: Draw): State {
    State(Superseded(s.rows, e, d.expired, d.inserted),
          if e.actor in s.agents then s.agents[e.actor := Agent(e.band, probationUntil)] else s.agents)
  }

  predicate OnProbation(until: Option<int>, now: int) {
    until.Some? && until.value > now
  }

  /** The row `compute_and_store` adds for an agent. */
  function Computed(agent: Agent, actor: string, i: RawInputs, d: Draw): (e: Entry)
    ensures e.band == Probation || FromScore(e.score) == Some(e.band)
    ensures OnProbation(agent.probationUntil, d.now) ==> e.band == Probation
  {
    ScoreIsTheSum(i);
    Entry(d.id, actor, ComputeScore(i),
          if OnProbation(agent.probationUntil, d.now) then Probation else FromScore(ComputeScore(i)).value)
  }

  /** The row `operator_override` adds. */
  function Overridden(actor: string, target: TrustBand, d: Draw): (e: Entry)
    ensures FromScore(e.score) == Some(e.band) == Some(target)
  {
    Entry(d.id, actor, MinScore(target) + 0.01, target)
  }

  // ----- the engine --------------------------------------------------------------------

  class TrustSnapshotEngine {
    var rows: seq<Snapshot>             // actor_trust_snapshots, in the order of their insertion
    var agents: map<string, Agent>      // agents

    ghost function Contents(): State reads this { State(rows, agents) }

    ghost predicate Valid() reads this {
      IsLedger(rows) && BandsFit(rows) && CacheAgrees(rows, agents)
    }

    /** The last row is what was returned, active from its insertion on, and nothing else was added. */
    ghost predicate IsAdded(before: seq<Snapshot>, actor: string, result: TrustScore, d: Draw) reads this {
      && |rows| == |before| + 1
      && var row := rows[|before|];
         && row.id == d.id && result.snapshotId == Some(d.id) && row.actor == actor
         && row.score == result.score && row.band == result.level
         && row.validFrom == d.inserted && row.validUntil.None?
    }

    /** What the environment provides: an unused id, and a database clock that does not go back. */
    ghost predicate Allows(d: Draw) reads this {
      IsFresh(rows, d.id) && NothingAfter(rows, d.expired) && d.expired <= d.inserted
    }

    constructor (agents: map<string, Agent>)
      ensures Valid() && rows == [] && this.agents == agents
    {
      rows, this.agents := [], agents;
    }

    method CreateSnapshot(e: Entry, supersedes: Option<int>, expired: int, inserted: int)
      requires var k := FindActive(rows, e.actor, |rows|);
               supersedes == if k < |rows| then Some(rows[k].id) else None
      modifies this`rows
      ensures rows == Superseded(old(rows), e, expired, inserted)
    {
      var k := FindActive(rows, e.actor, |rows|);
      if supersedes.Some? {
        rows := rows[k := rows[k].(validUntil := Some(expired))];
      }
      rows := rows + [Snapshot(e.id, e.actor, e.score, e.band, inserted, None, supersedes)];
    }

    method UpdateAgentCache(actor: string, band: TrustBand, probationUntil: Option<int>)
      modifies this`agents
      ensures agents == if actor in old(agents) then old(agents)[actor := Agent(band, probationUntil)] else old(agents)
    {
      if actor in agents {
        agents := agents[actor := Agent(band, probationUntil)];
      }
    }

    /** An unknown agent is reported as revoked and leaves no trace. */
    method ComputeAndStore(actor: string, i: RawInputs, d: Draw) returns (result: TrustScore)
      requires Valid() && Allows(d)
      modifies this
      ensures Valid() && NothingAfter(rows, d.inserted)
      ensures actor !in old(agents) ==> result == TrustScore(0.0, Revoked, None) && Contents() == old(Contents())
      ensures actor in old(agents) ==>
                var e := Computed(old(agents)[actor], actor, i, d);
                && result == TrustScore(e.score, e.band, Some(d.id))
                && Contents() == Stored(old(Contents()), e, old(agents)[actor].probationUntil, d)
      ensures actor in old(agents) ==>
                var until := old(agents)[actor].probationUntil;
                && result.score == ComputeScore(i)
                && (if until.Some? && d.now < until.value then result.level == Probation
                    else FromScore(result.score) == Some(result.level))
                && IsAdded(old(rows), actor, result, d)
                && agents == old(agents)[actor := Agent(result.level, until)]
    {
      if actor !in agents {
        return TrustScore(0.0, Revoked, None);
      }
      var probationUntil := agents[actor].probationUntil;
      var e := Computed(agents[actor], actor, i, d);
      StoredKeepsGood(Contents(), e, probationUntil, d);
      var k := FindActive(rows, actor, |rows|);
      var previous := if k < |rows| then Some(rows[k].id) else None;
      CreateSnapshot(e, previous, d.expired, d.inserted);
      UpdateAgentCache(actor, e.band, probationUntil);
      return TrustScore(e.score, e.band, Some(d.id));
    }

    method OperatorOverride(actor: string, target: TrustBand, d: Draw) returns (result: TrustScore)
      requires Valid() && Allows(d)
      modifies this
      ensures Valid() && NothingAfter(rows, d.inserted)
      ensures result == TrustScore(MinScore(target) + 0.01, target, Some(d.id))
      ensures Contents() == Stored(old(Contents()), Overridden(actor, target, d), None, d)
      ensures FromScore(result.score) == Some(target) && IsAdded(old(rows), actor, result, d)
      ensures agents == if actor in old(agents) then old(agents)[actor := Agent(target, None)] else old(agents)
    {
      var e := Overridden(actor, target, d);
      StoredKeepsGood(Contents(), e, None, d);
      var k := FindActive(rows, actor, |rows|);
      var previous := if k < |rows| then Some(rows[k].id) else None;
      CreateSnapshot(e, previous, d.expired, d.inserted);
      UpdateAgentCache(actor, target, None);
      return TrustScore(e.score, target, Some(d.id));
    }
  }

  // ----- runs --------------------------------------------------------------------------

  ghost predicate IsGood(s: State) {
    IsLedger(s.rows) && BandsFit(s.rows) && CacheAgrees(s.rows, s.agents)
  }

  lemma {:induction false} KeepsCache(s: State, e: Entry, probationUntil: Option<int>, d: Draw)
    requires IsLedger(s.rows) && CacheAgrees(s.rows, s.agents)
    ensures CacheAgrees(Stored(s, e, probationUntil, d).rows, Stored(s, e, probationUntil, d).agents)
  {
    ActiveIsLast(s.rows, e.actor);
    forall i: nat | i < |s.rows| && s.rows[i].actor == e.actor && s.rows[i].validUntil.None?
      ensures i == FindActive(s.rows, e.actor, |s.rows|)
    {
      assert ActiveIfNewest(s.rows, i);
    }
  }

  lemma {:induction false} StoredKeepsGood(s: State, e: Entry, probationUntil: Option<int>, d: Draw)
    requires IsGood(s) && IsFresh(s.rows, e.id) && NothingAfter(s.rows, d.expired) && d.expired <= d.inserted
    requires e.band == Probation || FromScore(e.score) == Some(e.band)
    ensures IsGood(Stored(s, e, probationUntil, d)) && NothingAfter(Stored(s, e, probationUntil, d).rows, d.inserted)
  {
    SupersededKeepsLedger(s.rows, e, d.expired, d.inserted);
    KeepsCache(s, e, probationUntil, d);
  }

  datatype Step =
    | ComputeAndStore(actor: string, inputs: RawInputs, draw: Draw)
    | OperatorOverride(actor: string, target: TrustBand, draw: Draw)

  function Apply(s: State, step: Step): State {
    match step
    case ComputeAndStore(actor, i, d) =>
      if actor !in s.agents then s
      else Stored(s, Computed(s.agents[actor], actor, i, d), s.agents[actor].probationUntil, d)
    case OperatorOverride(actor, target, d) => Stored(s, Overridden(actor, target, d), None, d)
  }

  function Run(s: State, steps: seq<Step>): State
    decreases |steps|
  {
    if steps == [] then s else Run(Apply(s, steps[0]), steps[1..])
  }

  /** One operation after another, each with an unused id, on a clock that does not go back. */
  ghost predicate IsSequential(s: State, steps: seq<Step>, time: int)
    decreases |steps|
  {
    steps == [] ||
    var d := steps[0].draw;
    && IsFresh(s.rows, d.id) && time <= d.expired <= d.inserted
    && IsSequential(Apply(s, steps[0]), steps[1..], d.inserted)
  }

  /** Over every sequential run each actor's snapshots stay one list with a single active end, the
      cached bands agree with it, and every band is that of its score or probation. */
  lemma {:induction false} EveryRunKeepsTheLedger(s: State, steps: seq<Step>, time: int)
    requires IsGood(s) && NothingAfter(s.rows, time) && IsSequential(s, steps, time)
    ensures IsGood(Run(s, steps))
    decreases |steps|
  {
    if steps != [] {
      var step := steps[0];
      match step {
        case ComputeAndStore(actor, i, d) =>
          if actor in s.agents {
            StoredKeepsGood(s, Computed(s.agents[actor], actor, i, d), s.agents[actor].probationUntil, d);
          }
        case OperatorOverride(actor, target, d) =>
          StoredKeepsGood(s, Overridden(actor, target, d), None, d);
      }
      EveryRunKeepsTheLedger(Apply(s, step), steps[1..], step.draw.inserted);
    }
  }

  /** The ledger is append-only: a run never drops or rewrites a snapshot, but for giving an active
      one its end. */
  lemma {:induction false} RunsOnlyAppend(s: State, steps: seq<Step>, i: nat)
    requires i < |s.rows|
    ensures i < |Run(s, steps).rows|
    ensures Run(s, steps).rows[i] == s.rows[i].(validUntil := Run(s, steps).rows[i].validUntil)
    ensures s.rows[i].validUntil.Some? ==> Run(s, steps).rows[i] == s.rows[i]
    decreases |steps|
  {
    if steps != [] {
      RunsOnlyAppend(Apply(s, steps[0]), steps[1..], i);
    }
  }
}

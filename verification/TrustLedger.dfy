/** The append-only ledger of trust snapshots and the band cached on each agent. */
module TrustLedger {
  import opened Common
  import opened Trust

  /** A row of `actor_trust_snapshots`.  No end of validity means active. */
  datatype Snapshot = Snapshot(
    id: int,
    actor: string,
    score: real,
    band: TrustBand,
    validFrom: int,
    validUntil: Option<int>,
    supersedes: Option<int>)

  /** What a row of `agents` caches. */
  datatype Agent = Agent(trustBand: TrustBand, probationUntil: Option<int>)

  /** Where the last row of an actor among the first `n` is; `n` if there is none. */
  function LastOf(rows: seq<Snapshot>, actor: string, n: nat): (k: nat)
    requires n <= |rows|
    ensures k <= n && (k < n ==> rows[k].actor == actor)
    ensures forall j | 0 <= j < n && (k < j || k == n) :: rows[j].actor != actor
  {
    if n == 0 then 0
    else if rows[n - 1].actor == actor then n - 1
    else var k := LastOf(rows, actor, n - 1); if k == n - 1 then n else k
  }

  ghost predicate IdsDiffer(rows: seq<Snapshot>) {
    forall i, j | 0 <= i < j < |rows| :: rows[i].id != rows[j].id
  }

  /** A row names the one before it, which ended no later than it began. */
  predicate LinkHolds(before: Snapshot, after: Snapshot) {
    && after.supersedes == Some(before.id)
    && before.validUntil.Some?
    && before.validFrom <= before.validUntil.value <= after.validFrom
  }

  /** A row supersedes its actor's last row before it, and nothing if it is the actor's first. */
  predicate LinkedAt(rows: seq<Snapshot>, j: nat)
    requires j < |rows|
  {
    var before := LastOf(rows, rows[j].actor, j);
    if before == j then rows[j].supersedes == None else LinkHolds(rows[before], rows[j])
  }

  /** A row is active if and only if it is its actor's newest. */
  predicate ActiveIfNewest(rows: seq<Snapshot>, i: nat)
    requires i < |rows|
  {
    rows[i].validUntil.None? <==> LastOf(rows, rows[i].actor, |rows|) == i
  }

  /** An actor's snapshots form one list from its first to the active one. */
  ghost predicate IsLedger(rows: seq<Snapshot>) {
    && IdsDiffer(rows)
    && (forall j: nat | j < |rows| :: LinkedAt(rows, j))
    && (forall i: nat | i < |rows| :: ActiveIfNewest(rows, i))
  }

  ghost predicate BandsFit(rows: seq<Snapshot>) {
    forall i | 0 <= i < |rows| :: rows[i].band == Probation || FromScore(rows[i].score) == Some(rows[i].band)
  }

  /** The cached band of an agent is that of its active snapshot, once it has one. */
  ghost predicate CacheAgrees(rows: seq<Snapshot>, agents: map<string, Agent>) {
    forall i | 0 <= i < |rows| && rows[i].validUntil.None? && rows[i].actor in agents ::
      agents[rows[i].actor].trustBand == rows[i].band
  }

  ghost predicate NothingAfter(rows: seq<Snapshot>, time: int) {
    forall i | 0 <= i < |rows| :: rows[i].validFrom <= time
  }

  ghost predicate IsFresh(rows: seq<Snapshot>, id: int) {
    forall i | 0 <= i < |rows| :: rows[i].id != id
  }

  // ----- storing a snapshot ------------------------------------------------------------

  /** Where an actor's active snapshot is; the number of rows if it has none. */
  function FindActive(rows: seq<Snapshot>, actor: string, n: nat): (k: nat)
    requires n <= |rows|
    ensures k <= n && (k < n ==> rows[k].actor == actor && rows[k].validUntil.None?)
    ensures forall j | 0 <= j < n && (k < j || k == n) :: !(rows[j].actor == actor && rows[j].validUntil.None?)
  {
    if n == 0 then 0
    else if rows[n - 1].actor == actor && rows[n - 1].validUntil.None? then n - 1
    else var k := FindActive(rows, actor, n - 1); if k == n - 1 then n else k
  }

  datatype Entry = Entry(id: int, actor: string, score: real, band: TrustBand)

  /** The table with the active snapshot of the actor ended at `expired`, and a new one from
      `inserted` on that names it. */
  function Superseded(rows: seq<Snapshot>, e: Entry, expired: int, inserted: int): seq<Snapshot> {
    var k := FindActive(rows, e.actor, |rows|);
    if k == |rows| then rows + [Snapshot(e.id, e.actor, e.score, e.band, inserted, None, None)] else
    rows[k := rows[k].(validUntil := Some(expired))]
      + [Snapshot(e.id, e.actor, e.score, e.band, inserted, None, Some(rows[k].id))]
  }

  /** In a ledger the active row of an actor is its last. */
  lemma {:induction false} ActiveIsLast(rows: seq<Snapshot>, actor: string)
    requires forall i: nat | i < |rows| :: ActiveIfNewest(rows, i)
    ensures FindActive(rows, actor, |rows|) == LastOf(rows, actor, |rows|)
  {
    var k, last := FindActive(rows, actor, |rows|), LastOf(rows, actor, |rows|);
    assert k < |rows| ==> ActiveIfNewest(rows, k);
    assert last < |rows| ==> ActiveIfNewest(rows, last);
  }

  /** Which rows an actor has does not depend on anything else in them. */
  lemma {:induction false} SameActorsSameLast(rows: seq<Snapshot>, more: seq<Snapshot>, actor: string, n: nat)
    requires n <= |rows| && n <= |more| && forall m | 0 <= m < n :: more[m].actor == rows[m].actor
    ensures LastOf(more, actor, n) == LastOf(rows, actor, n)
  {
    if n > 0 { SameActorsSameLast(rows, more, actor, n - 1); }
  }

  lemma {:induction false} KeepsLink(rows: seq<Snapshot>, e: Entry, expired: int, inserted: int, j: nat)
    requires forall i: nat | i < |rows| :: ActiveIfNewest(rows, i)
    requires NothingAfter(rows, expired) && expired <= inserted && j <= |rows| && (j < |rows| ==> LinkedAt(rows, j))
    ensures LinkedAt(Superseded(rows, e, expired, inserted), j)
  {
    var more := Superseded(rows, e, expired, inserted);
    SameActorsSameLast(rows, more, more[j].actor, j);
    ActiveIsLast(rows, e.actor);
    var before := LastOf(rows, more[j].actor, j);
    assert before < j ==> ActiveIfNewest(rows, before);
  }

  lemma {:induction false} KeepsNewest(rows: seq<Snapshot>, e: Entry, expired: int, inserted: int, i: nat)
    requires (forall m: nat | m < |rows| :: ActiveIfNewest(rows, m)) && i <= |rows|
    ensures ActiveIfNewest(Superseded(rows, e, expired, inserted), i)
  {
    var more := Superseded(rows, e, expired, inserted);
    SameActorsSameLast(rows, more, more[i].actor, |rows|);
    ActiveIsLast(rows, e.actor);
    assert i < |rows| ==> ActiveIfNewest(rows, i);
  }

  /** A new snapshot keeps each actor's snapshots one list. */
  lemma {:induction false} SupersededKeepsLedger(rows: seq<Snapshot>, e: Entry, expired: int, inserted: int)
    requires IsLedger(rows) && IsFresh(rows, e.id) && NothingAfter(rows, expired) && expired <= inserted
    ensures IsLedger(Superseded(rows, e, expired, inserted))
  {
    var more := Superseded(rows, e, expired, inserted);
    forall j: nat | j < |more| ensures LinkedAt(more, j) && ActiveIfNewest(more, j) {
      KeepsLink(rows, e, expired, inserted, j);
      KeepsNewest(rows, e, expired, inserted, j);
    }
  }

  // ----- what the list means -----------------------------------------------------------

  /** Validity intervals of an actor's snapshots do not overlap: each ends before a later one begins. */
  lemma {:induction false} IntervalsDoNotOverlap(rows: seq<Snapshot>, i: nat, j: nat)
    requires IsLedger(rows) && i < j < |rows| && rows[i].actor == rows[j].actor
    ensures rows[i].validUntil.Some? && rows[i].validFrom <= rows[i].validUntil.value <= rows[j].validFrom
    decreases j
  {
    assert LinkedAt(rows, j);
    var before := LastOf(rows, rows[j].actor, j);
    if i < before { IntervalsDoNotOverlap(rows, i, before); }
  }

  /** No actor has two active snapshots. */
  lemma {:induction false} OneActive(rows: seq<Snapshot>, i: nat, j: nat)
    requires IsLedger(rows) && i < |rows| && j < |rows|
    requires rows[i].actor == rows[j].actor && rows[i].validUntil.None? && rows[j].validUntil.None?
    ensures i == j
  {
    assert ActiveIfNewest(rows, i) && ActiveIfNewest(rows, j);
  }

  /** Where a snapshot id is; the number of rows if it is nowhere. */
  function FindId(rows: seq<Snapshot>, id: int, n: nat): (k: nat)
    requires n <= |rows|
    ensures k <= n && (k < n ==> rows[k].id == id) && (k == n ==> forall j | 0 <= j < n :: rows[j].id != id)
  {
    if n == 0 then 0
    else if rows[n - 1].id == id then n - 1
    else var k := FindId(rows, id, n - 1); if k == n - 1 then n else k
  }

  /** The rows met by following `supersedes` from row `i`, newest first. */
  function Walked(rows: seq<Snapshot>, i: nat): seq<nat>
    requires i < |rows|
    decreases i
  {
    match rows[i].supersedes
    case None => [i]
    case Some(id) =>
      var j := FindId(rows, id, |rows|);
      if j < i then [i] + Walked(rows, j) else [i]
  }

  ghost predicate Decreasing(positions: seq<nat>) {
    forall a, b | 0 <= a < b < |positions| :: positions[a] > positions[b]
  }

  /** The row named is the actor's row before. */
  lemma {:induction false} PointsBack(rows: seq<Snapshot>, i: nat)
    requires IsLedger(rows) && i < |rows|
    ensures var before := LastOf(rows, rows[i].actor, i);
            Walked(rows, i) == if before == i then [i] else [i] + Walked(rows, before)
  {
    assert LinkedAt(rows, i);
    var before := LastOf(rows, rows[i].actor, i);
    if before < i {
      assert FindId(rows, rows[before].id, |rows|) == before;
    }
  }

  /** Following `supersedes` from any snapshot visits exactly its actor's snapshots up to then,
      always going back and so never in a circle; from the active one it visits them all. */
  lemma {:induction false} PointersVisitEverySnapshot(rows: seq<Snapshot>, i: nat)
    requires IsLedger(rows) && i < |rows|
    ensures forall k: nat | k < |rows| :: k in Walked(rows, i) <==> k <= i && rows[k].actor == rows[i].actor
    ensures Decreasing(Walked(rows, i)) && Walked(rows, i)[0] == i
    ensures forall k | 0 <= k < |Walked(rows, i)| :: Walked(rows, i)[k] <= i
    decreases i
  {
    PointsBack(rows, i);
    var before := LastOf(rows, rows[i].actor, i);
    if before < i {
      PointersVisitEverySnapshot(rows, before);
    }
  }

}

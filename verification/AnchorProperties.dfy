/** What anchoring promises: when an anchor outlives later appends and signings, that tampering
    shows, and when signing the backlog covers it once and leaves nothing over. */
module AnchorProperties {
  import opened Common
  import opened Hashing
  import opened AuditChain
  import opened Anchoring

  // ----- runs of appends and signings --------------------------------------------------

  /** `sign_batch` computes its root before it stores it, and events may be appended in between:
      the root is the one of the first `seen` events of the log. */
  datatype Step =
    | Append(row: Row)
    | Sign(fromId: int, toId: int, tenant: Option<string>, seen: nat)
    | SignAll(batchSize: int, tenant: Option<string>)

  /** Appends draw larger ids than any before (AuditChain.LaterEventsHaveLargerIds).  Refused
      signings change nothing. */
  function Apply(c: Crypto, store: Store, step: Step): Store {
    match step
    case Append(row) =>
      if MaxId(store.log) < row.eventId then store.(log := store.log + [row]) else store
    case Sign(fromId, toId, tenant, seen) =>
      if toId < fromId || seen > |store.log| then store
      else store.(roots := Upsert(store.roots, ResultOf(c, store.log[..seen], fromId, toId), tenant))
    case SignAll(batchSize, tenant) =>
      if batchSize < 1 then store
      else store.(roots := UpsertAll(store.roots, Backlog(c, store, batchSize, tenant), tenant))
  }

  /** What `sign_all_unanchored` signs and returns. */
  function Backlog(c: Crypto, store: Store, batchSize: int, tenant: Option<string>): seq<AnchorResult>
    requires batchSize >= 1
  {
    Batches(c, store.log, LastAnchored(store.roots, tenant) + 1, MaxId(store.log), batchSize)
  }

  function Run(c: Crypto, store: Store, steps: seq<Step>): Store
    decreases |steps|
  {
    if steps == [] then store else Run(c, Apply(c, store, steps[0]), steps[1..])
  }

  // ----- anchors that last -------------------------------------------------------------

  /** A stored root still matches its range, and no later event can fall into the range. */
  ghost predicate Sealed(c: Crypto, store: Store, root: string) {
    && root in store.roots
    && store.roots[root].toId <= MaxId(store.log)
    && RootOf(c, store.log, store.roots[root].fromId, store.roots[root].toId) == root
  }

  /** Signing leaves rows that are stored with the range and tenant they have. */
  lemma {:induction false} UpsertAllKeepsRows(roots: map<string, RootRow>, results: seq<AnchorResult>,
                                              tenant: Option<string>, root: string)
    requires root in roots
    ensures var after := UpsertAll(roots, results, tenant);
            root in after && after[root] == roots[root].(signature := after[root].signature)
  {
    if results != [] { UpsertAllKeepsRows(roots, results[..|results| - 1], tenant, root); }
  }

  lemma {:induction false} StepKeepsSealed(c: Crypto, store: Store, step: Step, root: string)
    requires Sealed(c, store, root)
    ensures Sealed(c, Apply(c, store, step), root)
  {
    match step {
      case Append(row) => InRangeAppend(store.log, row, store.roots[root].fromId, store.roots[root].toId);
      case Sign(fromId, toId, tenant, seen) =>
      case SignAll(batchSize, tenant) =>
        if batchSize >= 1 { UpsertAllKeepsRows(store.roots, Backlog(c, store, batchSize, tenant), tenant, root); }
    }
  }

  lemma {:induction false} RunKeepsSealed(c: Crypto, store: Store, steps: seq<Step>, root: string)
    requires Sealed(c, store, root)
    ensures Sealed(c, Run(c, store, steps), root)
    decreases |steps|
  {
    if steps != [] {
      StepKeepsSealed(c, store, steps[0], root);
      RunKeepsSealed(c, Apply(c, store, steps[0]), steps[1..], root);
    }
  }

  /** The anchor of a result passes `verify_root` whatever is appended or signed from here on. */
  ghost predicate Lasts(c: Crypto, store: Store, r: AnchorResult) {
    forall steps :: Verifies(c, Run(c, store, steps), r.rootHash, r.signature)
  }

  lemma {:induction false} SealedLasts(c: Crypto, store: Store, r: AnchorResult)
    requires Sealed(c, store, r.rootHash) && IsAscii(r.rootHash) && r.signature == c.sign(Utf8(r.rootHash))
    ensures Lasts(c, store, r)
  {
    forall steps ensures Verifies(c, Run(c, store, steps), r.rootHash, r.signature) {
      RunKeepsSealed(c, store, steps, r.rootHash);
    }
  }

  /** An event that lands in the range stored under a root, and whose hash does not make the fold
      collide with what the range held before. */
  ghost predicate Lands(c: Crypto, store: Store, root: string, row: Row)
    requires root in store.roots
  {
    var fromId, toId := store.roots[root].fromId, store.roots[root].toId;
    && MaxId(store.log) < row.eventId && fromId <= row.eventId <= toId
    && CollisionFree(c.h, Messages(c.h, InRange(store.log, fromId, toId))
                        + Messages(c.h, InRange(store.log + [row], fromId, toId)))
  }

  lemma {:induction false} LandingBreaks(c: Crypto, store: Store, r: AnchorResult, row: Row)
    requires r.rootHash in store.roots && Lands(c, store, r.rootHash, row)
    requires RootOf(c, store.log, store.roots[r.rootHash].fromId, store.roots[r.rootHash].toId) == r.rootHash
    ensures !Verifies(c, Run(c, store, [Append(row)]), r.rootHash, r.signature)
  {
    var fromId, toId := store.roots[r.rootHash].fromId, store.roots[r.rootHash].toId;
    InRangeAppend(store.log, row, fromId, toId);
    RootInjective(c.h, InRange(store.log, fromId, toId), InRange(store.log + [row], fromId, toId));
    assert [Append(row)][1..] == [];
  }

  lemma {:induction false} LastsMeansSealed(c: Crypto, store: Store, r: AnchorResult, row: Row)
    requires Lasts(c, store, r)
    requires r.rootHash in store.roots && MaxId(store.log) < store.roots[r.rootHash].toId ==>
               Lands(c, store, r.rootHash, row)
    ensures Sealed(c, store, r.rootHash)
  {
    assert Run(c, store, []) == store;
    assert Verifies(c, Run(c, store, []), r.rootHash, r.signature);
    assert Verifies(c, Run(c, store, [Append(row)]), r.rootHash, r.signature);
    if MaxId(store.log) < store.roots[r.rootHash].toId {
      LandingBreaks(c, store, r, row);
    }
  }

  /** When the row is written, either the root is not stored, no event has come into the range since
      it was read and none can come later, or it is stored over a range of which that is so.  Where
      nothing is appended during the call, a caller can look this up before it. */
  ghost predicate WillBeSealed(c: Crypto, store: Store, fromId: int, toId: int, seen: nat)
    requires seen <= |store.log|
  {
    var root := RootOf(c, store.log[..seen], fromId, toId);
    if root in store.roots then Sealed(c, store, root)
    else toId <= MaxId(store.log) && RootOf(c, store.log, fromId, toId) == root
  }

  /** An anchor returned by `sign_batch` lasts if and only if that is so.  Where it is not, `row`
      is an event that can still land in the range stored under the root. */
  lemma {:induction false} AnchorLastsWhen(c: Crypto, store: Store, fromId: int, toId: int, tenant: Option<string>,
                                           seen: nat, row: Row)
    requires fromId <= toId && seen <= |store.log|
    requires var root := RootOf(c, store.log[..seen], fromId, toId);
             var after := Apply(c, store, Sign(fromId, toId, tenant, seen));
             MaxId(store.log) < after.roots[root].toId ==> Lands(c, after, root, row)
    ensures Lasts(c, Apply(c, store, Sign(fromId, toId, tenant, seen)), ResultOf(c, store.log[..seen], fromId, toId))
            <==> WillBeSealed(c, store, fromId, toId, seen)
  {
    var after := Apply(c, store, Sign(fromId, toId, tenant, seen));
    var r := ResultOf(c, store.log[..seen], fromId, toId);
    assert WillBeSealed(c, store, fromId, toId, seen) <==> Sealed(c, after, r.rootHash);
    if Sealed(c, after, r.rootHash) {
      SealedLasts(c, after, r);
    } else if Lasts(c, after, r) {
      LastsMeansSealed(c, after, r, row);
    }
  }

  /** The range of the call itself need not decide: signed over an open range first, the root of a
      one-event log breaks with the next event although the second call's range is within the log. */
  lemma {:induction false} RangeWithinTheLogIsNotEnough(c: Crypto, log: seq<Row>, second: Row, tenant: Option<string>)
    requires |log| == 1 && log[0].eventId == 1 && second.eventId == 2
    requires CollisionFree(c.h, Messages(c.h, [log[0].eventHash])
                              + Messages(c.h, [log[0].eventHash, second.eventHash]))
    ensures var open := Apply(c, Store(log, map[]), Sign(1, 2, tenant, 1));
            && 1 <= MaxId(open.log)
            && !Lasts(c, Apply(c, open, Sign(1, 1, tenant, 1)), ResultOf(c, open.log, 1, 1))
  {
    var first := log[0];
    assert log == [] + [first] && log[..1] == log;
    var open := Apply(c, Store(log, map[]), Sign(1, 2, tenant, 1));
    var after, r := Apply(c, open, Sign(1, 1, tenant, 1)), ResultOf(c, open.log, 1, 1);
    InRangeAppend([], first, 1, 1);
    InRangeAppend([], first, 1, 2);
    InRangeAppend(log, second, 1, 2);
    assert [] + [first.eventHash] == [first.eventHash];
    assert [first.eventHash] + [second.eventHash] == [first.eventHash, second.eventHash];
    LandingBreaks(c, after, r, second);
    assert !Verifies(c, Run(c, after, [Append(second)]), r.rootHash, r.signature);
  }

  // ----- what an earlier log showed ----------------------------------------------------

  lemma {:induction false} InRangeCapped(log: seq<Row>, fromId: int, toId: int, last: int)
    requires forall i | 0 <= i < |log| :: log[i].eventId <= last
    ensures InRange(log, fromId, toId) == InRange(log, fromId, Min(toId, last))
  {
    if log != [] { InRangeCapped(log[..|log| - 1], fromId, toId, last); }
  }

  /** What a range held when the log was shorter it still holds up to the end the log then had. */
  lemma {:induction false} InRangeOfPrefix(log: seq<Row>, n: nat, fromId: int, toId: int)
    requires IdsIncrease(log) && n <= |log|
    ensures InRange(log[..n], fromId, toId) == InRange(log, fromId, Min(toId, MaxId(log[..n])))
  {
    if n == |log| {
      assert log[..n] == log;
      InRangeCapped(log, fromId, toId, MaxId(log));
    } else {
      var m := |log| - 1;
      assert log[..m][..n] == log[..n];
      InRangeOfPrefix(log[..m], n, fromId, toId);
      assert MaxId(log[..n]) < log[m].eventId;
    }
  }

  // ----- runs that sign within the log -------------------------------------------------

  /** The range ends within the log as it is read. */
  predicate EndsWithin(log: seq<Row>, toId: int, seen: nat) {
    seen <= |log| && toId <= MaxId(log[..seen])
  }

  /** Every single signing of the run ends its range within the log as it reads it; signing the
      backlog always does. */
  ghost predicate Guarded(c: Crypto, store: Store, steps: seq<Step>)
    decreases |steps|
  {
    steps == [] ||
    (&& (steps[0].Sign? ==> EndsWithin(store.log, steps[0].toId, steps[0].seen))
     && Guarded(c, Apply(c, store, steps[0]), steps[1..]))
  }

  ghost predicate AllSealed(c: Crypto, store: Store) {
    forall root | root in store.roots :: Sealed(c, store, root)
  }

  lemma {:induction false} SigningKeepsAllSealed(c: Crypto, log: seq<Row>, roots: map<string, RootRow>,
                                                 results: seq<AnchorResult>, tenant: Option<string>)
    requires AllSealed(c, Store(log, roots)) && AreHonest(c, log, results)
    requires forall i | 0 <= i < |results| :: results[i].toId <= MaxId(log)
    ensures AllSealed(c, Store(log, UpsertAll(roots, results, tenant)))
    ensures forall i | 0 <= i < |results| :: results[i].rootHash in UpsertAll(roots, results, tenant)
  {
    if results != [] {
      var n := |results| - 1;
      SigningKeepsAllSealed(c, log, roots, results[..n], tenant);
      var before, after := UpsertAll(roots, results[..n], tenant), UpsertAll(roots, results, tenant);
      forall root | root in after ensures Sealed(c, Store(log, after), root) {
        if root in before { assert Sealed(c, Store(log, before), root); }
      }
      forall i | 0 <= i < |results| ensures results[i].rootHash in after {
        if i < n { assert results[..n][i].rootHash in before; }
      }
    }
  }

  lemma {:induction false} BacklogIsWithin(c: Crypto, store: Store, batchSize: int, tenant: Option<string>)
    requires batchSize >= 1
    ensures AreHonest(c, store.log, Backlog(c, store, batchSize, tenant))
    ensures forall i | 0 <= i < |Backlog(c, store, batchSize, tenant)| ::
              Backlog(c, store, batchSize, tenant)[i].toId <= MaxId(store.log)
  {
    var first, last := LastAnchored(store.roots, tenant) + 1, MaxId(store.log);
    BatchesAreTiles(c, store.log, first, last, batchSize);
    var next := if last < first then first else last + 1;
    TilesAreConsecutive(Backlog(c, store, batchSize, tenant), first, next, last, batchSize);
  }

  /** For a range within the log it makes no difference how much is appended before the range is read:
      root, count and signature are the same. */
  lemma {:induction false} AppendsDoNotDisturb(c: Crypto, log: seq<Row>, fromId: int, toId: int, seen: nat)
    requires IdsIncrease(log) && EndsWithin(log, toId, seen)
    ensures toId <= MaxId(log) && ResultOf(c, log[..seen], fromId, toId) == ResultOf(c, log, fromId, toId)
  {
    InRangeOfPrefix(log, seen, fromId, toId);
    assert seen > 0 ==> log[..seen][seen - 1] == log[seen - 1];
  }

  lemma {:induction false} GuardedStepKeepsAllSealed(c: Crypto, store: Store, step: Step)
    requires AllSealed(c, store) && IdsIncrease(store.log)
    requires step.Sign? ==> EndsWithin(store.log, step.toId, step.seen)
    ensures AllSealed(c, Apply(c, store, step))
  {
    if step.SignAll? && step.batchSize >= 1 {
      BacklogIsWithin(c, store, step.batchSize, step.tenant);
      SigningKeepsAllSealed(c, store.log, store.roots, Backlog(c, store, step.batchSize, step.tenant), step.tenant);
    } else {
      if step.Sign? { AppendsDoNotDisturb(c, store.log, step.fromId, step.toId, step.seen); }
      forall root | root in Apply(c, store, step).roots ensures Sealed(c, Apply(c, store, step), root) {
        if root in store.roots { StepKeepsSealed(c, store, step, root); }
      }
    }
  }

  lemma {:induction false} GuardedRunKeepsAllSealed(c: Crypto, store: Store, steps: seq<Step>)
    requires AllSealed(c, store) && IdsIncrease(store.log) && Guarded(c, store, steps)
    ensures AllSealed(c, Run(c, store, steps)) && IdsIncrease(Run(c, store, steps).log)
    decreases |steps|
  {
    if steps != [] {
      GuardedStepKeepsAllSealed(c, store, steps[0]);
      GuardedRunKeepsAllSealed(c, Apply(c, store, steps[0]), steps[1..]);
    }
  }

  /** In a run all of whose signings end within the log as they read it every anchor returned lasts,
      whatever is appended between reading the log and storing the root. */
  lemma {:induction false} EveryAnchorLasts(c: Crypto, log: seq<Row>, before: seq<Step>, fromId: int, toId: int,
                                            tenant: Option<string>, seen: nat)
    requires IdsIncrease(log) && Guarded(c, Store(log, map[]), before) && fromId <= toId
    requires EndsWithin(Run(c, Store(log, map[]), before).log, toId, seen)
    ensures var store := Run(c, Store(log, map[]), before);
            Lasts(c, Apply(c, store, Sign(fromId, toId, tenant, seen)), ResultOf(c, store.log[..seen], fromId, toId))
  {
    var store := Run(c, Store(log, map[]), before);
    GuardedRunKeepsAllSealed(c, Store(log, map[]), before);
    GuardedStepKeepsAllSealed(c, store, Sign(fromId, toId, tenant, seen));
    SealedLasts(c, Apply(c, store, Sign(fromId, toId, tenant, seen)), ResultOf(c, store.log[..seen], fromId, toId));
  }

  /** So does every anchor that signing the backlog returns. */
  lemma {:induction false} EveryBatchLasts(c: Crypto, log: seq<Row>, before: seq<Step>, batchSize: int,
                                           tenant: Option<string>, i: nat)
    requires IdsIncrease(log) && Guarded(c, Store(log, map[]), before) && batchSize >= 1
    requires i < |Backlog(c, Run(c, Store(log, map[]), before), batchSize, tenant)|
    ensures var store := Run(c, Store(log, map[]), before);
            Lasts(c, Apply(c, store, SignAll(batchSize, tenant)), Backlog(c, store, batchSize, tenant)[i])
  {
    var store := Run(c, Store(log, map[]), before);
    var results := Backlog(c, store, batchSize, tenant);
    GuardedRunKeepsAllSealed(c, Store(log, map[]), before);
    BacklogIsWithin(c, store, batchSize, tenant);
    SigningKeepsAllSealed(c, store.log, store.roots, results, tenant);
    HonestAt(c, store.log, results, i);
    SealedLasts(c, Apply(c, store, SignAll(batchSize, tenant)), results[i]);
  }

  lemma {:induction false} HonestAt(c: Crypto, log: seq<Row>, results: seq<AnchorResult>, i: nat)
    requires AreHonest(c, log, results) && i < |results|
    ensures results[i] == ResultOf(c, log, results[i].fromId, results[i].toId)
  {
    if i < |results| - 1 { HonestAt(c, log, results[..|results| - 1], i); }
  }

  /** Against any other log, an anchor that verified before verifies if and only if its range
      still holds the same hashes in the same order: a hash changed, dropped or added shows. */
  lemma {:induction false} TamperingShows(c: Crypto, store: Store, root: string, signature: string, other: seq<Row>)
    requires Verifies(c, store, root, signature)
    requires var row := store.roots[root];
             CollisionFree(c.h, Messages(c.h, InRange(store.log, row.fromId, row.toId))
                              + Messages(c.h, InRange(other, row.fromId, row.toId)))
    ensures Verifies(c, store.(log := other), root, signature) <==>
            InRange(other, store.roots[root].fromId, store.roots[root].toId)
              == InRange(store.log, store.roots[root].fromId, store.roots[root].toId)
  {
    var row := store.roots[root];
    RootInjective(c.h, InRange(store.log, row.fromId, row.toId), InRange(other, row.fromId, row.toId));
  }

  // ----- signing the backlog -----------------------------------------------------------

  /** The hashes in the ranges of a list of results, one range after the other. */
  function Covered(log: seq<Row>, results: seq<AnchorResult>): seq<Digest> {
    if results == [] then [] else
    var n := |results| - 1;
    Covered(log, results[..n]) + InRange(log, results[n].fromId, results[n].toId)
  }

  lemma {:induction false} OneMoreHash(whole: seq<Digest>, left: seq<Digest>, right: seq<Digest>, hash: Digest)
    requires whole == left + right
    ensures whole + [hash] == left + (right + [hash])
    ensures right == [] ==> whole + [hash] == left + [hash] + right
  {
  }

  lemma {:induction false} InRangeSplit(log: seq<Row>, a: int, b: int, c: int)
    requires IdsIncrease(log) && a <= b + 1 && b <= c
    ensures InRange(log, a, c) == InRange(log, a, b) + InRange(log, b + 1, c)
  {
    if log != [] {
      var n := |log| - 1;
      InRangeSplit(log[..n], a, b, c);
      var left, right := InRange(log[..n], a, b), InRange(log[..n], b + 1, c);
      if log[n].eventId <= b { InRangeBelow(log[..n], b + 1, c); }
      OneMoreHash(left + right, left, right, log[n].eventHash);
    }
  }

  lemma {:induction false} InRangeBelow(log: seq<Row>, fromId: int, toId: int)
    requires forall i | 0 <= i < |log| :: log[i].eventId < fromId
    ensures InRange(log, fromId, toId) == []
  {
    if log != [] {
      InRangeBelow(log[..|log| - 1], fromId, toId);
    }
  }

  lemma {:induction false} InRangeEmpty(log: seq<Row>, fromId: int, toId: int)
    requires toId < fromId
    ensures InRange(log, fromId, toId) == []
  {
    if log != [] {
      InRangeEmpty(log[..|log| - 1], fromId, toId);
    }
  }

  lemma {:induction false} TilesCover(log: seq<Row>, results: seq<AnchorResult>, first: int, next: int,
                                      maxEventId: int, batchSize: int)
    requires IdsIncrease(log) && TilesUpTo(results, first, next, maxEventId, batchSize)
    ensures first <= next && Covered(log, results) == InRange(log, first, next - 1)
  {
    if results == [] {
      InRangeEmpty(log, first, next - 1);
    } else {
      var n := |results| - 1;
      var last := results[n];
      TilesCover(log, results[..n], first, last.fromId, maxEventId, batchSize);
      InRangeSplit(log, first, last.fromId - 1, last.toId);
      assert Covered(log, results) == Covered(log, results[..n]) + InRange(log, last.fromId, last.toId);
    }
  }

  /** Read position by position: each batch starts right after the one before, none is longer
      than the batch size, and all but the last are exactly that long. */
  lemma {:induction false} TilesAreConsecutive(results: seq<AnchorResult>, first: int, next: int,
                                               maxEventId: int, batchSize: int)
    requires TilesUpTo(results, first, next, maxEventId, batchSize)
    ensures forall i | 0 <= i < |results| :: 1 <= results[i].toId - results[i].fromId + 1 <= batchSize
    ensures forall i, j | 0 <= i < j < |results| && j == i + 1 ::
              results[j].fromId == results[i].toId + 1 && results[i].toId - results[i].fromId + 1 == batchSize
    ensures results != [] ==> results[0].fromId == first && results[|results| - 1].toId == next - 1
    ensures forall i | 0 <= i < |results| :: results[i].toId <= maxEventId
  {
    if results != [] {
      var n := |results| - 1;
      TilesAreConsecutive(results[..n], first, results[n].fromId, maxEventId, batchSize);
    }
  }

  function EventCounts(results: seq<AnchorResult>): nat {
    if results == [] then 0 else EventCounts(results[..|results| - 1]) + results[|results| - 1].eventCount
  }

  lemma {:induction false} CountsAreCovered(c: Crypto, log: seq<Row>, results: seq<AnchorResult>)
    requires AreHonest(c, log, results)
    ensures EventCounts(results) == |Covered(log, results)|
  {
    if results != [] {
      CountsAreCovered(c, log, results[..|results| - 1]);
    }
  }

  /** Every event of the backlog is in exactly one batch, in log order, and the counts returned
      add up to the number of events that were not anchored. */
  lemma {:induction false} BatchesCoverTheBacklogOnce(c: Crypto, store: Store, batchSize: int, tenant: Option<string>,
                                                      results: seq<AnchorResult>)
    requires IdsIncrease(store.log) && AreHonest(c, store.log, results)
    requires Tiles(results, LastAnchored(store.roots, tenant) + 1, MaxId(store.log), batchSize)
    ensures Covered(store.log, results) == InRange(store.log, LastAnchored(store.roots, tenant) + 1, MaxId(store.log))
    ensures EventCounts(results) == |InRange(store.log, LastAnchored(store.roots, tenant) + 1, MaxId(store.log))|
  {
    var first, last := LastAnchored(store.roots, tenant) + 1, MaxId(store.log);
    TilesCover(store.log, results, first, if last < first then first else last + 1, last, batchSize);
    if last < first {
      InRangeEmpty(store.log, first, last);
      InRangeEmpty(store.log, first, first - 1);
    }
    CountsAreCovered(c, store.log, results);
  }

  // ----- a second call -----------------------------------------------------------------

  ghost predicate FoldsDoNotCollide(c: Crypto, log: seq<Row>) {
    forall a, b, x, y :: CollisionFree(c.h, Messages(c.h, InRange(log, a, b)) + Messages(c.h, InRange(log, x, y)))
  }

  lemma {:induction false} HashInRange(log: seq<Row>, k: nat, fromId: int, toId: int)
    requires k < |log| && HashesUnique(log)
    ensures log[k].eventHash in InRange(log, fromId, toId) <==> fromId <= log[k].eventId <= toId
  {
    var n := |log| - 1;
    if k < n {
      HashInRange(log[..n], k, fromId, toId);
    } else {
      NotInRange(log[..n], log[n].eventHash, fromId, toId);
    }
  }

  lemma {:induction false} NotInRange(log: seq<Row>, hash: Digest, fromId: int, toId: int)
    requires forall i | 0 <= i < |log| :: log[i].eventHash != hash
    ensures hash !in InRange(log, fromId, toId)
  {
    if log != [] {
      NotInRange(log[..|log| - 1], hash, fromId, toId);
    }
  }

  lemma {:induction false} LastAnchoredAtLeast(roots: map<string, RootRow>, tenant: Option<string>, root: string)
    requires root in roots && roots[root].tenant == tenant
    ensures roots[root].toId <= LastAnchored(roots, tenant)
  {
    assert roots[root].toId in ToIds(roots, tenant);
  }

  /** Ranges with the same root both reach the newest event or neither does. */
  lemma {:induction false} SameRootSameEnd(c: Crypto, log: seq<Row>, fromId: int, toId: int, x: int, y: int)
    requires log != [] && HashesUnique(log) && FoldsDoNotCollide(c, log)
    requires RootOf(c, log, fromId, toId) == RootOf(c, log, x, y) && fromId <= MaxId(log) <= toId
    ensures x <= MaxId(log) <= y
  {
    RootInjective(c.h, InRange(log, fromId, toId), InRange(log, x, y));
    HashInRange(log, |log| - 1, fromId, toId);
    HashInRange(log, |log| - 1, x, y);
  }

  /** All rows of a tenant end before an id. */
  ghost predicate EndsBefore(roots: map<string, RootRow>, tenant: Option<string>, id: int) {
    forall root | root in roots && roots[root].tenant == tenant :: roots[root].toId < id
  }

  lemma {:induction false} UpsertAllEndsBefore(roots: map<string, RootRow>, results: seq<AnchorResult>,
                                               tenant: Option<string>, id: int)
    requires EndsBefore(roots, tenant, id) && forall i | 0 <= i < |results| :: results[i].toId < id
    ensures EndsBefore(UpsertAll(roots, results, tenant), tenant, id)
  {
    if results != [] { UpsertAllEndsBefore(roots, results[..|results| - 1], tenant, id); }
  }

  lemma {:induction false} NewRoots(roots: map<string, RootRow>, results: seq<AnchorResult>, tenant: Option<string>,
                                    root: string)
    requires root in UpsertAll(roots, results, tenant)
    ensures root in roots || exists i :: 0 <= i < |results| && results[i].rootHash == root
  {
    if results != [] {
      var n := |results| - 1;
      if root != results[n].rootHash {
        NewRoots(roots, results[..n], tenant, root);
        if root !in roots {
          var i :| 0 <= i < n && results[..n][i].rootHash == root;
          assert results[i].rootHash == root;
        }
      }
    }
  }

  lemma {:induction false} LastAnchoredEndsBefore(roots: map<string, RootRow>, tenant: Option<string>, id: int)
    requires 0 < id
    ensures EndsBefore(roots, tenant, id) <==> LastAnchored(roots, tenant) < id
  {
    if LastAnchored(roots, tenant) < id {
      forall root | root in roots && roots[root].tenant == tenant ensures roots[root].toId < id {
        LastAnchoredAtLeast(roots, tenant, root);
      }
    }
  }

  /** The shape of a list of batches that is not empty. */
  lemma {:induction false} LastBatch(results: seq<AnchorResult>, first: int, last: int, batchSize: int)
    requires Tiles(results, first, last, batchSize)
    ensures results == [] <==> last < first
    ensures results != [] ==> results[|results| - 1].fromId <= last == results[|results| - 1].toId
    ensures forall i | 0 <= i < |results| - 1 :: results[i].toId < last
  {
    TilesAreConsecutive(results, first, if last < first then first else last + 1, last, batchSize);
    EarlierBatches(results, first, if last < first then first else last + 1, last, batchSize);
    if results != [] {
      var n := |results| - 1;
      EarlierBatches(results[..n], first, results[n].fromId, last, batchSize);
      assert forall i | 0 <= i < n :: results[..n][i] == results[i];
    }
  }

  lemma {:induction false} EarlierBatches(results: seq<AnchorResult>, first: int, next: int, last: int, batchSize: int)
    requires TilesUpTo(results, first, next, last, batchSize)
    ensures first <= next && (results == [] <==> first == next)
    ensures forall i | 0 <= i < |results| :: results[i].toId < next
  {
    if results != [] {
      var n := |results| - 1;
      EarlierBatches(results[..n], first, results[n].fromId, last, batchSize);
      forall i | 0 <= i < |results| ensures results[i].toId < next {
        if i < n { assert results[..n][i] == results[i]; }
      }
    }
  }

  /** The last batch is the first to store its root, unless it was stored before the call. */
  lemma {:induction false} LastRootIsNew(c: Crypto, log: seq<Row>, roots: map<string, RootRow>,
                                         results: seq<AnchorResult>, first: int, batchSize: int, tenant: Option<string>)
    requires log != [] && HashesUnique(log) && FoldsDoNotCollide(c, log) && results != []
    requires AreHonest(c, log, results) && Tiles(results, first, MaxId(log), batchSize)
    requires results[|results| - 1].rootHash !in roots
    ensures results[|results| - 1].rootHash !in UpsertAll(roots, results[..|results| - 1], tenant)
  {
    var n := |results| - 1;
    LastBatch(results, first, MaxId(log), batchSize);
    if results[n].rootHash in UpsertAll(roots, results[..n], tenant) {
      NewRoots(roots, results[..n], tenant, results[n].rootHash);
      var i :| 0 <= i < n && results[..n][i].rootHash == results[n].rootHash;
      HonestAt(c, log, results, i);
      SameRootSameEnd(c, log, results[n].fromId, results[n].toId, results[i].fromId, results[i].toId);
    }
  }

  /** Signing the backlog of a log anchors all of it for the tenant if and only if there was none, or
      no row had the root of its last batch before.  That is the conflict clause: such a row keeps the
      range and the tenant it has. */
  lemma {:induction false} BacklogAnchoredWhen(c: Crypto, store: Store, batchSize: int, tenant: Option<string>,
                                               results: seq<AnchorResult>)
    requires store.log != [] && IdsIncrease(store.log) && HashesUnique(store.log) && FoldsDoNotCollide(c, store.log)
    requires AreHonest(c, store.log, results)
    requires Tiles(results, LastAnchored(store.roots, tenant) + 1, MaxId(store.log), batchSize)
    ensures MaxId(store.log) <= LastAnchored(UpsertAll(store.roots, results, tenant), tenant) <==>
            results == [] || results[|results| - 1].rootHash !in store.roots
  {
    var last := MaxId(store.log);
    LastBatch(results, LastAnchored(store.roots, tenant) + 1, last, batchSize);
    if results != [] {
      var n := |results| - 1;
      var root := results[n].rootHash;
      if root in store.roots {
        UpsertAllKeepsRows(store.roots, results[..n], tenant, root);
        LastAnchoredEndsBefore(store.roots, tenant, last);
        UpsertAllEndsBefore(store.roots, results[..n], tenant, last);
        LastAnchoredEndsBefore(UpsertAll(store.roots, results, tenant), tenant, last);
      } else {
        LastRootIsNew(c, store.log, store.roots, results, LastAnchored(store.roots, tenant) + 1, batchSize, tenant);
        LastAnchoredAtLeast(UpsertAll(store.roots, results, tenant), tenant, root);
      }
    }
  }

  /** The store after signing the backlog. */
  function Signed(store: Store, results: seq<AnchorResult>, tenant: Option<string>): Store {
    store.(roots := UpsertAll(store.roots, results, tenant))
  }

  /** So an immediate second call returns no batch, whatever its batch size, in exactly those cases;
      ranges that fall into gaps of the id sequence and share the empty root do not matter. */
  lemma {:induction false} SecondCallFindsNothing(c: Crypto, store: Store, batchSize: int, tenant: Option<string>,
                                                  results: seq<AnchorResult>, again: int, second: seq<AnchorResult>)
    requires store.log != [] && IdsIncrease(store.log) && HashesUnique(store.log) && FoldsDoNotCollide(c, store.log)
    requires AreHonest(c, store.log, results)
    requires Tiles(results, LastAnchored(store.roots, tenant) + 1, MaxId(store.log), batchSize)
    requires Tiles(second, LastAnchored(Signed(store, results, tenant).roots, tenant) + 1, MaxId(store.log), again)
    ensures second == [] <==> results == [] || results[|results| - 1].rootHash !in store.roots
  {
    BacklogAnchoredWhen(c, store, batchSize, tenant, results);
    LastBatch(second, LastAnchored(Signed(store, results, tenant).roots, tenant) + 1, MaxId(store.log), again);
  }

  // ----- one tenant --------------------------------------------------------------------

  ghost predicate OnlyFor(steps: seq<Step>, tenant: Option<string>) {
    forall i | 0 <= i < |steps| && !steps[i].Append? :: steps[i].tenant == tenant
  }

  ghost predicate OwnRows(roots: map<string, RootRow>, tenant: Option<string>) {
    forall root | root in roots :: roots[root].tenant == tenant
  }

  lemma {:induction false} UpsertAllKeepsOwnRows(roots: map<string, RootRow>, results: seq<AnchorResult>,
                                                 tenant: Option<string>)
    requires OwnRows(roots, tenant)
    ensures OwnRows(UpsertAll(roots, results, tenant), tenant)
  {
    if results != [] { UpsertAllKeepsOwnRows(roots, results[..|results| - 1], tenant); }
  }

  lemma {:induction false} RunKeepsOwnRows(c: Crypto, store: Store, steps: seq<Step>, tenant: Option<string>)
    requires OwnRows(store.roots, tenant) && OnlyFor(steps, tenant)
    ensures OwnRows(Run(c, store, steps).roots, tenant)
    decreases |steps|
  {
    if steps != [] {
      var step := steps[0];
      if step.SignAll? && step.batchSize >= 1 {
        UpsertAllKeepsOwnRows(store.roots, Backlog(c, store, step.batchSize, tenant), tenant);
      }
      RunKeepsOwnRows(c, Apply(c, store, step), steps[1..], tenant);
    }
  }

  /** A stored root is that of its range in some earlier log. */
  ghost predicate RootedAt(c: Crypto, log: seq<Row>, roots: map<string, RootRow>, root: string, n: nat)
    requires root in roots
  {
    n <= |log| && RootOf(c, log[..n], roots[root].fromId, roots[root].toId) == root
  }

  ghost predicate Rooted(c: Crypto, log: seq<Row>, roots: map<string, RootRow>) {
    forall root | root in roots :: exists n: nat :: RootedAt(c, log, roots, root, n)
  }

  lemma {:induction false} AppendKeepsRooted(c: Crypto, store: Store, row: Row)
    requires Rooted(c, store.log, store.roots)
    ensures Rooted(c, store.log + [row], store.roots)
  {
    forall root | root in store.roots ensures exists n: nat :: RootedAt(c, store.log + [row], store.roots, root, n) {
      var n: nat :| RootedAt(c, store.log, store.roots, root, n);
      assert (store.log + [row])[..n] == store.log[..n];
      assert RootedAt(c, store.log + [row], store.roots, root, n);
    }
  }

  lemma {:induction false} UpsertKeepsRooted(c: Crypto, log: seq<Row>, roots: map<string, RootRow>, r: AnchorResult,
                                             tenant: Option<string>, seen: nat)
    requires Rooted(c, log, roots) && seen <= |log| && r == ResultOf(c, log[..seen], r.fromId, r.toId)
    ensures Rooted(c, log, Upsert(roots, r, tenant))
  {
    var after := Upsert(roots, r, tenant);
    forall root | root in after ensures exists n: nat :: RootedAt(c, log, after, root, n) {
      if root in roots {
        var n: nat :| RootedAt(c, log, roots, root, n);
        assert RootedAt(c, log, after, root, n);
      } else {
        assert RootedAt(c, log, after, root, seen);
      }
    }
  }

  lemma {:induction false} UpsertAllKeepsRooted(c: Crypto, log: seq<Row>, roots: map<string, RootRow>,
                                                results: seq<AnchorResult>, tenant: Option<string>)
    requires Rooted(c, log, roots) && AreHonest(c, log, results)
    ensures Rooted(c, log, UpsertAll(roots, results, tenant))
  {
    if results != [] {
      var n := |results| - 1;
      UpsertAllKeepsRooted(c, log, roots, results[..n], tenant);
      assert log[..|log|] == log;
      UpsertKeepsRooted(c, log, UpsertAll(roots, results[..n], tenant), results[n], tenant, |log|);
    }
  }

  lemma {:induction false} StepKeepsRooted(c: Crypto, store: Store, step: Step)
    requires Rooted(c, store.log, store.roots)
    ensures Rooted(c, Apply(c, store, step).log, Apply(c, store, step).roots)
  {
    match step {
      case Append(row) => AppendKeepsRooted(c, store, row);
      case Sign(fromId, toId, tenant, seen) =>
        if seen <= |store.log| {
          UpsertKeepsRooted(c, store.log, store.roots, ResultOf(c, store.log[..seen], fromId, toId), tenant, seen);
        }
      case SignAll(batchSize, tenant) =>
        if batchSize >= 1 {
          BacklogIsWithin(c, store, batchSize, tenant);
          UpsertAllKeepsRooted(c, store.log, store.roots, Backlog(c, store, batchSize, tenant), tenant);
        }
    }
  }

  lemma {:induction false} RunKeepsRooted(c: Crypto, store: Store, steps: seq<Step>)
    requires Rooted(c, store.log, store.roots)
    ensures Rooted(c, Run(c, store, steps).log, Run(c, store, steps).roots)
    decreases |steps|
  {
    if steps != [] {
      StepKeepsRooted(c, store, steps[0]);
      RunKeepsRooted(c, Apply(c, store, steps[0]), steps[1..]);
    }
  }

  /** With a single tenant id that is always so: after any run of appends and signings, whatever ranges
      they were asked for, signing the backlog leaves a second call nothing. */
  lemma {:induction false} OneTenantCatchesUp(c: Crypto, log: seq<Row>, steps: seq<Step>, store: Store,
      tenant: Option<string>, batchSize: int, results: seq<AnchorResult>, again: int, second: seq<AnchorResult>)
    requires OnlyFor(steps, tenant) && store == Run(c, Store(log, map[]), steps)
    requires store.log != [] && IdsIncrease(store.log) && HashesUnique(store.log) && FoldsDoNotCollide(c, store.log)
    requires AreHonest(c, store.log, results)
    requires Tiles(results, LastAnchored(store.roots, tenant) + 1, MaxId(store.log), batchSize)
    requires Tiles(second, LastAnchored(Signed(store, results, tenant).roots, tenant) + 1, MaxId(store.log), again)
    ensures second == []
  {
    RunKeepsRooted(c, Store(log, map[]), steps);
    RunKeepsOwnRows(c, Store(log, map[]), steps, tenant);
    if results != [] { OwnRootIsBehind(c, store, batchSize, tenant, results); }
    SecondCallFindsNothing(c, store, batchSize, tenant, results, again, second);
  }

  /** A stored root is that of its range in the present log, up to some id. */
  lemma {:induction false} RootedNow(c: Crypto, log: seq<Row>, roots: map<string, RootRow>, root: string)
      returns (end: int)
    requires IdsIncrease(log) && Rooted(c, log, roots) && root in roots
    ensures end <= roots[root].toId && RootOf(c, log, roots[root].fromId, end) == root
  {
    var n: nat :| RootedAt(c, log, roots, root, n);
    end := Min(roots[root].toId, MaxId(log[..n]));
    InRangeOfPrefix(log, n, roots[root].fromId, roots[root].toId);
  }

  /** A row with the root of a batch that holds the newest event reaches that event itself. */
  lemma {:induction false} ReachesTheEnd(c: Crypto, log: seq<Row>, roots: map<string, RootRow>, fromId: int, toId: int,
                                         root: string)
    requires log != [] && IdsIncrease(log) && HashesUnique(log) && FoldsDoNotCollide(c, log)
    requires Rooted(c, log, roots) && root in roots
    requires root == RootOf(c, log, fromId, toId) && fromId <= MaxId(log) <= toId
    ensures MaxId(log) <= roots[root].toId
  {
    var end := RootedNow(c, log, roots, root);
    SameRootSameEnd(c, log, fromId, toId, roots[root].fromId, end);
  }

  /** While the newest event is not anchored, no row of the tenant's has a root that covers it. */
  lemma {:induction false} NewestRootIsNew(c: Crypto, log: seq<Row>, roots: map<string, RootRow>, tenant: Option<string>,
                                           fromId: int)
    requires log != [] && IdsIncrease(log) && HashesUnique(log) && FoldsDoNotCollide(c, log)
    requires Rooted(c, log, roots) && OwnRows(roots, tenant)
    requires LastAnchored(roots, tenant) < MaxId(log) && fromId <= MaxId(log)
    ensures RootOf(c, log, fromId, MaxId(log)) !in roots
  {
    var root := RootOf(c, log, fromId, MaxId(log));
    if root in roots {
      ReachesTheEnd(c, log, roots, fromId, MaxId(log), root);
      LastAnchoredAtLeast(roots, tenant, root);
    }
  }

  lemma {:induction false} OwnRootIsBehind(c: Crypto, store: Store, batchSize: int, tenant: Option<string>,
                                           results: seq<AnchorResult>)
    requires store.log != [] && IdsIncrease(store.log) && HashesUnique(store.log) && FoldsDoNotCollide(c, store.log)
    requires Rooted(c, store.log, store.roots) && OwnRows(store.roots, tenant) && AreHonest(c, store.log, results)
    requires Tiles(results, LastAnchored(store.roots, tenant) + 1, MaxId(store.log), batchSize) && results != []
    ensures results[|results| - 1].rootHash !in store.roots
  {
    LastBatch(results, LastAnchored(store.roots, tenant) + 1, MaxId(store.log), batchSize);
    HonestAt(c, store.log, results, |results| - 1);
    NewestRootIsNew(c, store.log, store.roots, tenant, results[|results| - 1].fromId);
  }

  /** Two tenants can meet the other case: when one has signed the whole of a log as a single batch, the
      other's call signs that batch too and stays where it was. */
  lemma {:induction false} StoredRootHoldsBack(c: Crypto, row: Row, batchSize: int, a: string, b: string)
    requires row.eventId == 1 && a != b && batchSize >= 1
    ensures var r := ResultOf(c, [row], 1, 1);
            var roots := Upsert(map[], r, Some(a));
            && Tiles([r], LastAnchored(roots, Some(b)) + 1, MaxId([row]), batchSize)
            && UpsertAll(roots, [r], Some(b)) == roots
  {
    var r := ResultOf(c, [row], 1, 1);
    var roots := Upsert(map[], r, Some(a));
    assert ToIds(roots, Some(b)) == {};
  }

}

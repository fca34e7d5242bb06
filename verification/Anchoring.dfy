/** Signed rolling roots over ranges of the audit log. */
module Anchoring {
  import opened Common
  import opened Hashing
  import opened AuditChain

  // ----- the rolling fold --------------------------------------------------------------

  /** `combined = sha256(combined + event_hash.encode())`, once per hash, from the empty string. */
  function Fold(h: Hash, hashes: seq<Digest>): (combined: Bytes)
    ensures |combined| == if hashes == [] then 0 else DIGEST_LENGTH
    decreases |hashes|, 1
  {
    if hashes == [] then [] else h(LastMessage(h, hashes))
  }

  /** The last message a fold hashes: 64 bytes the first time, 96 from then on. */
  function LastMessage(h: Hash, hashes: seq<Digest>): (message: Bytes)
    requires hashes != []
    ensures |message| == if |hashes| == 1 then 64 else 96
    decreases |hashes|, 0
  {
    Fold(h, hashes[..|hashes| - 1]) + Utf8(Hex(hashes[|hashes| - 1]))
  }

  function Root(h: Hash, hashes: seq<Digest>): string {
    Hex(Fold(h, hashes))
  }

  /** Every message a fold hashes on its way. */
  ghost function Messages(h: Hash, hashes: seq<Digest>): set<Bytes> {
    if hashes == [] then {} else {LastMessage(h, hashes)} + Messages(h, hashes[..|hashes| - 1])
  }

  lemma {:induction false} HexTextInjective(a: Digest, b: Digest)
    requires Utf8(Hex(a)) == Utf8(Hex(b))
    ensures a == b
  {
    Utf8ReadsBack(Hex(a));
    Utf8ReadsBack(Hex(b));
    HexInjective(a, b);
  }

  lemma {:induction false} SplitBytes(x: Bytes, r: Bytes, y: Bytes, s: Bytes)
    requires x + r == y + s && |r| == |s|
    ensures x == y && r == s
  {
    assert |x + r| == |y + s|;
    assert x == (x + r)[..|x|] && y == (y + s)[..|y|];
    assert r == (x + r)[|x|..] && s == (y + s)[|y|..];
  }

  /** The rolling fold tells any two lists of hashes apart, whatever their lengths, unless two
      of the messages hashed along the way collide. */
  lemma {:induction false} FoldInjective(h: Hash, xs: seq<Digest>, ys: seq<Digest>)
    requires CollisionFree(h, Messages(h, xs) + Messages(h, ys))
    requires Fold(h, xs) == Fold(h, ys)
    ensures xs == ys
  {
    if xs != [] && ys != [] {
      var m, n := |xs| - 1, |ys| - 1;
      assert LastMessage(h, xs) == LastMessage(h, ys);
      SplitBytes(Fold(h, xs[..m]), Utf8(Hex(xs[m])), Fold(h, ys[..n]), Utf8(Hex(ys[n])));
      HexTextInjective(xs[m], ys[n]);
      FoldInjective(h, xs[..m], ys[..n]);
      assert xs == xs[..m] + [xs[m]] && ys == ys[..n] + [ys[n]];
    } else {
      assert |Fold(h, xs)| == |Fold(h, ys)|;
    }
  }

  lemma {:induction false} RootInjective(h: Hash, xs: seq<Digest>, ys: seq<Digest>)
    requires CollisionFree(h, Messages(h, xs) + Messages(h, ys))
    ensures Root(h, xs) == Root(h, ys) <==> xs == ys
  {
    if Root(h, xs) == Root(h, ys) {
      HexInjective(Fold(h, xs), Fold(h, ys));
      FoldInjective(h, xs, ys);
    }
  }

  // ----- ranges of the log -------------------------------------------------------------

  /** Hashes of the events with `event_id BETWEEN from AND to`, in event-id order. */
  function InRange(log: seq<Row>, fromId: int, toId: int): (hashes: seq<Digest>)
    ensures |hashes| <= |log|
  {
    if log == [] then [] else
    var last := log[|log| - 1];
    var before := InRange(log[..|log| - 1], fromId, toId);
    if fromId <= last.eventId <= toId then before + [last.eventHash] else before
  }

  lemma {:induction false} InRangeAppend(log: seq<Row>, row: Row, fromId: int, toId: int)
    ensures fromId <= row.eventId <= toId ==>
              InRange(log + [row], fromId, toId) == InRange(log, fromId, toId) + [row.eventHash]
    ensures !(fromId <= row.eventId <= toId) ==> InRange(log + [row], fromId, toId) == InRange(log, fromId, toId)
  {
    assert (log + [row])[..|log|] == log;
  }

  // ----- the store ---------------------------------------------------------------------

  /** A row of `audit_merkle_roots`; the table is keyed by its unique `root_hash`. */
  datatype RootRow = RootRow(fromId: int, toId: int, eventCount: nat, signature: string, tenant: Option<string>)

  datatype Store = Store(log: seq<Row>, roots: map<string, RootRow>)

  datatype AnchorResult = AnchorResult(rootHash: string, fromId: int, toId: int, eventCount: nat, signature: string)

  /** The signing key is fixed; signing a text is a function of its bytes, as with HMAC. */
  datatype Crypto = Crypto(h: Hash, sign: Bytes -> string)

  function RootOf(c: Crypto, log: seq<Row>, fromId: int, toId: int): (root: string)
    ensures IsAscii(root)
  {
    Root(c.h, InRange(log, fromId, toId))
  }

  function ResultOf(c: Crypto, log: seq<Row>, fromId: int, toId: int): AnchorResult {
    var root := RootOf(c, log, fromId, toId);
    AnchorResult(root, fromId, toId, |InRange(log, fromId, toId)|, c.sign(Utf8(root)))
  }

  /** The upsert of `sign_batch`.  A root already stored keeps its range, count and tenant. */
  function Upsert(roots: map<string, RootRow>, r: AnchorResult, tenant: Option<string>): map<string, RootRow> {
    if r.rootHash in roots then roots[r.rootHash := roots[r.rootHash].(signature := r.signature)]
    else roots[r.rootHash := RootRow(r.fromId, r.toId, r.eventCount, r.signature, tenant)]
  }

  /** `verify_root` against the store as it stands. */
  predicate Verifies(c: Crypto, store: Store, root: string, signature: string) {
    && root in store.roots
    && RootOf(c, store.log, store.roots[root].fromId, store.roots[root].toId) == root
    && IsAscii(root)
    && c.sign(Utf8(root)) == signature
  }

  // ----- the service -------------------------------------------------------------------

  class AuditAnchorService {
    const c: Crypto
    var log: seq<Row>
    var roots: map<string, RootRow>

    function Contents(): Store reads this { Store(log, roots) }

    constructor (c: Crypto, log: seq<Row>)
      ensures this.c == c && Contents() == Store(log, map[])
    {
      this.c, this.log, roots := c, log, map[];
    }

    method ComputeMerkleRoot(fromId: int, toId: int) returns (root: string)
      ensures root == RootOf(c, log, fromId, toId)
    {
      var combined: Bytes := [];
      for i := 0 to |log|
        invariant combined == Fold(c.h, InRange(log[..i], fromId, toId))
      {
        assert log[..i + 1] == log[..i] + [log[i]];
        InRangeAppend(log[..i], log[i], fromId, toId);
        if fromId <= log[i].eventId <= toId {
          combined := c.h(combined + Utf8(Hex(log[i].eventHash)));
        }
      }
      assert log[..|log|] == log;
      root := Hex(combined);
    }

    /** `sign_batch`.  The table refuses a range that runs backwards. */
    method SignBatch(fromId: int, toId: int, tenant: Option<string>) returns (result: Option<AnchorResult>)
      modifies this`roots
      ensures toId < fromId ==> result.None? && roots == old(roots)
      ensures fromId <= toId ==>
                && result == Some(ResultOf(c, log, fromId, toId))
                && roots == Upsert(old(roots), result.value, tenant)
      ensures fromId <= toId ==>
                var r := result.value;
                && IsAscii(r.rootHash) && r.signature == c.sign(Utf8(r.rootHash))
                && r.fromId == fromId && r.toId == toId && r.eventCount == |InRange(log, fromId, toId)|
                && roots.Keys == old(roots).Keys + {r.rootHash}
                && (forall root | root in old(roots) && root != r.rootHash :: roots[root] == old(roots)[root])
                && roots[r.rootHash] == if r.rootHash in old(roots) then old(roots)[r.rootHash].(signature := r.signature)
                                        else RootRow(fromId, toId, r.eventCount, r.signature, tenant)
    {
      var root := ComputeMerkleRoot(fromId, toId);
      if toId < fromId {
        return None;
      }
      var r := AnchorResult(root, fromId, toId, |InRange(log, fromId, toId)|, c.sign(Utf8(root)));
      roots := Upsert(roots, r, tenant);
      return Some(r);
    }

    method VerifyRoot(root: string, signature: string) returns (valid: bool)
      ensures valid == Verifies(c, Contents(), root, signature)
      ensures valid ==> root in roots && IsAscii(root) && signature == c.sign(Utf8(root))
    {
      if root !in roots {
        return false;
      }
      var recomputed := ComputeMerkleRoot(roots[root].fromId, roots[root].toId);
      if recomputed != root {
        return false;
      }
      return c.sign(Utf8(root)) == signature;
    }

    /** `sign_all_unanchored`.  With a batch size below one the first batch of a backlog runs
        backwards and is refused. */
    method SignAllUnanchored(batchSize: int, tenant: Option<string>) returns (signed: Option<seq<AnchorResult>>)
      modifies this`roots
      ensures signed.None? <==> batchSize < 1 && LastAnchored(old(roots), tenant) < MaxId(log)
      ensures signed.None? ==> roots == old(roots)
      ensures signed.Some? ==>
                && AreHonest(c, log, signed.value)
                && Tiles(signed.value, LastAnchored(old(roots), tenant) + 1, MaxId(log), batchSize)
                && roots == UpsertAll(old(roots), signed.value, tenant)
    {
      var results: seq<AnchorResult> := [];
      var lastAnchored := LastAnchored(roots, tenant);
      var maxEventId := MaxId(log);
      if maxEventId <= lastAnchored {
        return Some(results);
      }
      var current := lastAnchored + 1;
      while current <= maxEventId
        invariant TilesUpTo(results, lastAnchored + 1, current, maxEventId, batchSize)
        invariant AreHonest(c, log, results)
        invariant roots == UpsertAll(old(roots), results, tenant)
        invariant batchSize < 1 ==> results == [] && current <= maxEventId
        decreases maxEventId - current
      {
        var batchEnd := Min(current + batchSize - 1, maxEventId);
        var result := SignBatch(current, batchEnd, tenant);
        if result.None? {
          return None;
        }
        var more := results + [result.value];
        results := more;
        current := batchEnd + 1;
      }
      return Some(results);
    }
  }

  // ----- signing the backlog -----------------------------------------------------------

  function ToIds(roots: map<string, RootRow>, tenant: Option<string>): set<int> {
    set root | root in roots && roots[root].tenant == tenant :: roots[root].toId
  }

  predicate IsGreatest(m: int, ids: set<int>) {
    m in ids && forall i | i in ids :: i <= m
  }

  lemma {:induction false} NonEmpty(ids: set<int>)
    ensures ids == {} || exists x :: x in ids
  {
    if forall x :: x !in ids {
      assert ids == {};
    }
  }

  lemma {:induction false} GreatestExists(ids: set<int>)
    requires ids != {}
    ensures exists m :: IsGreatest(m, ids)
  {
    NonEmpty(ids);
    var x :| x in ids;
    var rest := ids - {x};
    assert forall i | i in ids :: i == x || i in rest;
    if rest == {} {
      assert IsGreatest(x, ids);
    } else {
      GreatestExists(rest);
      var m :| IsGreatest(m, rest);
      assert IsGreatest(if x <= m then m else x, ids);
    }
  }

  /** `COALESCE(MAX(to_event_id), 0)` over one tenant's rows. */
  function LastAnchored(roots: map<string, RootRow>, tenant: Option<string>): (last: int)
    ensures if ToIds(roots, tenant) == {} then last == 0 else IsGreatest(last, ToIds(roots, tenant))
  {
    var ids := ToIds(roots, tenant);
    if ids == {} then 0 else
    GreatestExists(ids);
    var m :| IsGreatest(m, ids);
    m
  }

  /** Every result is what `sign_batch` returns for its own range. */
  predicate AreHonest(c: Crypto, log: seq<Row>, results: seq<AnchorResult>) {
    results == [] ||
    (var n := |results| - 1;
     AreHonest(c, log, results[..n]) && results[n] == ResultOf(c, log, results[n].fromId, results[n].toId))
  }

  /** Consecutive ranges from `first` up to just before `next`, each as long as the batch size
      and the newest event allow. */
  predicate TilesUpTo(results: seq<AnchorResult>, first: int, next: int, maxEventId: int, batchSize: int) {
    if results == [] then next == first else
    var n := |results| - 1;
    && TilesUpTo(results[..n], first, results[n].fromId, maxEventId, batchSize)
    && results[n].fromId <= results[n].toId == Min(results[n].fromId + batchSize - 1, maxEventId)
    && next == results[n].toId + 1
  }

  /** The batches cover `first..maxEventId` end to end; there are none if that is empty. */
  predicate Tiles(results: seq<AnchorResult>, first: int, maxEventId: int, batchSize: int) {
    TilesUpTo(results, first, if maxEventId < first then first else maxEventId + 1, maxEventId, batchSize)
  }

  function UpsertAll(roots: map<string, RootRow>, results: seq<AnchorResult>, tenant: Option<string>)
      : map<string, RootRow>
  {
    if results == [] then roots else
    Upsert(UpsertAll(roots, results[..|results| - 1], tenant), results[|results| - 1], tenant)
  }

  /** The batches from `first` to `last`, one after the other. */
  function Batches(c: Crypto, log: seq<Row>, first: int, last: int, batchSize: int): seq<AnchorResult>
    requires batchSize >= 1
    decreases last - first
  {
    if last < first then [] else
    var end := Min(first + batchSize - 1, last);
    [ResultOf(c, log, first, end)] + Batches(c, log, end + 1, last, batchSize)
  }

  lemma {:induction false} Regroup(a: seq<AnchorResult>, r: AnchorResult, b: seq<AnchorResult>)
    ensures a + ([r] + b) == a + [r] + b
  {
  }

  lemma {:induction false} TilesThenBatches(c: Crypto, log: seq<Row>, results: seq<AnchorResult>, first: int, next: int,
                                            last: int, batchSize: int)
    requires batchSize >= 1 && AreHonest(c, log, results) && TilesUpTo(results, first, next, last, batchSize)
    ensures Batches(c, log, first, last, batchSize) == results + Batches(c, log, next, last, batchSize)
  {
    if results != [] {
      var n := |results| - 1;
      var init, r := results[..n], results[n];
      assert results == init + [r];
      TilesThenBatches(c, log, init, first, r.fromId, last, batchSize);
      Regroup(init, r, Batches(c, log, next, last, batchSize));
    }
  }

  /** There is only one way to tile a backlog honestly. */
  lemma {:induction false} TilesAreBatches(c: Crypto, log: seq<Row>, results: seq<AnchorResult>, first: int, last: int,
                                           batchSize: int)
    requires batchSize >= 1 && AreHonest(c, log, results) && Tiles(results, first, last, batchSize)
    ensures results == Batches(c, log, first, last, batchSize)
  {
    TilesThenBatches(c, log, results, first, if last < first then first else last + 1, last, batchSize);
    assert results + [] == results;
  }

  lemma {:induction false} BatchesExtend(c: Crypto, log: seq<Row>, all: seq<AnchorResult>, results: seq<AnchorResult>,
                                         first: int, next: int, last: int, batchSize: int)
    requires batchSize >= 1 && AreHonest(c, log, results) && TilesUpTo(results, first, next, last, batchSize)
    requires next <= last + 1 && all == results + Batches(c, log, next, last, batchSize)
    ensures AreHonest(c, log, all) && TilesUpTo(all, first, last + 1, last, batchSize)
    decreases last - next
  {
    if next <= last {
      var end := Min(next + batchSize - 1, last);
      var r := ResultOf(c, log, next, end);
      Regroup(results, r, Batches(c, log, end + 1, last, batchSize));
      BatchesExtend(c, log, all, results + [r], first, end + 1, last, batchSize);
    } else {
      assert all == results;
    }
  }

  lemma {:induction false} BatchesAreTiles(c: Crypto, log: seq<Row>, first: int, last: int, batchSize: int)
    requires batchSize >= 1
    ensures AreHonest(c, log, Batches(c, log, first, last, batchSize))
    ensures Tiles(Batches(c, log, first, last, batchSize), first, last, batchSize)
  {
    if first <= last {
      var all := Batches(c, log, first, last, batchSize);
      assert all == [] + all;
      BatchesExtend(c, log, all, [], first, first, last, batchSize);
    }
  }
}

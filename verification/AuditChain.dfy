/** The hash-linked audit log and the transactions that append to it.

    `save_audit_event` runs as a transaction: take the advisory lock, read the newest
    event's hash, insert, commit.  Any number of transactions may be in progress, and their
    steps interleave in any order; a step that cannot be taken (the lock is held) changes
    nothing, which is waiting. */
module AuditChain {
  import opened Common
  import opened Hashing

  /** The `prev_hash` of the first event: 64 zeros, the text of an all-zero digest. */
  const GENESIS: Digest := ZeroBytes(32)

  /** Sixty-four characters, each the digit zero. */
  predicate IsZeroHash(text: string) {
    |text| == 64 && AllZeros(text)
  }

  lemma {:induction false} GenesisText(hash: Digest)
    ensures hash == GENESIS <==> IsZeroHash(Hex(hash))
  {
    ZerosText(32);
    if IsZeroHash(Hex(hash)) {
      forall i | 0 <= i < 32 ensures hash[i] == GENESIS[i] {
        HexReadsBack(hash, i);
        HexReadsBack(GENESIS, i);
      }
    }
  }

  /** A row of `audit_events`.  Both hash columns hold the hexadecimal text of a digest. */
  datatype Row = Row(eventId: int, prevHash: Digest, eventHash: Digest)

  function LastHash(log: seq<Row>): Digest {
    if log == [] then GENESIS else log[|log| - 1].eventHash
  }

  function MaxId(log: seq<Row>): int {
    if log == [] then 0 else log[|log| - 1].eventId
  }

  /** In event-id order, every event names the one before it. */
  ghost predicate Linked(log: seq<Row>) {
    && (log != [] ==> log[0].prevHash == GENESIS)
    && (forall i, j | 0 <= i < j < |log| && j == i + 1 :: log[j].prevHash == log[i].eventHash)
  }

  ghost predicate IdsIncrease(log: seq<Row>) {
    && (forall i | 0 <= i < |log| :: 0 < log[i].eventId)
    && (forall i, j | 0 <= i < j < |log| :: log[i].eventId < log[j].eventId)
  }

  ghost predicate HashesUnique(log: seq<Row>) {
    forall i, j | 0 <= i < j < |log| :: log[i].eventHash != log[j].eventHash
  }

  ghost predicate IsChain(log: seq<Row>) {
    Linked(log) && IdsIncrease(log) && HashesUnique(log)
  }

  // ----- one caller at a time ----------------------------------------------------------

  predicate HashStored(log: seq<Row>, hash: Digest) {
    exists i | 0 <= i < |log| :: log[i].eventHash == hash
  }

  class Repository {
    var log: seq<Row>    // audit_events in event-id order
    var nextId: int      // the event_id sequence

    ghost predicate Valid() reads this {
      IsChain(log) && MaxId(log) < nextId
    }

    constructor ()
      ensures Valid() && log == []
    {
      log, nextId := [], 1;
    }

    /** `save_audit_event` for a caller that meets no other.  `eventHash` is unique in the
        table; a repeated one fails the insert, and the number it drew stays used up. */
    method SaveAuditEvent(hash: Digest) returns (eventId: Option<int>)
      requires Valid()
      modifies this
      ensures Valid()
      ensures eventId.None? <==> HashStored(old(log), hash)
      ensures eventId.None? ==> log == old(log)
      ensures eventId.Some? ==>
                && log == old(log) + [Row(eventId.value, LastHash(old(log)), hash)]
                && MaxId(old(log)) < eventId.value
      ensures eventId.Some? && old(log) == [] ==> IsZeroHash(Hex(log[0].prevHash))
      ensures eventId.Some? && old(log) != [] ==> log[|old(log)|].prevHash == old(log)[|old(log)| - 1].eventHash
    {
      GenesisText(GENESIS);
      var prevHash := LastHash(log);
      var id := nextId;
      nextId := nextId + 1;
      if HashStored(log, hash) {
        return None;
      }
      AppendKeepsChain(log, Row(id, prevHash, hash));
      log := log + [Row(id, prevHash, hash)];
      return Some(id);
    }
  }

  lemma {:induction false} AppendKeepsChain(log: seq<Row>, row: Row)
    requires IsChain(log)
    requires row.prevHash == LastHash(log) && MaxId(log) < row.eventId && !HashStored(log, row.eventHash)
    ensures IsChain(log + [row])
  {
    var more := log + [row];
    assert forall i | 0 <= i < |log| :: more[i] == log[i];
    assert Linked(more) by {
      forall i, j | 0 <= i < j < |more| && j == i + 1 ensures more[j].prevHash == more[i].eventHash {
        if j < |log| { assert log[j].prevHash == log[i].eventHash; }
      }
    }
    assert IdsIncrease(more) by {
      assert log != [] ==> forall i | 0 <= i < |log| :: log[i].eventId <= MaxId(log);
    }
    assert HashesUnique(more);
  }

  // ----- many callers at once ----------------------------------------------------------

  type Tid = nat

  /** How far a transaction has come. */
  datatype Txn =
    | Waiting
    | Locked
    | HasPrev(prevHash: Digest)
    | Inserted(row: Row)

  datatype State = State(log: seq<Row>, nextId: int, holder: Option<Tid>, txns: map<Tid, Txn>)

  const INIT: State := State([], 1, None, map[])

  datatype Step =
    | Begin(t: Tid)
    | Lock(t: Tid)
    | ReadLast(t: Tid)
    | Insert(t: Tid, hash: Digest)
    | Commit(t: Tid)
    | Abort(t: Tid)

  /** Leaving a transaction frees the lock it holds. */
  function Leave(s: State, t: Tid): State {
    s.(txns := s.txns - {t}, holder := if s.holder == Some(t) then None else s.holder)
  }

  function Apply(s: State, step: Step): State {
    match step
    case Begin(t) =>
      if t !in s.txns then s.(txns := s.txns[t := Waiting]) else s
    case Lock(t) =>
      if t in s.txns && s.txns[t].Waiting? && s.holder.None?
      then s.(holder := Some(t), txns := s.txns[t := Locked]) else s
    case ReadLast(t) =>
      if t in s.txns && s.txns[t].Locked?
      then s.(txns := s.txns[t := HasPrev(LastHash(s.log))]) else s
    case Insert(t, hash) =>
      if t in s.txns && s.txns[t].HasPrev? then
        if HashStored(s.log, hash) then Leave(s.(nextId := s.nextId + 1), t)
        else s.(nextId := s.nextId + 1, txns := s.txns[t := Inserted(Row(s.nextId, s.txns[t].prevHash, hash))])
      else s
    case Commit(t) =>
      if t in s.txns && s.txns[t].Inserted?
      then Leave(s.(log := s.log + [s.txns[t].row]), t) else s
    case Abort(t) =>
      if t in s.txns then Leave(s, t) else s
  }

  function Run(s: State, steps: seq<Step>): State
    decreases |steps|
  {
    if steps == [] then s else Run(Apply(s, steps[0]), steps[1..])
  }

  /** Giving up leaves the log as it is and lets the next in line have the lock. */
  lemma {:induction false} LockPassesOn(s: State, t: Tid, next: Tid)
    requires s.holder == Some(t) && t in s.txns && next in s.txns && s.txns[next].Waiting? && next != t
    ensures var after := Run(s, [Abort(t), Lock(next)]);
            after.log == s.log && after.holder == Some(next) && after.txns == (s.txns - {t})[next := Locked]
  {
    RunConcat(s, [Abort(t)], [Lock(next)]);
    assert [Abort(t), Lock(next)] == [Abort(t)] + [Lock(next)];
    RunOne(s, Abort(t));
    RunOne(Apply(s, Abort(t)), Lock(next));
  }

  /** What a transaction past the lock knows about the log. */
  ghost predicate TxnFits(s: State, txn: Txn) {
    match txn
    case Waiting => true
    case Locked => true
    case HasPrev(prevHash) => prevHash == LastHash(s.log)
    case Inserted(row) =>
      row.prevHash == LastHash(s.log) && MaxId(s.log) < row.eventId < s.nextId && !HashStored(s.log, row.eventHash)
  }

  ghost predicate Inv(s: State) {
    && IsChain(s.log)
    && MaxId(s.log) < s.nextId
    && (forall t | t in s.txns :: TxnFits(s, s.txns[t]))
    && (forall t | t in s.txns && !s.txns[t].Waiting? :: s.holder == Some(t))
  }

  lemma {:induction false} ApplyKeepsInv(s: State, step: Step)
    requires Inv(s)
    ensures Inv(Apply(s, step))
    ensures s.log <= Apply(s, step).log
  {
    if step.Commit? && step.t in s.txns && s.txns[step.t].Inserted? {
      AppendKeepsChain(s.log, s.txns[step.t].row);
    }
  }

  lemma {:induction false} RunKeepsInv(s: State, steps: seq<Step>)
    requires Inv(s)
    decreases |steps|
    ensures Inv(Run(s, steps))
    ensures s.log <= Run(s, steps).log
  {
    if steps != [] {
      ApplyKeepsInv(s, steps[0]);
      RunKeepsInv(Apply(s, steps[0]), steps[1..]);
    }
  }

  /** In every interleaving the committed log is one chain from 64 zeros. */
  lemma {:induction false} EveryRunIsOneChain(steps: seq<Step>)
    ensures var log := Run(INIT, steps).log;
            IsChain(log) && (log != [] ==> IsZeroHash(Hex(log[0].prevHash)))
  {
    RunKeepsInv(INIT, steps);
    GenesisText(GENESIS);
  }

  /** The steps of one transaction from its beginning to its end. */
  function Transaction(t: Tid, hash: Digest): seq<Step> {
    [Begin(t), Lock(t), ReadLast(t), Insert(t, hash), Commit(t)]
  }

  lemma {:induction false} RunConcat(s: State, first: seq<Step>, second: seq<Step>)
    ensures Run(s, first + second) == Run(Run(s, first), second)
    decreases |first|
  {
    if first == [] {
      assert first + second == second;
    } else {
      assert (first + second)[1..] == first[1..] + second;
      RunConcat(Apply(s, first[0]), first[1..], second);
    }
  }

  lemma {:induction false} RunOne(s: State, step: Step)
    ensures Run(s, [step]) == Apply(s, step)
  {
    assert [step][1..] == [];
  }

  lemma {:induction false} RunFive(s: State, a: Step, b: Step, c: Step, d: Step, e: Step)
    ensures Run(s, [a, b, c, d, e]) == Apply(Apply(Apply(Apply(Apply(s, a), b), c), d), e)
  {
    RunConcat(s, [a, b, c, d], [e]);
    RunConcat(s, [a, b, c], [d]);
    RunConcat(s, [a, b], [c]);
    RunConcat(s, [a], [b]);
    assert [a, b, c, d, e] == [a, b, c, d] + [e] && [a, b, c, d] == [a, b, c] + [d];
    assert [a, b, c] == [a, b] + [c] && [a, b] == [a] + [b];
    RunOne(s, a);
    RunOne(Apply(s, a), b);
    RunOne(Apply(Apply(s, a), b), c);
    RunOne(Apply(Apply(Apply(s, a), b), c), d);
    RunOne(Apply(Apply(Apply(Apply(s, a), b), c), d), e);
  }

  /** A transaction nobody meets does what `SaveAuditEvent` does, whatever others are waiting. */
  lemma {:induction false} UndisturbedTransaction(s: State, t: Tid, hash: Digest)
    requires s.holder.None? && t !in s.txns
    ensures var after := Run(s, Transaction(t, hash));
            && after.nextId == s.nextId + 1 && after.holder.None? && after.txns == s.txns
            && after.log == if HashStored(s.log, hash) then s.log else s.log + [Row(s.nextId, LastHash(s.log), hash)]
  {
    RunFive(s, Begin(t), Lock(t), ReadLast(t), Insert(t, hash), Commit(t));
    var locked := Apply(Apply(Apply(s, Begin(t)), Lock(t)), ReadLast(t));
    assert locked == s.(holder := Some(t), txns := s.txns[t := HasPrev(LastHash(s.log))]);
    assert s.txns[t := HasPrev(LastHash(s.log))] - {t} == s.txns;
    assert s.txns[t := Inserted(Row(s.nextId, LastHash(s.log), hash))] - {t} == s.txns;
  }

  /** Whatever happens after a moment only adds events, all with larger ids. */
  lemma {:induction false} LaterEventsHaveLargerIds(steps: seq<Step>, more: seq<Step>)
    ensures var before, after := Run(INIT, steps).log, Run(Run(INIT, steps), more).log;
            before <= after && forall i | |before| <= i < |after| :: MaxId(before) < after[i].eventId
  {
    RunKeepsInv(INIT, steps);
    RunKeepsInv(Run(INIT, steps), more);
  }

  ghost predicate Forked(log: seq<Row>) {
    exists i, j | 0 <= i < j < |log| :: log[i].prevHash == log[j].prevHash
  }

  ghost predicate ZeroHashReached(log: seq<Row>) {
    exists i | 0 <= i < |log| - 1 :: IsZeroHash(Hex(log[i].eventHash))
  }

  lemma {:induction false} Predecessor(log: seq<Row>, i: nat)
    requires Linked(log) && 0 < i < |log|
    ensures log[i].prevHash == log[i - 1].eventHash
  {
    var p := i - 1;
    assert log[i].prevHash == log[p].eventHash;
  }

  lemma {:induction false} SharedPredecessor(log: seq<Row>, i: nat, j: nat)
    requires IsChain(log) && i < j < |log| && log[i].prevHash == log[j].prevHash
    ensures i == 0 && log[j - 1].eventHash == GENESIS
  {
    Predecessor(log, j);
    if i > 0 {
      Predecessor(log, i);
    }
  }

  lemma {:induction false} ForkPoint(log: seq<Row>)
    requires IsChain(log)
    ensures Forked(log) <==> exists i | 0 <= i < |log| - 1 :: log[i].eventHash == GENESIS
  {
    if i :| 0 <= i < |log| - 1 && log[i].eventHash == GENESIS {
      var j := i + 1;
      assert log[0].prevHash == log[j].prevHash;
    }
    if Forked(log) {
      var i, j :| 0 <= i < j < |log| && log[i].prevHash == log[j].prevHash;
      SharedPredecessor(log, i, j);
    }
  }

  /** Two events share a predecessor if and only if some event that has a successor hashed to
      64 zeros itself. */
  lemma {:induction false} ForkedOnlyThroughGenesis(log: seq<Row>)
    requires IsChain(log)
    ensures Forked(log) <==> ZeroHashReached(log)
  {
    ForkPoint(log);
    forall i | 0 <= i < |log| ensures log[i].eventHash == GENESIS <==> IsZeroHash(Hex(log[i].eventHash)) {
      GenesisText(log[i].eventHash);
    }
  }
}

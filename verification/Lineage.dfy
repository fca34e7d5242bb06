/** The ancestor and descendant queries over `decisions.parent_decision_id`. */
module Lineage {
  import opened Common

  type Id = nat

  /** A row of `decisions` with the tenant of its action. */
  datatype Decision = Decision(id: Id, parent: Option<Id>, tenant: Option<string>)

  type Table = seq<Decision>

  ghost predicate PrimaryKey(table: Table) {
    forall i, j | 0 <= i < j < |table| :: table[i].id != table[j].id
  }

  /** A row of either query's result. */
  datatype Row = Row(decision: Decision, level: int)

  // ----- the recursive queries ---------------------------------------------------------

  /** The decisions with `decision_id = id`, one at most. */
  function WithId(table: Table, id: Option<Id>): Table {
    if table == [] then [] else
    if Some(table[0].id) == id then [table[0]] + WithId(table[1..], id) else WithId(table[1..], id)
  }

  /** The decisions with `parent_decision_id = id`. */
  function WithParent(table: Table, id: Id): Table {
    if table == [] then [] else
    if table[0].parent == Some(id) then [table[0]] + WithParent(table[1..], id) else WithParent(table[1..], id)
  }

  datatype Direction = Up | Down

  /** The recursive term: joins the table to the rows of the last round. */
  function Join(table: Table, working: Table, direction: Direction): Table {
    if working == [] then [] else
    (match direction case Up => WithId(table, working[0].parent) case Down => WithParent(table, working[0].id))
    + Join(table, working[1..], direction)
  }

  function Labelled(decisions: Table, level: int): seq<Row> {
    seq(|decisions|, i requires 0 <= i < |decisions| => Row(decisions[i], level))
  }

  /** The rounds of the query from `level` on, `UNION ALL`ed in level order.  Rounds end at the
      depth bound, so the query ends on cyclic links too; a round of no rows adds none. */
  function Rounds(table: Table, working: Table, level: int, depth: int, direction: Direction): seq<Row>
    decreases depth - level
  {
    if level < depth
    then Labelled(working, level) + Rounds(table, Join(table, working, direction), level + 1, depth, direction)
    else Labelled(working, level)
  }

  /** The anchor: the decision asked for, if its tenant is the one asked for. */
  function Anchor(table: Table, id: Id, tenant: Option<string>): Table {
    if table == [] then [] else
    if table[0].id == id && (tenant.None? || table[0].tenant == tenant)
    then [table[0]] + Anchor(table[1..], id, tenant) else Anchor(table[1..], id, tenant)
  }

  function Ancestors(table: Table, id: Id, depth: int, tenant: Option<string>): seq<Row> {
    Rounds(table, Anchor(table, id, tenant), 0, depth, Up)
  }

  function Descendants(table: Table, id: Id, depth: int, tenant: Option<string>): seq<Row> {
    Rounds(table, Anchor(table, id, tenant), 0, depth, Down)
  }

  // ----- what the links mean -----------------------------------------------------------

  /** `a` is reached from `d` by following `steps` parent links, each to a stored decision. */
  ghost predicate Above(table: Table, d: Decision, steps: nat, a: Decision)
    decreases steps
  {
    if steps == 0 then d == a
    else exists p :: p in table && d.parent == Some(p.id) && Above(table, p, steps - 1, a)
  }

  /** Whether the anchor filter lets a decision through. */
  predicate Visible(d: Decision, tenant: Option<string>) {
    tenant.None? || d.tenant == tenant
  }

  lemma {:induction false} WithIdIs(table: Table, id: Option<Id>, d: Decision)
    ensures d in WithId(table, id) <==> d in table && Some(d.id) == id
  {
    if table != [] { WithIdIs(table[1..], id, d); }
  }

  lemma {:induction false} WithParentIs(table: Table, id: Id, d: Decision)
    ensures d in WithParent(table, id) <==> d in table && d.parent == Some(id)
  {
    if table != [] { WithParentIs(table[1..], id, d); }
  }

  lemma {:induction false} AnchorIs(table: Table, id: Id, tenant: Option<string>, d: Decision)
    ensures d in Anchor(table, id, tenant) <==> d in table && d.id == id && Visible(d, tenant)
  {
    if table != [] { AnchorIs(table[1..], id, tenant, d); }
  }

  /** One round down or up reaches exactly the next step's decisions. */
  lemma {:induction false} JoinIs(table: Table, working: Table, direction: Direction, d: Decision)
    ensures d in Join(table, working, direction) <==>
            d in table && exists w :: w in working && (if direction.Up? then w.parent == Some(d.id) else d.parent == Some(w.id))
  {
    if working != [] {
      WithIdIs(table, working[0].parent, d);
      WithParentIs(table, working[0].id, d);
      JoinIs(table, working[1..], direction, d);
      assert forall w :: w in working <==> w == working[0] || w in working[1..];
    }
  }

  lemma {:induction false} AboveLast(table: Table, d: Decision, steps: nat, a: Decision)
    requires a in table
    ensures Above(table, d, steps + 1, a) <==>
            exists w :: Above(table, d, steps, w) && w.parent == Some(a.id)
    decreases steps
  {
    if steps == 0 {
      if Above(table, d, 1, a) {
        assert Above(table, d, 0, d);
      }
      if d.parent == Some(a.id) {
        assert Above(table, a, 0, a);
      }
    } else {
      if Above(table, d, steps + 1, a) {
        var p :| p in table && d.parent == Some(p.id) && Above(table, p, steps, a);
        AboveLast(table, p, steps - 1, a);
        var w :| Above(table, p, steps - 1, w) && w.parent == Some(a.id);
        assert Above(table, d, steps, w);
      }
      if w :| Above(table, d, steps, w) && w.parent == Some(a.id) {
        var p :| p in table && d.parent == Some(p.id) && Above(table, p, steps - 1, w);
        AboveLast(table, p, steps - 1, a);
      }
    }
  }

  /** `d` is where `steps` rounds from `x` lead. */
  ghost predicate Reached(table: Table, x: Decision, direction: Direction, steps: nat, d: Decision) {
    && d in table
    && if direction.Up? then Above(table, x, steps, d) else Above(table, d, steps, x)
  }

  /** A working table holding exactly what `steps` rounds reach. */
  ghost predicate Holds(table: Table, working: Table, x: Decision, direction: Direction, steps: nat, seen: bool) {
    forall d :: d in working <==> seen && Reached(table, x, direction, steps, d)
  }

  lemma {:induction false} JoinHolds(table: Table, working: Table, x: Decision, direction: Direction, steps: nat,
                                     seen: bool)
    requires x in table && Holds(table, working, x, direction, steps, seen)
    ensures Holds(table, Join(table, working, direction), x, direction, steps + 1, seen)
  {
    forall d ensures d in Join(table, working, direction) <==> seen && Reached(table, x, direction, steps + 1, d) {
      JoinIs(table, working, direction, d);
      if direction.Up? {
        if d in table { AboveLast(table, x, steps, d); AboveStored(table, x, steps); }
      }
    }
  }

  lemma {:induction false} AboveStored(table: Table, d: Decision, steps: nat)
    requires d in table
    ensures forall a | Above(table, d, steps, a) :: a in table
    decreases steps
  {
    forall a | Above(table, d, steps, a) ensures a in table {
      if steps > 0 {
        var p :| p in table && d.parent == Some(p.id) && Above(table, p, steps - 1, a);
        AboveStored(table, p, steps - 1);
      }
    }
  }

  lemma {:induction false} LabelledIs(decisions: Table, level: int, row: Row)
    ensures row in Labelled(decisions, level) <==> row.level == level && row.decision in decisions
  {
    if row.level == level && row.decision in decisions {
      var i :| 0 <= i < |decisions| && decisions[i] == row.decision;
      assert Labelled(decisions, level)[i] == row;
    }
  }

  lemma {:induction false} RoundsAre(table: Table, working: Table, level: nat, depth: int, direction: Direction,
                                     x: Decision, seen: bool, row: Row)
    requires x in table && Holds(table, working, x, direction, level, seen)
    ensures row in Rounds(table, working, level, depth, direction) <==>
            seen && level <= row.level <= Max(level, depth) && Reached(table, x, direction, row.level, row.decision)
    decreases depth - level
  {
    LabelledIs(working, level, row);
    if level < depth {
      JoinHolds(table, working, x, direction, level, seen);
      RoundsAre(table, Join(table, working, direction), level + 1, depth, direction, x, seen, row);
    }
  }

  lemma {:induction false} AnchorHolds(table: Table, x: Decision, tenant: Option<string>, direction: Direction)
    requires PrimaryKey(table) && x in table
    ensures Holds(table, Anchor(table, x.id, tenant), x, direction, 0, Visible(x, tenant))
  {
    forall d ensures d in Anchor(table, x.id, tenant) <==> Visible(x, tenant) && Reached(table, x, direction, 0, d) {
      AnchorIs(table, x.id, tenant, d);
    }
  }

  /** The ancestors query returns exactly the stored decisions above, level by level. */
  lemma {:induction false} AncestorsAre(table: Table, x: Decision, depth: int, tenant: Option<string>, a: Decision,
                                        level: int)
    requires PrimaryKey(table) && x in table
    ensures Row(a, level) in Ancestors(table, x.id, depth, tenant) <==>
            Visible(x, tenant) && 0 <= level <= Max(0, depth) && a in table && Above(table, x, level, a)
  {
    AnchorHolds(table, x, tenant, Up);
    RoundsAre(table, Anchor(table, x.id, tenant), 0, depth, Up, x, Visible(x, tenant), Row(a, level));
  }

  lemma {:induction false} DescendantsAre(table: Table, a: Decision, depth: int, tenant: Option<string>, x: Decision,
                                          level: int)
    requires PrimaryKey(table) && a in table
    ensures Row(x, level) in Descendants(table, a.id, depth, tenant) <==>
            Visible(a, tenant) && 0 <= level <= Max(0, depth) && x in table && Above(table, x, level, a)
  {
    AnchorHolds(table, a, tenant, Down);
    RoundsAre(table, Anchor(table, a.id, tenant), 0, depth, Down, a, Visible(a, tenant), Row(x, level));
  }

  /** The two queries are inverses at every depth bound and level.  The tenant filter applies
      to the decision asked for only, so with a filter each side needs its own visible. */
  lemma {:induction false} QueriesAreInverse(table: Table, a: Decision, x: Decision, depth: int, tenant: Option<string>,
                                             level: int)
    requires PrimaryKey(table) && a in table && x in table
    ensures Row(a, level) in Ancestors(table, x.id, depth, tenant) && Visible(a, tenant) <==>
            Row(x, level) in Descendants(table, a.id, depth, tenant) && Visible(x, tenant)
    ensures tenant.None? ==>
              (Row(a, level) in Ancestors(table, x.id, depth, tenant) <==>
               Row(x, level) in Descendants(table, a.id, depth, tenant))
  {
    AncestorsAre(table, x, depth, tenant, a, level);
    DescendantsAre(table, a, depth, tenant, x, level);
  }

  // ----- counting ----------------------------------------------------------------------

  ghost predicate NoDuplicates<T>(s: seq<T>) {
    forall i, j | 0 <= i < j < |s| :: s[i] != s[j]
  }

  lemma {:induction false} WithIdSingle(table: Table, id: Option<Id>)
    requires PrimaryKey(table)
    ensures |WithId(table, id)| <= 1
  {
    if table != [] {
      WithIdSingle(table[1..], id);
      if Some(table[0].id) == id && WithId(table[1..], id) != [] {
        WithIdIs(table[1..], id, WithId(table[1..], id)[0]);
      }
    }
  }

  lemma {:induction false} AnchorSingle(table: Table, id: Id, tenant: Option<string>)
    requires PrimaryKey(table)
    ensures |Anchor(table, id, tenant)| <= 1
  {
    if table != [] {
      AnchorSingle(table[1..], id, tenant);
      if table[0].id == id && Anchor(table[1..], id, tenant) != [] {
        AnchorIs(table[1..], id, tenant, Anchor(table[1..], id, tenant)[0]);
      }
    }
  }

  lemma {:induction false} UpRoundsAreConsecutive(table: Table, working: Table, level: int, depth: int)
    requires PrimaryKey(table) && |working| <= 1
    ensures var rows := Rounds(table, working, level, depth, Up);
            |rows| <= Max(0, depth - level) + 1 && forall i | 0 <= i < |rows| :: rows[i].level == level + i
    decreases depth - level
  {
    if level < depth {
      if working == [] {
        NoMoreRounds(table, level, depth, Up);
      } else {
        WithIdSingle(table, working[0].parent);
        assert Join(table, working[1..], Up) == [];
        UpRoundsAreConsecutive(table, Join(table, working, Up), level + 1, depth);
      }
    }
  }

  lemma {:induction false} NoMoreRounds(table: Table, level: int, depth: int, direction: Direction)
    ensures Rounds(table, [], level, depth, direction) == []
    decreases depth - level
  {
    if level < depth { NoMoreRounds(table, level + 1, depth, direction); }
  }

  /** Ancestors come one a level, from level 0 on without a gap, at most `depth + 1` of them. */
  lemma {:induction false} AncestorsAreOneALevel(table: Table, id: Id, depth: int, tenant: Option<string>)
    requires PrimaryKey(table)
    ensures var rows := Ancestors(table, id, depth, tenant);
            |rows| <= Max(0, depth) + 1 && forall i | 0 <= i < |rows| :: rows[i].level == i
  {
    AnchorSingle(table, id, tenant);
    UpRoundsAreConsecutive(table, Anchor(table, id, tenant), 0, depth);
  }

  lemma {:induction false} NoDuplicatesConcat<T>(s: seq<T>, t: seq<T>)
    requires NoDuplicates(s) && NoDuplicates(t) && forall x | x in s :: x !in t
    ensures NoDuplicates(s + t)
  {
    forall i, j | 0 <= i < j < |s + t| ensures (s + t)[i] != (s + t)[j] {
      if i < |s| <= j { assert s[i] in s && (s + t)[j] == t[j - |s|]; }
    }
  }

  lemma {:induction false} WithParentNoDuplicates(table: Table, id: Id)
    requires NoDuplicates(table)
    ensures NoDuplicates(WithParent(table, id))
  {
    if table != [] {
      WithParentNoDuplicates(table[1..], id);
      if table[0].parent == Some(id) {
        WithParentIs(table[1..], id, table[0]);
        NoDuplicatesConcat([table[0]], WithParent(table[1..], id));
      }
    }
  }

  lemma {:induction false} IdsIdentify(table: Table, d: Decision, e: Decision)
    requires PrimaryKey(table) && d in table && e in table
    ensures d.id == e.id <==> d == e
  {
  }

  /** No decision is a child of two rows of a working table. */
  lemma {:induction false} JoinNoDuplicates(table: Table, working: Table)
    requires PrimaryKey(table) && NoDuplicates(working) && forall w | w in working :: w in table
    ensures NoDuplicates(Join(table, working, Down))
  {
    if working != [] {
      var w, rest := working[0], working[1..];
      WithParentNoDuplicates(table, w.id);
      JoinNoDuplicates(table, rest);
      forall v | v in rest ensures v.id != w.id { IdsIdentify(table, v, w); }
      forall d | d in WithParent(table, w.id) ensures d !in Join(table, rest, Down) {
        WithParentIs(table, w.id, d);
        JoinIs(table, rest, Down, d);
      }
      NoDuplicatesConcat(WithParent(table, w.id), Join(table, rest, Down));
    }
  }

  lemma {:induction false} DownRoundsNoDuplicates(table: Table, working: Table, level: int, depth: int)
    requires PrimaryKey(table) && NoDuplicates(working) && forall w | w in working :: w in table
    ensures NoDuplicates(Rounds(table, working, level, depth, Down))
    ensures forall row | row in Rounds(table, working, level, depth, Down) :: level <= row.level
    decreases depth - level
  {
    if level < depth {
      JoinNoDuplicates(table, working);
      forall d | d in Join(table, working, Down) ensures d in table { JoinIs(table, working, Down, d); }
      DownRoundsNoDuplicates(table, Join(table, working, Down), level + 1, depth);
      NoDuplicatesConcat(Labelled(working, level), Rounds(table, Join(table, working, Down), level + 1, depth, Down));
    }
  }

  // ----- order -------------------------------------------------------------------------

  predicate LevelsNeverFall(rows: seq<Row>) {
    forall i, j | 0 <= i < j < |rows| :: rows[i].level <= rows[j].level
  }

  predicate LevelsFrom(rows: seq<Row>, level: int) {
    forall i | 0 <= i < |rows| :: level <= rows[i].level
  }

  lemma {:induction false} RoundsInOrder(table: Table, working: Table, level: int, depth: int, direction: Direction)
    ensures var rows := Rounds(table, working, level, depth, direction);
            && LevelsNeverFall(rows) && LevelsFrom(rows, level)
            && (working != [] ==> rows != [] && rows[0] == Row(working[0], level))
    decreases depth - level
  {
    if level < depth {
      var joined := Join(table, working, direction);
      RoundsInOrder(table, joined, level + 1, depth, direction);
    }
  }

  lemma {:induction false} AnchorFirst(table: Table, x: Decision, tenant: Option<string>)
    requires PrimaryKey(table) && x in table && Visible(x, tenant)
    ensures Anchor(table, x.id, tenant) == [x]
  {
    var anchor := Anchor(table, x.id, tenant);
    AnchorSingle(table, x.id, tenant);
    AnchorIs(table, x.id, tenant, x);
    assert |anchor| == 1 && anchor[0] == x;
  }

  /** Both queries list their rows by rising level, the decision asked for first at level 0, and
      no row twice, on cyclic links too. */
  lemma {:induction false} RowsOnceInLevelOrder(table: Table, x: Decision, depth: int, tenant: Option<string>,
                                                direction: Direction)
    requires PrimaryKey(table) && x in table
    ensures var rows := if direction.Up? then Ancestors(table, x.id, depth, tenant)
                        else Descendants(table, x.id, depth, tenant);
            && LevelsNeverFall(rows) && NoDuplicates(rows)
            && (if Visible(x, tenant) then rows != [] && rows[0] == Row(x, 0) else rows == [])
  {
    var anchor := Anchor(table, x.id, tenant);
    RoundsInOrder(table, anchor, 0, depth, direction);
    if Visible(x, tenant) {
      AnchorFirst(table, x, tenant);
    } else {
      if anchor != [] { AnchorIs(table, x.id, tenant, anchor[0]); }
      NoMoreRounds(table, 0, depth, direction);
    }
    if direction.Up? {
      AncestorsAreOneALevel(table, x.id, depth, tenant);
    } else {
      AnchorSingle(table, x.id, tenant);
      forall d | d in anchor ensures d in table { AnchorIs(table, x.id, tenant, d); }
      DownRoundsNoDuplicates(table, anchor, 0, depth);
    }
  }

  // ----- acyclic links -----------------------------------------------------------------

  ghost predicate Acyclic(table: Table) {
    forall d, n | d in table && 0 < n :: !Above(table, d, n, d)
  }

  lemma {:induction false} AboveUnique(table: Table, d: Decision, n: nat, a: Decision, b: Decision)
    requires PrimaryKey(table) && Above(table, d, n, a) && Above(table, d, n, b)
    ensures a == b
    decreases n
  {
    if n > 0 {
      var p :| p in table && d.parent == Some(p.id) && Above(table, p, n - 1, a);
      var q :| q in table && d.parent == Some(q.id) && Above(table, q, n - 1, b);
      AboveUnique(table, p, n - 1, a, b);
    }
  }

  lemma {:induction false} AboveSplit(table: Table, d: Decision, m: nat, n: nat, a: Decision)
    requires Above(table, d, m + n, a)
    ensures exists w :: Above(table, d, m, w) && Above(table, w, n, a)
    decreases m
  {
    if m == 0 {
      assert Above(table, d, 0, d);
    } else {
      var p :| p in table && d.parent == Some(p.id) && Above(table, p, m + n - 1, a);
      AboveSplit(table, p, m - 1, n, a);
      var w :| Above(table, p, m - 1, w) && Above(table, w, n, a);
      assert Above(table, d, m, w);
    }
  }

  /** On acyclic links two decisions are related at one distance only. */
  lemma {:induction false} DistanceUnique(table: Table, d: Decision, m: nat, n: nat, a: Decision)
    requires PrimaryKey(table) && Acyclic(table) && a in table
    requires Above(table, d, m, a) && Above(table, d, n, a)
    ensures m == n
  {
    var low, high := Min(m, n), Max(m, n);
    AboveSplit(table, d, low, high - low, a);
    var w :| Above(table, d, low, w) && Above(table, w, high - low, a);
    AboveUnique(table, d, low, w, a);
  }

  ghost predicate DecisionsDistinct(rows: seq<Row>) {
    forall i, j | 0 <= i < j < |rows| :: rows[i].decision != rows[j].decision
  }

  /** On acyclic links neither query lists a decision twice. */
  lemma {:induction false} AcyclicMeansNoRepeats(table: Table, x: Decision, depth: int, tenant: Option<string>)
    requires PrimaryKey(table) && Acyclic(table) && x in table
    ensures DecisionsDistinct(Ancestors(table, x.id, depth, tenant))
    ensures DecisionsDistinct(Descendants(table, x.id, depth, tenant))
  {
    var up, down := Ancestors(table, x.id, depth, tenant), Descendants(table, x.id, depth, tenant);
    AncestorsAreOneALevel(table, x.id, depth, tenant);
    forall i, j | 0 <= i < j < |up| ensures up[i].decision != up[j].decision {
      AncestorsAre(table, x, depth, tenant, up[i].decision, up[i].level);
      AncestorsAre(table, x, depth, tenant, up[j].decision, up[j].level);
      if up[i].decision == up[j].decision {
        DistanceUnique(table, x, up[i].level, up[j].level, up[i].decision);
      }
    }
    AnchorSingle(table, x.id, tenant);
    forall d | d in Anchor(table, x.id, tenant) ensures d in table { AnchorIs(table, x.id, tenant, d); }
    DownRoundsNoDuplicates(table, Anchor(table, x.id, tenant), 0, depth);
    forall i, j | 0 <= i < j < |down| ensures down[i].decision != down[j].decision {
      DescendantsAre(table, x, depth, tenant, down[i].decision, down[i].level);
      DescendantsAre(table, x, depth, tenant, down[j].decision, down[j].level);
      if down[i].decision == down[j].decision {
        DistanceUnique(table, down[i].decision, down[i].level, down[j].level, x);
      }
    }
  }
}

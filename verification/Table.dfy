/** The outbox table as SQLite keeps it, a sequence of rows in rowid order, and its contents as a map. */
module OutboxTable {
  import opened OutboxModel
  import opened OutboxCapacity

  predicate UniqueIds(rows: seq<Row>) {
    forall i, j | 0 <= i < j < |rows| :: rows[i].ev.id != rows[j].ev.id
  }

  predicate InRowidOrder(rows: seq<Row>, next: nat) {
    && (forall i, j | 0 <= i < j < |rows| :: rows[i].rowid < rows[j].rowid)
    && (forall i | 0 <= i < |rows| :: rows[i].rowid < next)
  }

  /** `m` has exactly the rows of the table, by event id. */
  predicate Holds(rows: seq<Row>, m: Rows) {
    && (forall i | 0 <= i < |rows| :: rows[i].ev.id in m && m[rows[i].ev.id] == rows[i])
    && (forall id | id in m :: m[id].ev.id == id && m[id] in rows)
  }

  function Matching(m: Rows, where: Row -> bool): set<EventId> {
    set id | id in m && where(m[id])
  }

  function Updated(m: Rows, where: Row -> bool, put: Row -> Row): Rows {
    map id | id in m :: if where(m[id]) then put(m[id]) else m[id]
  }

  function Without(m: Rows, where: Row -> bool): Rows {
    map id | id in m && !where(m[id]) :: m[id]
  }

  /** A statement whose condition names one event id changes that row or none. */
  lemma OneMatch(m: Rows, where: Row -> bool, put: Row -> Row, id: EventId)
    requires forall k | k in m && where(m[k]) :: k == id
    ensures var hit := id in m && where(m[id]);
            && Matching(m, where) == (if hit then {id} else {})
            && Updated(m, where, put) == (if hit then m[id := put(m[id])] else m)
  {
  }

  lemma UpdatedHolds(was: seq<Row>, rows: seq<Row>, m: Rows, where: Row -> bool, put: Row -> Row)
    requires Holds(was, m) && |rows| == |was|
    requires forall k | 0 <= k < |was| :: rows[k] == if where(was[k]) then put(was[k]) else was[k]
    requires forall r :: put(r).ev == r.ev && put(r).rowid == r.rowid
    ensures Holds(rows, Updated(m, where, put))
  {
    var t := Updated(m, where, put);
    forall id | id in t ensures t[id].ev.id == id && t[id] in rows {
      var k :| 0 <= k < |was| && was[k] == m[id];
      assert rows[k] == t[id];
    }
  }

  lemma DeletedHolds(was: seq<Row>, rows: seq<Row>, m: Rows, where: Row -> bool)
    requires Holds(was, m)
    requires forall k | 0 <= k < |rows| :: rows[k] in was && !where(rows[k])
    requires forall k | 0 <= k < |was| && !where(was[k]) :: was[k] in rows
    requires forall j, k | 0 <= j < k < |rows| :: rows[j].rowid < rows[k].rowid
    ensures Holds(rows, Without(m, where)) && UniqueIds(rows)
  {
    forall j, k | 0 <= j < k < |rows| ensures rows[j].ev.id != rows[k].ev.id {
      assert m[rows[j].ev.id] == rows[j] && m[rows[k].ev.id] == rows[k];
    }
  }

  /** The sum of the payload sizes does not depend on whether rows are listed or mapped. */
  function ListedBytes(rows: seq<Row>): nat {
    if rows == [] then 0 else ListedBytes(rows[..|rows| - 1]) + |rows[|rows| - 1].ev.payload|
  }

  lemma OneFewer(m: Rows, r: Row)
    requires r.ev.id in m && m[r.ev.id] == r
    ensures |m| == |m - {r.ev.id}| + 1
    ensures Bytes(m) == Bytes(m - {r.ev.id}) + |r.ev.payload|
  {
    OneMore(m - {r.ev.id}, r.ev.id, r);
    assert (m - {r.ev.id})[r.ev.id := r] == m;
  }

  lemma {:induction false} ListedUsage(rows: seq<Row>, m: Rows)
    requires UniqueIds(rows) && Holds(rows, m)
    ensures |m| == |rows| && Bytes(m) == ListedBytes(rows)
  {
    if rows == [] {
      assert m == map[];
    } else {
      var r := rows[|rows| - 1];
      RestHolds(rows, m);
      ListedUsage(rows[..|rows| - 1], m - {r.ev.id});
      OneFewer(m, r);
    }
  }

  lemma RestHolds(rows: seq<Row>, m: Rows)
    requires UniqueIds(rows) && Holds(rows, m) && rows != []
    ensures var rest := rows[..|rows| - 1];
            UniqueIds(rest) && Holds(rest, m - {rows[|rows| - 1].ev.id})
  {
    var n := |rows| - 1;
    var m' := m - {rows[n].ev.id};
    forall id | id in m' ensures m'[id] in rows[..n] {
      var k :| 0 <= k < |rows| && rows[k] == m[id];
      assert rows[..n][k] == m'[id];
    }
  }

  function ListedMatches(rows: seq<Row>, where: Row -> bool): nat {
    if rows == [] then 0
    else ListedMatches(rows[..|rows| - 1], where) + if where(rows[|rows| - 1]) then 1 else 0
  }

  lemma OneFewerMatch(m: Rows, r: Row, where: Row -> bool)
    requires r.ev.id in m && m[r.ev.id] == r
    ensures |Matching(m, where)| == |Matching(m - {r.ev.id}, where)| + if where(r) then 1 else 0
  {
    var rest := Matching(m - {r.ev.id}, where);
    if where(r) {
      assert Matching(m, where) == rest + {r.ev.id};
    } else {
      assert Matching(m, where) == rest;
    }
  }

  lemma {:induction false} ListedMatching(rows: seq<Row>, m: Rows, where: Row -> bool)
    requires UniqueIds(rows) && Holds(rows, m)
    ensures ListedMatches(rows, where) == |Matching(m, where)|
  {
    if rows == [] {
      assert m == map[];
    } else {
      var r := rows[|rows| - 1];
      RestHolds(rows, m);
      ListedMatching(rows[..|rows| - 1], m - {r.ev.id}, where);
      OneFewerMatch(m, r, where);
    }
  }

  /** The rows, rewritten where the condition picks them, and how many it picked. */
  method Rewrite(was: seq<Row>, where: Row -> bool, put: Row -> Row) returns (rows: seq<Row>, changes: nat)
    ensures |rows| == |was|
    ensures forall k | 0 <= k < |was| :: rows[k] == if where(was[k]) then put(was[k]) else was[k]
    ensures changes == ListedMatches(was, where)
  {
    rows, changes := was, 0;
    var i := 0;
    while i < |rows|
      invariant 0 <= i <= |rows| == |was|
      invariant forall k | 0 <= k < i :: rows[k] == if where(was[k]) then put(was[k]) else was[k]
      invariant forall k | i <= k < |was| :: rows[k] == was[k]
      invariant changes == ListedMatches(was[..i], where)
    {
      assert was[..i + 1][..i] == was[..i];
      if where(rows[i]) {
        rows := rows[i := put(rows[i])];
        changes := changes + 1;
      }
      i := i + 1;
    }
    assert was[..i] == was;
  }

  /** UPDATE: each row the condition picks is rewritten in place. */
  method UpdateRows(was: seq<Row>, ghost m: Rows, where: Row -> bool, put: Row -> Row)
    returns (rows: seq<Row>, changes: nat)
    requires UniqueIds(was) && Holds(was, m)
    requires forall r :: put(r).ev == r.ev && put(r).rowid == r.rowid
    ensures |rows| == |was| && Holds(rows, Updated(m, where, put))
    ensures forall k | 0 <= k < |was| :: rows[k].ev == was[k].ev && rows[k].rowid == was[k].rowid
    ensures changes == |Matching(m, where)|
  {
    rows, changes := Rewrite(was, where, put);
    ListedMatching(was, m, where);
    UpdatedHolds(was, rows, m, where, put);
  }

  /** The rows the condition does not pick, in their order. */
  method Keep(was: seq<Row>, next: nat, where: Row -> bool) returns (rows: seq<Row>)
    requires InRowidOrder(was, next)
    ensures InRowidOrder(rows, next)
    ensures forall r :: r in rows <==> r in was && !where(r)
  {
    rows := [];
    var i := 0;
    while i < |was|
      invariant 0 <= i <= |was|
      invariant forall r :: r in rows <==> r in was[..i] && !where(r)
      invariant InRowidOrder(rows, next)
      invariant forall j, k | 0 <= j < |rows| && i <= k < |was| :: rows[j].rowid < was[k].rowid
    {
      assert was[..i + 1] == was[..i] + [was[i]];
      if !where(was[i]) { rows := rows + [was[i]]; }
      i := i + 1;
    }
    assert was[..i] == was;
  }

  /** DELETE: the rows the condition picks are dropped, the others keep their order. */
  method DeleteRows(was: seq<Row>, next: nat, ghost m: Rows, where: Row -> bool)
    returns (rows: seq<Row>)
    requires InRowidOrder(was, next) && Holds(was, m)
    ensures InRowidOrder(rows, next) && UniqueIds(rows) && Holds(rows, Without(m, where))
  {
    rows := Keep(was, next, where);
    DeletedHolds(was, rows, m, where);
  }

  /** SELECT count(*), sum(length(payload)). */
  method CountRows(rows: seq<Row>, ghost m: Rows) returns (count: nat, bytes: nat)
    requires UniqueIds(rows) && Holds(rows, m)
    ensures count == |m| && bytes == Bytes(m)
  {
    count, bytes := 0, 0;
    var i := 0;
    while i < |rows|
      invariant 0 <= i <= |rows|
      invariant count == i && bytes == ListedBytes(rows[..i])
    {
      assert rows[..i + 1][..i] == rows[..i];
      count, bytes := count + 1, bytes + |rows[i].ev.payload|;
      i := i + 1;
    }
    assert rows[..i] == rows;
    ListedUsage(rows, m);
  }

  lemma AddedHolds(rows: seq<Row>, next: nat, m: Rows, r: Row)
    requires UniqueIds(rows) && InRowidOrder(rows, next) && Holds(rows, m)
    requires r.ev.id !in m && r.rowid == next
    ensures UniqueIds(rows + [r]) && InRowidOrder(rows + [r], next + 1)
    ensures Holds(rows + [r], m[r.ev.id := r])
  {
    var all := rows + [r];
    assert forall k | 0 <= k < |rows| :: all[k] == rows[k] && rows[k].ev.id in m;
    assert all[|rows|] == r;
    var m' := m[r.ev.id := r];
    forall id | id in m' ensures m'[id] in all {
      if id != r.ev.id { assert m[id] in rows; }
    }
  }

  /** Whether the primary key and the unique (topic, call, seq) index let the event in. */
  method Admissible(rows: seq<Row>, ghost m: Rows, ev: Event) returns (yes: bool)
    requires Holds(rows, m)
    ensures yes == Unique(m, ev)
  {
    var i := 0;
    while i < |rows|
      invariant 0 <= i <= |rows|
      invariant forall k | 0 <= k < i :: rows[k].ev.id != ev.id && !SamePosition(rows[k].ev, ev)
    {
      if rows[i].ev.id == ev.id || SamePosition(rows[i].ev, ev) { return false; }
      i := i + 1;
    }
    yes := true;
  }

  /** The events share an entry of the unique (topic, call, sequence) index; absent sequences share none. */
  predicate SameEntry(e: Event, f: Event) { e.Cid() == f.Cid() && e.seqNo.Some? && e.seqNo == f.seqNo }

  predicate Clash(rows: Rows) {
    exists id, id' :: id in rows && id' in rows && id != id' && SameEntry(rows[id].ev, rows[id'].ev)
  }

  predicate ListedClash(rows: seq<Row>) {
    exists i, j | 0 <= i < j < |rows| :: SameEntry(rows[i].ev, rows[j].ev)
  }

  lemma ClashIs(rows: seq<Row>, m: Rows)
    requires UniqueIds(rows) && Holds(rows, m)
    ensures ListedClash(rows) <==> Clash(m)
  {
    if i, j :| 0 <= i < j < |rows| && SameEntry(rows[i].ev, rows[j].ev) {
      assert m[rows[i].ev.id] == rows[i] && m[rows[j].ev.id] == rows[j];
    }
    if id, id' :| id in m && id' in m && id != id' && SameEntry(m[id].ev, m[id'].ev) {
      var k :| 0 <= k < |rows| && rows[k] == m[id];
      var j :| 0 <= j < |rows| && rows[j] == m[id'];
      assert SameEntry(rows[if k < j then k else j].ev, rows[if k < j then j else k].ev);
    }
  }

  method ClashesLater(rows: seq<Row>, i: nat) returns (found: bool)
    requires i < |rows|
    ensures found <==> exists j | i < j < |rows| :: SameEntry(rows[i].ev, rows[j].ev)
  {
    var j := i + 1;
    while j < |rows|
      invariant i < j <= |rows|
      invariant forall k | i < k < j :: !SameEntry(rows[i].ev, rows[k].ev)
    {
      if SameEntry(rows[i].ev, rows[j].ev) { return true; }
      j := j + 1;
    }
    found := false;
  }

  method AnyClash(rows: seq<Row>) returns (found: bool)
    ensures found <==> ListedClash(rows)
  {
    var i := 0;
    while i < |rows|
      invariant 0 <= i <= |rows|
      invariant forall k, j | 0 <= k < i && k < j < |rows| :: !SameEntry(rows[k].ev, rows[j].ev)
    {
      var here := ClashesLater(rows, i);
      if here { return true; }
      i := i + 1;
    }
    found := false;
  }
}

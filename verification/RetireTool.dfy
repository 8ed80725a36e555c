/** The offline retire command on a database file. */
module OutboxRetireTool {
  import opened OutboxModel
  import opened OutboxText
  import opened OutboxRetire
  import opened OutboxTable
  import opened OutboxUpgrade

  datatype RetireError =
    | NotOrdered | ReasonRequired | UnresolvedCursor | RowsRemain | FenceCapacity | AlreadyRetired | TooSmall

  datatype Retirement = Done(disk: Disk) | NotRetired(error: RetireError)

  /** The file's tables, whatever its turn. */
  function StoreOf(d: Disk): Store { Store(d.rows, d.streams, d.fences, 0, d.nextRowid) }

  predicate Retirable(d: Disk) { d.version in {3, 4, 5} && d.sequenced }

  predicate HasRows(d: Disk, c: CallId) { exists id :: id in d.rows && d.rows[id].ev.Cid() == c }

  predicate Closed(d: Disk, c: CallId) { c in d.streams && d.streams[c].nextSeq == d.streams[c].admitSeq }

  /** The error names the first condition, in this order, that fails. */
  predicate Because(d: Disk, c: CallId, reason: string, maxRows: int, e: RetireError) {
    if !Retirable(d) then e == NotOrdered
    else if Blank(reason) then e == ReasonRequired
    else if !Closed(d, c) then e == UnresolvedCursor
    else if HasRows(d, c) then e == RowsRemain
    else if |d.fences| >= maxRows then e == FenceCapacity
    else if c in d.fences then e == AlreadyRetired
    else e == TooSmall && (|d.streams| - 1 > maxRows || |d.rows| > maxRows)
  }

  method CountRowsOf(rows: seq<Row>, table: Rows, c: CallId) returns (n: nat)
    requires Holds(rows, table)
    ensures n == 0 <==> forall id | id in table :: table[id].ev.Cid() != c
  {
    n := 0;
    var i := 0;
    while i < |rows|
      invariant 0 <= i <= |rows|
      invariant n == 0 <==> forall k | 0 <= k < i :: rows[k].ev.Cid() != c
    {
      if rows[i].ev.Cid() == c { n := n + 1; }
      i := i + 1;
    }
    assert forall id | id in table :: table[id] in rows;
    assert forall k | 0 <= k < |rows| :: rows[k].ev.id in table && table[rows[k].ev.id] == rows[k];
  }

  /** The retire command: the closed cursor of one call becomes a fence, and nothing else changes. */
  method RetireCall(d: Disk, rows: seq<Row>, c: CallId, at: int, reason: string, maxRows: int)
    returns (result: Retirement)
    requires Holds(rows, d.rows)
    ensures match result
            case Done(out) =>
              && 3 <= d.version <= 5 && d.sequenced && Retire(StoreOf(d), c, at, reason, maxRows) == Some(StoreOf(out))
              && out == d.(version := Max(d.version, 4), scheduler := Some(Turn(d)),
                           streams := out.streams, fences := out.fences)
            case NotRetired(e) =>
              Because(d, c, reason, maxRows, e)
              && (d.version < 3 || d.version > 5 || !d.sequenced
                  || Retire(StoreOf(d), c, at, reason, maxRows) == None)
  {
    if !(d.version in {3, 4, 5}) || !d.sequenced { return NotRetired(NotOrdered); }
    if Blank(reason) { return NotRetired(ReasonRequired); }
    var streams, fences := d.streams, d.fences;
    var turn := CurrentTurn(d);
    if c !in streams || streams[c].nextSeq != streams[c].admitSeq { return NotRetired(UnresolvedCursor); }
    var n := CountRowsOf(rows, d.rows, c);
    if n != 0 { return NotRetired(RowsRemain); }
    if |fences| >= maxRows { return NotRetired(FenceCapacity); }
    if c in fences { return NotRetired(AlreadyRetired); }
    fences := fences[c := Fence(streams[c].key, streams[c].nextSeq, at, reason)];
    streams := streams - {c};
    assert streams.Keys == d.streams.Keys - {c} && |streams| == |streams.Keys| == |d.streams| - 1;
    if |streams| > maxRows || |d.rows| > maxRows { return NotRetired(TooSmall); }
    result := Done(d.(version := Max(d.version, 4), scheduler := Some(turn), streams := streams, fences := fences));
  }

  lemma RetireIgnoresStamps(d: Disk, c: CallId, at: int, reason: string, maxRows: int, turn: int)
    requires Retire(StoreOf(d), c, at, reason, maxRows).Some?
    ensures var s := Store(Stamped(d.rows, d.streams), d.streams, d.fences, turn, d.nextRowid);
            var t := Retire(StoreOf(d), c, at, reason, maxRows).value;
            Retire(s, c, at, reason, maxRows)
            == Some(Store(Stamped(d.rows, t.streams), t.streams, t.fences, turn, d.nextRowid))
  {
    var s := Store(Stamped(d.rows, d.streams), d.streams, d.fences, turn, d.nextRowid);
    var t := Retire(StoreOf(d), c, at, reason, maxRows).value;
    assert s.rows.Keys == d.rows.Keys && |s.rows| == |s.rows.Keys| && |d.rows| == |d.rows.Keys|;
    forall id | id in d.rows
      ensures s.rows[id].ev == d.rows[id].ev
      ensures Stamped(d.rows, t.streams)[id] == s.rows[id]
    {
      assert d.rows[id].ev.Cid() != c;
    }
    assert Stamped(d.rows, t.streams) == s.rows;
  }

  /** Main result.  The file the tool publishes opens, and to what retiring the call in the opened
      store would have given: the command lands back inside everything proved of stores. */
  lemma RetiredFileOpens(d: Disk, out: Disk, c: CallId, at: int, reason: string, maxRows: int)
    requires Retirable(d) && Open(d).Opened?
    requires Retire(StoreOf(d), c, at, reason, maxRows) == Some(StoreOf(out))
    requires out == d.(version := Max(d.version, 4), scheduler := Some(Turn(d)),
                       streams := out.streams, fences := out.fences)
    ensures Open(out).Opened?
    ensures Retire(Open(d).store, c, at, reason, maxRows) == Some(Open(out).store)
  {
    RetireIgnoresStamps(d, c, at, reason, maxRows, Turn(d));
    RetiredFileIsSound(d, out, c, at, reason, maxRows);
    OpeningIs(out);
  }

  /** Nothing that would keep the file from opening is new in it. */
  lemma RetiredFileIsSound(d: Disk, out: Disk, c: CallId, at: int, reason: string, maxRows: int)
    requires Open(d).Opened? && Retire(StoreOf(d), c, at, reason, maxRows) == Some(StoreOf(out))
    requires out.sequenced == d.sequenced
    ensures out.rows == d.rows && !TwoAtOne(out.rows) && !Lost(out) && !StillActive(out)
  {
    OpeningIs(d);
    RetireDoes(StoreOf(d), c, at, reason, maxRows);
    forall x | x in out.rows ensures !Stray(out.streams, out.rows[x].ev) {
      assert !Stray(d.streams, d.rows[x].ev);
    }
  }
}

/** The inductive invariant of the outbox, kept by every operation. */
module OutboxInvariant {
  import opened OutboxModel

  predicate StreamOk(s: Store, c: CallId)
    requires c in s.streams
  {
    var st := s.streams[c];
    |c.call| > 0 && |st.key| > 0 && 0 <= st.nextSeq <= st.admitSeq <= INT64_MAX
  }

  /** An ordered row lies in its call's window; only the row at the cursor may be in flight, and
      only it has a deliverable age. */
  predicate RowOk(streams: Streams, r: Row) {
    if !r.ev.Ordered() then r.ev.seqNo == None && r.eligible.Some?
    else
      r.ev.seqNo.Some? && r.ev.Cid() in streams &&
      var st := streams[r.ev.Cid()];
      var q := r.ev.seqNo.value;
      st.nextSeq <= q < st.admitSeq && r.ev.key == st.key &&
      (r.state == InFlight ==> q == st.nextSeq) &&
      (r.eligible.Some? <==> q == st.nextSeq)
  }

  predicate Occupied(rows: Rows, c: CallId, q: int) {
    exists id :: id in rows && rows[id].ev.Cid() == c && rows[id].ev.seqNo == Some(q)
  }

  ghost predicate RowsOk(s: Store) {
    && (forall id | id in s.rows :: s.rows[id].ev.id == id)
    && (forall id | id in s.rows :: s.rows[id].rowid < s.nextRowid)
    && (forall id | id in s.rows :: RowOk(s.streams, s.rows[id]))
  }

  ghost predicate Distinct(rows: Rows) {
    forall id, id' | id in rows && id' in rows && id != id' ::
      rows[id].rowid != rows[id'].rowid && !SamePosition(rows[id].ev, rows[id'].ev)
  }

  /** In admission mode a call's rows fill its window without a gap. */
  ghost predicate Contiguous(s: Store) {
    forall c, q: int | c in s.streams && s.streams[c].mode == Admission
                       && s.streams[c].nextSeq <= q < s.streams[c].admitSeq ::
      Occupied(s.rows, c, q)
  }

  ghost predicate StoreInv(s: Store) {
    && RowsOk(s)
    && Distinct(s.rows)
    && (forall c | c in s.streams :: StreamOk(s, c))
    && s.streams.Keys !! s.fences.Keys
    && (forall c | c in s.fences :: 0 <= s.fences[c].nextSeq)
    && Contiguous(s)
  }

  predicate TurnInRange(s: Store) { s.turn <= INT64_MAX }

  /** No call, served or yet to come, stands past the scheduler. */
  ghost predicate TurnsOk(s: Store) {
    0 <= s.turn <= INT64_MAX && forall c | c in s.streams :: s.streams[c].lastServed <= s.turn
  }

  /** Dead ordered rows are call heads; kept by everything the pipeline does, not by a direct
      mark_dead of a waiting row. */
  ghost predicate DeadAreHeads(s: Store) {
    forall id | id in s.rows && s.rows[id].state == Dead :: Head(s.streams, s.rows[id].ev)
  }

  ghost predicate WithinLimits(s: Store, lim: Limits) {
    |s.rows| <= lim.maxRows && |s.streams| <= lim.maxRows && Bytes(s.rows) <= lim.maxBytes
  }

  /** `t` differs from `s` in no row's identity or order and in no call's cursor: an operation
      that only moves rows between states, or serves a call. */
  ghost predicate Quiet(s: Store, t: Store) {
    && t.rows.Keys == s.rows.Keys
    && (forall id | id in s.rows ::
          t.rows[id].ev == s.rows[id].ev && t.rows[id].created == s.rows[id].created
          && t.rows[id].rowid == s.rows[id].rowid)
    && t.streams.Keys == s.streams.Keys
    && (forall c | c in s.streams ::
          t.streams[c] == s.streams[c].(lastServed := t.streams[c].lastServed))
    && t.fences == s.fences
    && t.nextRowid == s.nextRowid
  }

  /** A quiet change keeps the invariant as soon as each changed row is still placed correctly. */
  lemma QuietKeeps(s: Store, t: Store)
    requires StoreInv(s) && Quiet(s, t)
    requires forall id | id in t.rows :: RowOk(t.streams, t.rows[id])
    ensures StoreInv(t)
  {
    forall c, q: int | c in t.streams && t.streams[c].mode == Admission
                       && t.streams[c].nextSeq <= q < t.streams[c].admitSeq
      ensures Occupied(t.rows, c, q)
    {
      assert Occupied(s.rows, c, q);
      var id :| id in s.rows && s.rows[id].ev.Cid() == c && s.rows[id].ev.seqNo == Some(q);
      assert id in t.rows;
    }
    forall c | c in t.streams ensures StreamOk(t, c) { assert StreamOk(s, c); }
  }

  /** The row was at most moved out of flight, or given new retry data. */
  predicate Moved(r: Row, q: Row) {
    q.ev == r.ev && q.eligible == r.eligible && q.created == r.created && q.rowid == r.rowid
    && (q.state == InFlight ==> r.state == InFlight)
  }

  /** Settling, retrying, requeueing and expiring only move rows between states. */
  ghost predicate Moves(s: Store, t: Store) {
    && t == s.(rows := t.rows)
    && t.rows.Keys == s.rows.Keys
    && forall id | id in s.rows :: Moved(s.rows[id], t.rows[id])
  }

  lemma MovesKeep(s: Store, t: Store)
    requires StoreInv(s) && Moves(s, t)
    ensures StoreInv(t) && Quiet(s, t)
  {
    forall id | id in t.rows ensures RowOk(t.streams, t.rows[id]) {
      assert Moved(s.rows[id], t.rows[id]) && RowOk(s.streams, s.rows[id]);
    }
    QuietKeeps(s, t);
  }

  lemma MarkDeadMoves(s: Store, id: EventId, error: string, wall: int)
    requires MarkDead(s, id, error, wall).Some?
    ensures Moves(s, MarkDead(s, id, error, wall).value)
  {
  }

  lemma RetryDeadMoves(s: Store, id: EventId, next: int, wall: int)
    requires RetryDead(s, id, next, wall).Some?
    ensures Moves(s, RetryDead(s, id, next, wall).value)
  {
  }

  lemma RequeueMoves(s: Store, next: int, wall: int)
    ensures Moves(s, Requeue(s, next, wall))
  {
  }

  lemma ExpireMoves(s: Store, now: int, ttl: int)
    ensures Moves(s, Expire(s, now, ttl))
  {
  }

  lemma MarkKeepsRow(s: Store, id: EventId, wall: int, k: EventId)
    requires MarkInFlight(s, id, wall).Some? && k in s.rows && RowOk(s.streams, s.rows[k])
    ensures var t := MarkInFlight(s, id, wall).value; k in t.rows && RowOk(t.streams, t.rows[k])
  {
  }

  lemma MarkIsQuiet(s: Store, id: EventId, wall: int)
    requires MarkInFlight(s, id, wall).Some?
    ensures Quiet(s, MarkInFlight(s, id, wall).value)
  {
  }

  lemma MarkInFlightKeeps(s: Store, id: EventId, wall: int)
    requires StoreInv(s) && MarkInFlight(s, id, wall).Some?
    ensures var t := MarkInFlight(s, id, wall).value;
            StoreInv(t) && Quiet(s, t)
  {
    var t := MarkInFlight(s, id, wall).value;
    MarkIsQuiet(s, id, wall);
    forall k | k in t.rows ensures RowOk(t.streams, t.rows[k]) {
      MarkKeepsRow(s, id, wall, k);
    }
    QuietKeeps(s, t);
  }

  /** What an accepted insert did: `kept` lost only reclaimable rows, `row` is new, and an ordered
      row took a position at or past its call's cursor (exactly the next ordinal in admission
      mode), with the call's window stretched to include it. */
  ghost predicate Inserted(s: Store, t: Store, kept: Rows, row: Row) {
    var ev := row.ev;
    && (forall id | id in kept :: id in s.rows && kept[id] == s.rows[id])
    && (forall id | id in s.rows && id !in kept :: Reclaimable(s.rows[id]))
    && Unique(kept, ev)
    && t.rows == kept[ev.id := row]
    && row.state == Pending && row.rowid == s.nextRowid && t.nextRowid == s.nextRowid + 1
    && t.fences == s.fences && t.turn == s.turn
    && if !ev.Ordered() then
         t.streams == s.streams && ev.seqNo == None && row.eligible.Some?
       else
         && ev.Cid() !in s.fences && ev.Cid() in t.streams && ev.seqNo.Some?
         && var st := t.streams[ev.Cid()];
            var was := if ev.Cid() in s.streams then s.streams[ev.Cid()]
                       else Stream(st.key, st.mode, 0, 0, 0);
            && t.streams == s.streams[ev.Cid() := st]
            && st == was.(admitSeq := Max(was.admitSeq, ev.seqNo.value + 1))
            && st.key == ev.key && |ev.key| > 0
            && was.nextSeq <= ev.seqNo.value < INT64_MAX
            && (st.mode == Admission ==> ev.seqNo.value == was.admitSeq)
            && (row.eligible.Some? <==> ev.seqNo.value == was.nextSeq)
  }

  lemma PlaceIs(s: Store, a: Request, lim: Limits)
    requires Place(s.streams, a, lim).Given?
    requires a.Cid() in s.streams ==> StreamOk(s, a.Cid())
    ensures var p := Place(s.streams, a, lim);
            var was := if a.Cid() in s.streams then s.streams[a.Cid()]
                       else Stream(a.key, a.Mode(), 0, 0, 0);
            p.stream == was && was.key == a.key && |a.key| > 0 && was.mode == a.Mode()
            && was.nextSeq <= p.seqNo < INT64_MAX
            && (was.mode == Admission ==> p.seqNo == was.admitSeq)
  {
  }

  lemma InsertIs(s: Store, a: Request, wall: int, lim: Limits)
    requires forall c | c in s.streams :: StreamOk(s, c)
    requires Insert(s, a, wall, lim).Admitted?
    ensures var r := Insert(s, a, wall, lim);
            a.id in r.store.rows && r.store.rows[a.id].ev == r.ev
            && Inserted(s, r.store, MakeRoom(s.rows, |a.payload|, lim), r.store.rows[a.id])
  {
    if a.Ordered() { PlaceIs(s, a, lim); }
  }

  /** A call's window only grows, so the rows already in it stay well placed. */
  lemma WiderWindow(was: Streams, now: Streams, r: Row)
    requires RowOk(was, r)
    requires r.ev.Ordered() ==>
             r.ev.Cid() in now
             && now[r.ev.Cid()].nextSeq == was[r.ev.Cid()].nextSeq
             && now[r.ev.Cid()].key == was[r.ev.Cid()].key
             && was[r.ev.Cid()].admitSeq <= now[r.ev.Cid()].admitSeq
    ensures RowOk(now, r)
  {
  }

  lemma InsertedKeepsRows(s: Store, t: Store, kept: Rows, row: Row)
    requires RowsOk(s) && Inserted(s, t, kept, row)
    ensures RowsOk(t)
  {
    forall id | id in t.rows
      ensures t.rows[id].ev.id == id && t.rows[id].rowid < t.nextRowid && RowOk(t.streams, t.rows[id])
    {
      if id != row.ev.id {
        assert id in s.rows && t.rows[id] == s.rows[id];
        WiderWindow(s.streams, t.streams, s.rows[id]);
      }
    }
  }

  lemma InsertedKeepsDistinct(s: Store, t: Store, kept: Rows, row: Row)
    requires RowsOk(s) && Distinct(s.rows) && Inserted(s, t, kept, row)
    ensures Distinct(t.rows)
  {
  }

  lemma InsertedKeepsContiguous(s: Store, t: Store, kept: Rows, row: Row)
    requires StoreInv(s) && Inserted(s, t, kept, row)
    ensures Contiguous(t)
  {
    forall c, q: int | c in t.streams && t.streams[c].mode == Admission
                       && t.streams[c].nextSeq <= q < t.streams[c].admitSeq
      ensures Occupied(t.rows, c, q)
    {
      if c in s.streams && q < s.streams[c].admitSeq {
        assert Occupied(s.rows, c, q);
        var id :| id in s.rows && s.rows[id].ev.Cid() == c && s.rows[id].ev.seqNo == Some(q);
        assert RowOk(s.streams, s.rows[id]);
        assert t.rows[id].ev == s.rows[id].ev;
      } else {
        assert t.rows[row.ev.id].ev.Cid() == c && t.rows[row.ev.id].ev.seqNo == Some(q);
      }
    }
  }

  lemma InsertedKeeps(s: Store, t: Store, kept: Rows, row: Row)
    requires StoreInv(s) && Inserted(s, t, kept, row)
    ensures StoreInv(t)
  {
    InsertedKeepsRows(s, t, kept, row);
    InsertedKeepsDistinct(s, t, kept, row);
    InsertedKeepsContiguous(s, t, kept, row);
    forall c | c in t.streams ensures StreamOk(t, c) {
      if c in s.streams { assert StreamOk(s, c); }
    }
  }

  /** The one place a waiting row becomes deliverable: its position is the new cursor. */
  lemma AckKeepsRow(s: Store, id: EventId, wall: int, k: EventId)
    requires MarkAcked(s, id, wall).Some? && k in s.rows && k != id
    requires RowOk(s.streams, s.rows[id]) && RowOk(s.streams, s.rows[k])
    requires !SamePosition(s.rows[k].ev, s.rows[id].ev)
    ensures var t := MarkAcked(s, id, wall).value;
            k in t.rows && RowOk(t.streams, t.rows[k])
            && t.rows[k] == s.rows[k].(eligible := t.rows[k].eligible)
  {
  }

  lemma AckKeepsRows(s: Store, id: EventId, wall: int)
    requires RowsOk(s) && Distinct(s.rows) && MarkAcked(s, id, wall).Some?
    ensures var t := MarkAcked(s, id, wall).value;
            RowsOk(t) && Distinct(t.rows) && t.rows.Keys == s.rows.Keys - {id}
  {
    var t := MarkAcked(s, id, wall).value;
    forall k | k in s.rows && k != id
      ensures k in t.rows && RowOk(t.streams, t.rows[k])
              && t.rows[k] == s.rows[k].(eligible := t.rows[k].eligible)
    {
      AckKeepsRow(s, id, wall, k);
    }
  }

  lemma AckKeepsContiguous(s: Store, id: EventId, wall: int)
    requires Contiguous(s) && (forall c | c in s.streams :: StreamOk(s, c))
    requires MarkAcked(s, id, wall).Some? && RowOk(s.streams, s.rows[id])
    ensures Contiguous(MarkAcked(s, id, wall).value)
  {
    var t := MarkAcked(s, id, wall).value;
    forall c, q: int | c in t.streams && t.streams[c].mode == Admission
                       && t.streams[c].nextSeq <= q < t.streams[c].admitSeq
      ensures Occupied(t.rows, c, q)
    {
      assert StreamOk(s, c);
      assert Occupied(s.rows, c, q);
      var k :| k in s.rows && s.rows[k].ev.Cid() == c && s.rows[k].ev.seqNo == Some(q);
      assert k in t.rows && t.rows[k].ev == s.rows[k].ev;
    }
  }

  lemma MarkAckedKeeps(s: Store, id: EventId, wall: int)
    requires StoreInv(s) && MarkAcked(s, id, wall).Some?
    ensures StoreInv(MarkAcked(s, id, wall).value)
  {
    var t := MarkAcked(s, id, wall).value;
    AckKeepsRows(s, id, wall);
    AckKeepsContiguous(s, id, wall);
    assert RowOk(s.streams, s.rows[id]);
    forall c | c in t.streams ensures StreamOk(t, c) { assert StreamOk(s, c); }
  }
}

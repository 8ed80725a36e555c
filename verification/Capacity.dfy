/** Row, stream and payload-byte limits, and the sums they are about. */
module OutboxCapacity {
  import opened OutboxModel
  import opened OutboxInvariant

  /** The sum does not depend on the order the rows are added up in. */
  lemma {:induction false} TotalWithout(rows: Rows, weight: Row -> nat, id: EventId)
    requires id in rows
    ensures Total(rows, weight) == weight(rows[id]) + Total(rows - {id}, weight)
    decreases |rows|
  {
    var k :| k in rows && Total(rows, weight) == weight(rows[k]) + Total(rows - {k}, weight);
    if k != id {
      TotalWithout(rows - {k}, weight, id);
      TotalWithout(rows - {id}, weight, k);
      assert rows - {k} - {id} == rows - {id} - {k};
    }
  }

  lemma TotalWith(rows: Rows, weight: Row -> nat, id: EventId, r: Row)
    requires id !in rows
    ensures Total(rows[id := r], weight) == Total(rows, weight) + weight(r)
  {
    TotalWithout(rows[id := r], weight, id);
    assert rows[id := r] - {id} == rows;
  }

  /** Fewer rows, each of no more weight, weigh no more. */
  lemma {:induction false} TotalMonotone(kept: Rows, rows: Rows, weight: Row -> nat)
    requires forall id | id in kept :: id in rows && weight(kept[id]) <= weight(rows[id])
    ensures Total(kept, weight) <= Total(rows, weight)
    decreases |kept|
  {
    if kept != map[] {
      var id :| id in kept && Total(kept, weight) == weight(kept[id]) + Total(kept - {id}, weight);
      TotalWithout(rows, weight, id);
      TotalMonotone(kept - {id}, rows - {id}, weight);
    }
  }

  lemma KeysCount(kept: Rows, rows: Rows)
    requires kept.Keys <= rows.Keys
    ensures |kept| <= |rows|
  {
    assert |kept| == |kept.Keys| && |rows| == |rows.Keys|;
    SubsetCount(kept.Keys, rows.Keys);
  }

  lemma {:induction false} SubsetCount<T>(a: set<T>, b: set<T>)
    requires a <= b
    ensures |a| <= |b|
    decreases |a|
  {
    if a != {} {
      var x :| x in a;
      SubsetCount(a - {x}, b - {x});
    }
  }

  lemma InsertFits(s: Store, a: Request, wall: int, lim: Limits)
    requires Insert(s, a, wall, lim).Admitted?
    ensures var t := Insert(s, a, wall, lim).store;
            var kept := MakeRoom(s.rows, |a.payload|, lim);
            && !Full(kept, |a.payload|, lim)
            && a.id !in kept && a.id in t.rows && t.rows == kept[a.id := t.rows[a.id]]
            && t.rows[a.id].ev.payload == a.payload
            && (t.streams.Keys == s.streams.Keys
                || (t.streams.Keys == s.streams.Keys + {a.Cid()} && |s.streams| < lim.maxRows))
  {
    if a.Ordered() && a.Cid() in s.streams {
      assert s.streams.Keys + {a.Cid()} == s.streams.Keys;
    }
  }

  /** Whatever held before, an accepted insert leaves rows and bytes within the limits, and it
      starts a new stream only below the stream limit. */
  lemma InsertWithinLimits(s: Store, a: Request, wall: int, lim: Limits)
    requires Insert(s, a, wall, lim).Admitted?
    ensures var t := Insert(s, a, wall, lim).store;
            && |t.rows| <= lim.maxRows && Bytes(t.rows) <= lim.maxBytes
            && (|t.streams| == |s.streams| || |t.streams| <= lim.maxRows)
  {
    InsertFits(s, a, wall, lim);
    var kept := MakeRoom(s.rows, |a.payload|, lim);
    var t := Insert(s, a, wall, lim).store;
    OneMore(kept, a.id, t.rows[a.id]);
    assert |t.streams| == |t.streams.Keys| && |s.streams| == |s.streams.Keys|;
  }

  lemma OneMore(rows: Rows, id: EventId, r: Row)
    requires id !in rows
    ensures |rows[id := r]| == |rows| + 1
    ensures Bytes(rows[id := r]) == Bytes(rows) + |r.ev.payload|
  {
    TotalWith(rows, PayloadSize, id, r);
    assert rows[id := r].Keys == rows.Keys + {id};
    assert |rows[id := r]| == |rows[id := r].Keys| == |rows.Keys| + 1;
  }

  /** An insert deletes only ungrouped rows that TTL expiry killed, and only at capacity. */
  lemma InsertDeletesOnlyExpired(s: Store, a: Request, wall: int, lim: Limits, id: EventId)
    requires Insert(s, a, wall, lim).Admitted? && id in s.rows
    requires id !in Insert(s, a, wall, lim).store.rows
    ensures Full(s.rows, |a.payload|, lim)
    ensures var r := s.rows[id]; r.state == Dead && r.lastError == EXPIRED && !r.ev.Ordered()
  {
  }

  lemma MovesKeepLimits(s: Store, t: Store, lim: Limits)
    requires WithinLimits(s, lim)
    requires t.rows.Keys <= s.rows.Keys && t.streams.Keys == s.streams.Keys
    requires forall id | id in t.rows :: t.rows[id].ev == s.rows[id].ev
    ensures WithinLimits(t, lim)
  {
    TotalMonotone(t.rows, s.rows, PayloadSize);
    KeysCount(t.rows, s.rows);
    assert |t.streams| == |t.streams.Keys| == |s.streams|;
  }
}

/** The durable outbox, as statements over its tables inside all-or-nothing transactions. */
module OutboxDatabase {
  import opened OutboxModel
  import opened OutboxTable
  import opened OutboxFetch
  import opened OutboxEffects
  import opened OutboxUpgrade

  /** A transaction that either reached `next` and committed, or threw and left `was`. */
  ghost predicate Atomic(was: Store, next: Option<Store>, ok: bool, now: Store) {
    if next.Some? then ok && now == next.value else !ok && now == was
  }

  /** The UPDATE of an expiry, said of the map. */
  lemma ExpiryIs(s: Store, now: int, ttl: int, where: Row -> bool, put: Row -> Row)
    requires 0 < ttl && forall r :: where(r) == Expires(s.streams, r, now, ttl)
    requires forall r :: put(r) == r.(state := Dead, lastError := EXPIRED, updated := now)
    ensures Updated(s.rows, where, put) == Expire(s, now, ttl).rows
    ensures Matching(s.rows, where) == set id | id in s.rows && Overage(s, s.rows[id], now, ttl)
  {
  }

  class Outbox {
    const limits: Limits
    var rows: seq<Row>
    var streams: Streams
    var fences: map<CallId, Fence>
    var turn: int
    var nextRowid: nat
    var hasScheduler: bool
    var version: int
    var sequenced: bool
    var isOpen: bool
    ghost var table: Rows

    ghost predicate Valid()
      reads this
    {
      UniqueIds(rows) && InRowidOrder(rows, nextRowid) && Holds(rows, table)
    }

    ghost function Db(): Store
      reads this
    {
      Store(table, streams, fences, turn, nextRowid)
    }

    /** The file under the open or closed database. */
    ghost function File(): Disk
      reads this
    {
      Disk(version, sequenced, table, streams, fences, if hasScheduler then Some(turn) else None, nextRowid)
    }

    /** A path with no file behind it yet. */
    constructor (limits: Limits)
      ensures Valid() && !isOpen && this.limits == limits
      ensures File() == Disk(0, false, map[], map[], map[], None, 0)
    {
      this.limits := limits;
      rows, streams, fences, turn, nextRowid := [], map[], map[], 0, 0;
      hasScheduler, version, sequenced, isOpen, table := false, 0, false, false, map[];
    }

    // -------------------------------------------------------------- statements

    /** UPDATE outbox SET put WHERE where; `changes` counts the rows the condition picked. */
    method Update(where: Row -> bool, put: Row -> Row) returns (changes: nat)
      requires Valid()
      requires forall r :: put(r).ev == r.ev && put(r).rowid == r.rowid
      modifies this`rows, this`table
      ensures Valid()
      ensures table == Updated(old(table), where, put)
      ensures changes == |Matching(old(table), where)|
    {
      rows, changes := UpdateRows(rows, table, where, put);
      table := Updated(table, where, put);
    }

    /** DELETE FROM outbox WHERE where. */
    method Delete(where: Row -> bool)
      requires Valid()
      modifies this`rows, this`table
      ensures Valid()
      ensures table == Without(old(table), where)
    {
      rows := DeleteRows(rows, nextRowid, table, where);
      table := Without(table, where);
    }

    /** SELECT count(*), sum(length(payload)) FROM outbox. */
    method Usage() returns (count: nat, bytes: nat)
      requires Valid()
      ensures count == |table| && bytes == Bytes(table)
    {
      count, bytes := CountRows(rows, table);
    }

    /** SELECT ... FROM outbox WHERE event_id=id. */
    method Get(id: EventId) returns (r: Option<Row>)
      requires Valid()
      ensures r == if isOpen && id in table then Some(table[id]) else None
    {
      if !isOpen { return None; }
      var i := 0;
      while i < |rows|
        invariant 0 <= i <= |rows|
        invariant forall k | 0 <= k < i :: rows[k].ev.id != id
      {
        if rows[i].ev.id == id { return Some(rows[i]); }
        i := i + 1;
      }
      r := None;
    }

    /** The end of a transaction that threw: every table is as it was when the transaction began. */
    method Rollback(rows0: seq<Row>, streams0: Streams, turn0: int, ghost table0: Rows)
      requires UniqueIds(rows0) && InRowidOrder(rows0, nextRowid) && Holds(rows0, table0)
      modifies this`rows, this`streams, this`turn, this`table
      ensures Valid() && rows == rows0 && streams == streams0 && turn == turn0 && table == table0
    {
      rows, streams, turn, table := rows0, streams0, turn0, table0;
    }

    // -------------------------------------------------------------- operations

    method FetchDue(now: int, limit: int) returns (out: seq<Row>)
      requires Valid()
      ensures if isOpen then IsFetch(Db(), now, limit, out) else out == []
    {
      if !isOpen { return []; }
      out := SelectDue(rows, streams, now, limit);
      forall i | 0 <= i < |out| ensures Stored(Db(), out[i]) && Due(streams, out[i], now) {
        assert out[i] in out && out[i] in rows;
      }
    }

    /** Puts the row in flight if it is a pending call head. */
    method Claim(id: EventId, wall: int) returns (ok: bool)
      requires Valid()
      modifies this`rows, this`table
      ensures Valid()
      ensures ok == (id in old(table) && old(table)[id].state == Pending && Head(streams, old(table)[id].ev))
      ensures table == if !ok then old(table) else
                       var r := old(table)[id];
                       old(table)[id := r.(state := InFlight, attempts := r.attempts + 1, updated := wall)]
    {
      var heads := streams;
      var where := (r: Row) => r.ev.id == id && r.state == Pending && Head(heads, r.ev);
      var put := (r: Row) => r.(state := InFlight, attempts := r.attempts + 1, updated := wall);
      OneMatch(table, where, put, id);
      var changes := Update(where, put);
      ok := changes == 1;
    }

    method MarkInFlight(id: EventId, wall: int) returns (ok: bool)
      requires Valid()
      modifies this`rows, this`table, this`streams, this`turn, this`nextRowid
      ensures Valid()
      ensures Atomic(old(Db()), if isOpen then OutboxModel.MarkInFlight(old(Db()), id, wall) else None, ok, Db())
    {
      if !isOpen { return false; }
      var rows0, streams0, turn0 := rows, streams, turn;
      ghost var table0 := table;
      var claimed := Claim(id, wall);
      if !claimed || !(turn < INT64_MAX) {
        Rollback(rows0, streams0, turn0, table0);
        return false;
      }
      TakeTurn(id);
      ok := true;
    }

    /** The scheduler's next turn goes to the row's call. */
    method TakeTurn(id: EventId)
      requires Valid() && isOpen && id in table
      modifies this`turn, this`streams
      ensures turn == old(turn) + 1 && streams == Serve(old(streams), table[id].ev.Cid(), turn)
    {
      turn := turn + 1;
      var row := Get(id);
      streams := Serve(streams, row.value.ev.Cid(), turn);
    }

    /** The call's cursor moves past `q`, and its next row becomes deliverable at `wall`. */
    method Advance(c: CallId, q: int, wall: int)
      requires Valid() && c in streams
      modifies this`streams, this`rows, this`table
      ensures Valid()
      ensures streams == old(streams)[c := old(streams)[c].(nextSeq := q + 1)]
      ensures table == Promote(old(table), c, q + 1, wall)
    {
      streams := streams[c := streams[c].(nextSeq := q + 1)];
      var _ := Update((r: Row) => r.ev.Cid() == c && r.ev.seqNo == Some(q + 1) && r.eligible == None,
                      (r: Row) => r.(eligible := Some(wall)));
    }

    method Remove(id: EventId)
      requires Valid()
      modifies this`rows, this`table
      ensures Valid() && table == old(table) - {id}
    {
      Delete((r: Row) => r.ev.id == id);
    }

    /** The acknowledged row, if it is its call's head, makes way for its successor. */
    method AckHead(id: EventId, ev: Event, wall: int) returns (ok: bool)
      requires Valid() && ev.Ordered()
      modifies this`streams, this`rows, this`table
      ensures Valid()
      ensures var c := ev.Cid();
              var q := if ev.seqNo.Some? then ev.seqNo.value else 0;
              && ok == (c in old(streams) && old(streams)[c].nextSeq == q)
              && if !ok then streams == old(streams) && table == old(table) else
                   && streams == old(streams)[c := old(streams)[c].(nextSeq := q + 1)]
                   && table == Promote(old(table), c, q + 1, wall) - {id}
    {
      var c := ev.Cid();
      var q := if ev.seqNo.Some? then ev.seqNo.value else 0;
      if c !in streams || streams[c].nextSeq != q { return false; }
      Advance(c, q, wall);
      Remove(id);
      ok := true;
    }

    method AckInFlight(id: EventId, ev: Event, wall: int) returns (ok: bool)
      requires Valid() && id in table && table[id].state == InFlight && table[id].ev == ev
      modifies this`streams, this`rows, this`table
      ensures Valid()
      ensures Atomic(old(Db()), OutboxModel.MarkAcked(old(Db()), id, wall), ok, Db())
    {
      if ev.Ordered() {
        ok := AckHead(id, ev, wall);
      } else {
        Remove(id);
        ok := true;
      }
    }

    method MarkAcked(id: EventId, wall: int) returns (ok: bool)
      requires Valid()
      modifies this`streams, this`rows, this`table
      ensures Valid()
      ensures Atomic(old(Db()), if isOpen then OutboxModel.MarkAcked(old(Db()), id, wall) else None, ok, Db())
    {
      var head := Get(id);
      if head == None || head.value.state != InFlight { return false; }
      ok := AckInFlight(id, head.value.ev, wall);
    }

    method MarkRetry(id: EventId, next: int, error: string, wall: int) returns (ok: bool)
      requires Valid()
      modifies this`rows, this`table, this`streams, this`turn, this`nextRowid
      ensures Valid()
      ensures var next := if isOpen then OutboxModel.MarkRetry(old(Db()), id, next, error, wall) else None;
              Atomic(old(Db()), next, ok, Db())
    {
      if !isOpen { return false; }
      var where := (r: Row) => r.ev.id == id && r.state == InFlight;
      var put := (r: Row) => r.(state := Pending, nextAttempt := next, lastError := error, updated := wall);
      OneMatch(table, where, put, id);
      var changes := Update(where, put);
      ok := changes == 1;
    }

    method MarkDead(id: EventId, error: string, wall: int) returns (ok: bool)
      requires Valid()
      modifies this`rows, this`table, this`streams, this`turn, this`nextRowid
      ensures Valid()
      ensures Atomic(old(Db()), if isOpen then OutboxModel.MarkDead(old(Db()), id, error, wall) else None, ok, Db())
    {
      if !isOpen { return false; }
      var where := (r: Row) => r.ev.id == id && r.state in {Pending, InFlight};
      var put := (r: Row) => r.(state := Dead, lastError := error, updated := wall);
      OneMatch(table, where, put, id);
      var changes := Update(where, put);
      ok := changes == 1;
    }

    method RetryDead(id: EventId, next: int, wall: int) returns (ok: bool)
      requires Valid()
      modifies this`rows, this`table, this`streams, this`turn, this`nextRowid
      ensures Valid()
      ensures Atomic(old(Db()), if isOpen then OutboxModel.RetryDead(old(Db()), id, next, wall) else None, ok, Db())
    {
      if !isOpen { return false; }
      var where := (r: Row) => r.ev.id == id && r.state == Dead;
      var put := (r: Row) => r.(state := Pending, nextAttempt := next, updated := wall, lastError := "");
      OneMatch(table, where, put, id);
      var changes := Update(where, put);
      ok := changes == 1;
    }

    method RequeueInFlight(next: int, wall: int) returns (ok: bool)
      requires Valid()
      modifies this`rows, this`table
      ensures Valid() && ok == isOpen
      ensures Db() == if ok then Requeue(old(Db()), next, wall) else old(Db())
    {
      if !isOpen { return false; }
      var _ := Update((r: Row) => r.state == InFlight,
                      (r: Row) => r.(state := Pending, nextAttempt := next, updated := wall));
      ok := true;
    }

    /** Returns how many rows expired, or -1 when the database is closed. */
    method ExpireTtl(now: int, ttl: int) returns (expired: int)
      requires Valid()
      modifies this`rows, this`table, this`streams, this`turn, this`nextRowid
      ensures Valid()
      ensures expired == if ttl <= 0 then 0 else if !isOpen then -1
                         else |set id | id in old(table) && Overage(old(Db()), old(table)[id], now, ttl)|
      ensures Db() == if isOpen then Expire(old(Db()), now, ttl) else old(Db())
    {
      if ttl <= 0 { return 0; }
      if !isOpen { return -1; }
      expired := ExpireRows(now, ttl);
    }

    method ExpireRows(now: int, ttl: int) returns (changes: nat)
      requires Valid() && 0 < ttl
      modifies this`rows, this`table
      ensures Valid() && table == Expire(old(Db()), now, ttl).rows
      ensures changes == |set id | id in old(table) && Overage(old(Db()), old(table)[id], now, ttl)|
    {
      var heads := streams;
      var where := (r: Row) => Expires(heads, r, now, ttl);
      var put := (r: Row) => r.(state := Dead, lastError := EXPIRED, updated := now);
      ExpiryIs(Db(), now, ttl, where, put);
      changes := Update(where, put);
    }

    // -------------------------------------------------------------- admission

    method IsFull(size: nat) returns (full: bool)
      requires Valid()
      ensures full == Full(table, size, limits)
    {
      var count, bytes := Usage();
      full := count >= limits.maxRows || bytes + size > limits.maxBytes;
    }

    /** Reclaims ungrouped expired rows, if the outbox is full. */
    method ReclaimIfFull(size: nat)
      requires Valid()
      modifies this`rows, this`table
      ensures Valid() && table == MakeRoom(old(table), size, limits)
    {
      var full := IsFull(size);
      if full { Delete((r: Row) => Reclaimable(r)); }
    }

    /** Finds or starts the request's stream and takes its next position, or the one it asks for. */
    method TakePosition(a: Request) returns (error: Option<AdmitError>, seqNo: int, deliverable: bool)
      modifies this`streams
      ensures match Place(old(streams), a, limits)
              case Unplaced(e) => error == Some(e)
              case Given(q, st) =>
                && error == None && seqNo == q && deliverable == (q == st.nextSeq)
                && streams == old(streams)[a.Cid() := st.(admitSeq := Max(st.admitSeq, q + 1))]
    {
      error, seqNo, deliverable := None, a.seqNo, false;
      if |a.key| == 0 { return Some(MissingKey), seqNo, false; }
      var c := a.Cid();
      if c in streams {
        var st := streams[c];
        if st.key != a.key || st.mode != a.Mode() { return Some(KeyOrModeChanged), seqNo, false; }
        if seqNo < 0 {
          seqNo := st.admitSeq;
        } else if seqNo < st.nextSeq {
          return Some(AlreadyAcked), seqNo, false;
        }
        deliverable := seqNo == st.nextSeq;
      } else {
        if |streams| >= limits.maxRows { return Some(StreamCapacity), seqNo, false; }
        streams := streams[c := Stream(a.key, a.Mode(), 0, 0, 0)];
        if seqNo < 0 { seqNo := 0; }
        deliverable := seqNo == 0;
      }
      if seqNo < 0 || INT64_MAX <= seqNo { return Some(SequenceRange), seqNo, false; }
      streams := streams[c := streams[c].(admitSeq := Max(streams[c].admitSeq, seqNo + 1))];
    }

    /** INSERT, if the table's constraints allow it. */
    method Add(r: Row) returns (ok: bool)
      requires Valid() && r.rowid == nextRowid
      modifies this`rows, this`table, this`nextRowid
      ensures Valid() && ok == Unique(old(table), r.ev)
      ensures table == (if ok then old(table)[r.ev.id := r] else old(table))
      ensures nextRowid == old(nextRowid) + if ok then 1 else 0
    {
      ok := Admissible(rows, table, r.ev);
      if ok {
        AddedHolds(rows, nextRowid, table, r);
        rows, table, nextRowid := rows + [r], table[r.ev.id := r], nextRowid + 1;
      }
    }

    /** The work of an admission; whatever it did is undone by the caller when it reports an error. */
    method Accept(a: Request, wall: int) returns (error: Option<AdmitError>, ordinal: int)
      requires Valid()
      modifies this`rows, this`table, this`streams, this`nextRowid
      ensures Valid()
      ensures match Insert(old(Db()), a, wall, limits)
              case Admitted(t, ev) =>
                && error == None && Db() == t
                && if a.Ordered() then ev.seqNo == Some(ordinal) else ordinal == -1
              case Refused(e) => error == Some(e) && nextRowid == old(nextRowid)
    {
      ordinal := -1;
      if a.Ordered() && a.Cid() in fences { return Some(Retired), -1; }
      ReclaimIfFull(|a.payload|);
      var full := IsFull(|a.payload|);
      if full { return Some(Capacity), -1; }
      var deliverable := true;
      if a.Ordered() {
        error, ordinal, deliverable := TakePosition(a);
        if error.Some? { return error, -1; }
      } else if a.seqNo >= 0 {
        return Some(SequenceWithoutCall), -1;
      }
      var ev := Event(a.id, a.topic, a.key, a.call, if a.Ordered() then Some(ordinal) else None, a.payload);
      var added := Add(NewRow(a, ev, deliverable, wall, nextRowid));
      error := if added then None else Some(Duplicate);
    }

    method InsertPending(a: Request, wall: int) returns (ok: bool, ordinal: int, error: Option<AdmitError>)
      requires Valid()
      modifies this`rows, this`table, this`streams, this`turn, this`nextRowid
      ensures Valid()
      ensures if !isOpen then !ok && ordinal == -1 && Db() == old(Db()) else
              match Insert(old(Db()), a, wall, limits)
              case Admitted(t, ev) =>
                ok && Db() == t && ordinal == if a.Ordered() then ev.seqNo.value else -1
              case Refused(e) => !ok && Db() == old(Db()) && ordinal == -1 && error == Some(e)
    {
      if !isOpen { return false, -1, None; }
      var rows0, streams0, turn0 := rows, streams, turn;
      ghost var table0 := table;
      error, ordinal := Accept(a, wall);
      ok := error == None;
      if !ok {
        Rollback(rows0, streams0, turn0, table0);
        ordinal := -1;
      }
    }

    // -------------------------------------------------------------- send failures

    /** One policy for failed hand-overs and failed delivery reports, on the durable attempt count. */
    method SettleSendFailure(id: EventId, maxAttempts: int, permanent: bool, error: string,
                             next: int, wall: int) returns (settled: Option<Settled>)
      requires Valid()
      modifies this`rows, this`table, this`streams, this`turn, this`nextRowid
      ensures Valid()
      ensures var r := if isOpen then Settle(old(Db()), id, maxAttempts, permanent, error, next, wall)
                       else None;
              if r.Some? then Db() == r.value.0 && settled == Some(r.value.1)
              else Db() == old(Db()) && settled == None
      ensures settled.Some? <==> isOpen && id in old(table) && old(table)[id].state == InFlight
      ensures settled.Some? ==>
                var dies := permanent || old(table)[id].attempts >= maxAttempts;
                && settled.value == (if dies then DeadLetter else Retry)
                && id in table && table[id] == SettledRow(old(table)[id], dies, error, next, wall)
    {
      var cur := Get(id);
      if cur == None || cur.value.state != InFlight { return None; }
      if permanent || cur.value.attempts >= maxAttempts {
        var dead := MarkDead(id, error, wall);
        return Some(DeadLetter);
      }
      var retried := MarkRetry(id, next, error, wall);
      settled := Some(Retry);
    }

    // -------------------------------------------------------------- opening and closing

    /** Whether the unique (topic, call, sequence) index can be made. */
    method HasClash() returns (found: bool)
      requires Valid()
      ensures found <==> Clash(table)
    {
      found := AnyClash(rows);
      ClashIs(rows, table);
    }

    method HasOrphan() returns (found: bool)
      requires Valid()
      ensures found <==> exists id :: id in table && Orphan(streams, table[id].ev)
    {
      var i := 0;
      while i < |rows|
        invariant 0 <= i <= |rows|
        invariant forall k | 0 <= k < i :: !Orphan(streams, rows[k].ev)
      {
        if Orphan(streams, rows[i].ev) { return true; }
        i := i + 1;
      }
      forall id | id in table ensures !Orphan(streams, table[id].ev) {
        var k :| 0 <= k < |rows| && rows[k] == table[id];
      }
      found := false;
    }

    method HasRetiredStream() returns (found: bool)
      ensures found <==> exists c :: c in fences && c in streams
    {
      var todo := fences.Keys;
      while todo != {}
        invariant todo <= fences.Keys
        invariant forall c | c in fences && c !in todo :: c !in streams
      {
        var c :| c in todo;
        if c in streams { return true; }
        todo := todo - {c};
      }
      found := false;
    }

    /** What stands in the way of opening the file. */
    method Inspect() returns (error: Option<OpenError>)
      requires Valid()
      ensures error == match OutboxUpgrade.Open(File()) case Opened(_) => None case NotOpened(e) => Some(e)
    {
      assert rows != [] ==> rows[0].ev.id in table;
      assert forall id | id in table :: table[id] in rows;
      if !sequenced && rows != [] { return Some(LegacyBacklog); }
      if version > SCHEMA { return Some(UnsupportedVersion); }
      var clash := HasClash();
      if clash { return Some(PositionTwice); }
      var orphan := HasOrphan();
      if orphan { return Some(CorruptCursor); }
      var retired := HasRetiredStream();
      error := if retired then Some(RetiredStillActive) else None;
    }

    method Open() returns (ok: bool, error: Option<OpenError>)
      requires Valid()
      modifies this
      ensures Valid()
      ensures if old(isOpen) then ok && File() == old(File()) && isOpen else
              match OutboxUpgrade.Open(old(File()))
              case Opened(s) => ok && isOpen && Db() == s && File() == Saved(s)
              case NotOpened(e) => !ok && error == Some(e) && !isOpen && File() == old(File())
    {
      if isOpen { return true, None; }
      error := Inspect();
      if error.Some? { return false, error; }
      Upgrade();
      ok := true;
    }

    /** Brings an acceptable file to the current schema. */
    method Upgrade()
      requires Valid() && OutboxUpgrade.Open(File()).Opened?
      modifies this
      ensures Valid() && isOpen && Opened(Db()) == OutboxUpgrade.Open(old(File())) && File() == Saved(Db())
    {
      StartScheduler();
      Stamp();
      sequenced, version, isOpen := true, SCHEMA, true;
    }

    /** INSERT OR IGNORE INTO order_scheduler. */
    method StartScheduler()
      modifies this`turn, this`hasScheduler
      ensures hasScheduler && turn == if old(hasScheduler) then old(turn) else Seed(streams)
    {
      if !hasScheduler {
        turn := LastTurn(streams);
        hasScheduler := true;
      }
    }

    /** Gives every deliverable row without an age the age of its creation. */
    method Stamp()
      requires Valid()
      modifies this`rows, this`table
      ensures Valid() && table == Stamped(old(table), streams)
    {
      var heads := streams;
      var changes := Update((r: Row) => r.eligible == None && Head(heads, r.ev),
                            (r: Row) => r.(eligible := Some(r.created)));
    }

    method Close()
      requires Valid()
      modifies this`isOpen
      ensures !isOpen
    {
      isOpen := false;
    }
  }
}

/** Opening a database file: what is refused, and what the schema upgrade fills in. */
module OutboxUpgrade {
  import opened OutboxModel
  import opened OutboxInvariant
  import opened OutboxTable

  /** A database file.  A missing call_seq or eligible_at_ms column reads as None in every row;
      `scheduler` is the one row of order_scheduler, None before version 3. */
  datatype Disk = Disk(version: int, sequenced: bool, rows: Rows, streams: Streams,
                       fences: map<CallId, Fence>, scheduler: Option<int>, nextRowid: nat)

  const SCHEMA := 5

  datatype OpenError = LegacyBacklog | UnsupportedVersion | PositionTwice | CorruptCursor | RetiredStillActive

  datatype Opening = Opened(store: Store) | NotOpened(error: OpenError)

  /** An ordered row that cannot be scheduled: no sequence, or no cursor. */
  predicate Orphan(streams: Streams, ev: Event) {
    ev.Ordered() && (ev.seqNo == None || ev.Cid() !in streams)
  }

  /** Rows that are deliverable already count their age from their creation. */
  function Stamped(rows: Rows, streams: Streams): Rows {
    map id | id in rows ::
      if rows[id].eligible == None && Head(streams, rows[id].ev)
      then rows[id].(eligible := Some(rows[id].created)) else rows[id]
  }

  predicate Latest(streams: Streams, turn: int) {
    (forall c | c in streams :: streams[c].lastServed <= turn)
    && exists c :: c in streams && streams[c].lastServed == turn
  }

  lemma {:induction false} LatestExists(streams: Streams)
    requires streams != map[]
    ensures exists turn :: Latest(streams, turn)
    decreases |streams|
  {
    var c :| c in streams;
    var rest := streams - {c};
    if rest == map[] {
      assert streams.Keys == {c} + rest.Keys;
      assert Latest(streams, streams[c].lastServed);
    } else {
      LatestExists(rest);
      var t :| Latest(rest, t);
      var d :| d in rest && rest[d].lastServed == t;
      assert streams.Keys == {c} + rest.Keys;
      assert d in streams && c in streams;
      assert Latest(streams, Max(t, streams[c].lastServed));
    }
  }

  /** COALESCE(MAX(last_served_ms), 0). */
  ghost function Seed(streams: Streams): int {
    if streams == map[] then 0
    else
      LatestExists(streams);
      var turn :| Latest(streams, turn);
      turn
  }

  /** SELECT COALESCE(MAX(last_served_ms), 0) FROM call_streams. */
  method LastTurn(streams: Streams) returns (t: int)
    ensures t == Seed(streams)
  {
    if streams == map[] { return 0; }
    var c :| c in streams;
    t := streams[c].lastServed;
    var todo := streams.Keys - {c};
    while todo != {}
      invariant todo <= streams.Keys
      invariant forall d | d in streams && d !in todo :: streams[d].lastServed <= t
      invariant exists d :: d in streams && streams[d].lastServed == t
    {
      var d :| d in todo;
      if t < streams[d].lastServed { t := streams[d].lastServed; }
      todo := todo - {d};
    }
    LatestExists(streams);
    assert Latest(streams, t) && Latest(streams, Seed(streams));
  }

  /** The scheduler's turn, seeded from the calls if the file has none yet. */
  ghost function Turn(d: Disk): int { if d.scheduler.Some? then d.scheduler.value else Seed(d.streams) }

  /** INSERT OR IGNORE INTO order_scheduler, and the turn it leaves. */
  method CurrentTurn(d: Disk) returns (t: int)
    ensures t == Turn(d)
  {
    if d.scheduler.Some? { return d.scheduler.value; }
    t := LastTurn(d.streams);
  }

  ghost function Open(d: Disk): Opening {
    if !d.sequenced && d.rows != map[] then NotOpened(LegacyBacklog)
    else if d.version > SCHEMA then NotOpened(UnsupportedVersion)
    else if Clash(d.rows) then NotOpened(PositionTwice)
    else if exists id :: id in d.rows && Orphan(d.streams, d.rows[id].ev) then NotOpened(CorruptCursor)
    else if exists c :: c in d.fences && c in d.streams then NotOpened(RetiredStillActive)
    else
      Opened(Store(Stamped(d.rows, d.streams), d.streams, d.fences, Turn(d), d.nextRowid))
  }

  /** The file an open database leaves behind. */
  function Saved(s: Store): Disk {
    Disk(SCHEMA, true, s.rows, s.streams, s.fences, Some(s.turn), s.nextRowid)
  }

  /** A crash after the upgrade committed repeats nothing: the file opens to the same store, however
      often that happens before the requeue. */
  lemma ReopeningChangesNothing(d: Disk)
    requires Open(d).Opened?
    ensures Open(Saved(Open(d).store)) == Open(d)
  {
    var s := Open(d).store;
    forall id | id in s.rows ensures !Orphan(s.streams, s.rows[id].ev) {
      assert !Orphan(d.streams, d.rows[id].ev);
    }
    NoClashKept(d.rows, s.rows);
    assert Stamped(s.rows, s.streams) == s.rows;
  }

  lemma NoClashKept(rows: Rows, more: Rows)
    requires !Clash(rows) && more.Keys == rows.Keys && forall id | id in rows :: more[id].ev == rows[id].ev
    ensures !Clash(more)
  {
  }

  /** A sound store closes and opens unchanged. */
  lemma SoundStoreReopens(s: Store)
    requires StoreInv(s)
    ensures Open(Saved(s)) == Opened(s)
  {
    forall id | id in s.rows
      ensures !Orphan(s.streams, s.rows[id].ev)
      ensures Stamped(s.rows, s.streams)[id] == s.rows[id]
    {
      assert RowOk(s.streams, s.rows[id]);
    }
    SoundHasNoClash(s.rows);
    assert Stamped(s.rows, s.streams) == s.rows;
  }

  /** Rows outside calls have no sequence, and no position is held twice. */
  lemma SoundHasNoClash(rows: Rows)
    requires Distinct(rows) && forall id | id in rows && !rows[id].ev.Ordered() :: rows[id].ev.seqNo == None
    ensures !Clash(rows)
  {
    forall id, id' | id in rows && id' in rows && id != id' ensures !SameEntry(rows[id].ev, rows[id'].ev) {
      assert !SamePosition(rows[id].ev, rows[id'].ev);
    }
  }

  /** The row is in its call's window under the call's key, and has an age only if deliverable;
      it may be in flight wherever it stands. */
  predicate Loadable(streams: Streams, r: Row) {
    if !r.ev.Ordered() then r.ev.seqNo == None
    else
      r.ev.seqNo.Some? && r.ev.Cid() in streams &&
      var st := streams[r.ev.Cid()];
      st.nextSeq <= r.ev.seqNo.value < st.admitSeq && r.ev.key == st.key
      && (r.eligible.Some? ==> r.ev.seqNo.value == st.nextSeq)
  }

  ghost predicate Recoverable(d: Disk) {
    && d.version <= SCHEMA && (d.sequenced || d.rows == map[])
    && (forall id | id in d.rows :: d.rows[id].ev.id == id && d.rows[id].rowid < d.nextRowid)
    && (forall id | id in d.rows :: Loadable(d.streams, d.rows[id]))
    && Distinct(d.rows)
    && (forall c | c in d.fences :: 0 <= d.fences[c].nextSeq)
    && var s := Store(d.rows, d.streams, d.fences, 0, d.nextRowid);
       (forall c | c in d.streams :: StreamOk(s, c)) && d.streams.Keys !! d.fences.Keys && Contiguous(s)
  }

  lemma RecoverableOpens(d: Disk)
    requires Recoverable(d)
    ensures Open(d).Opened?
  {
    forall id | id in d.rows ensures !Orphan(d.streams, d.rows[id].ev) {
      assert Loadable(d.streams, d.rows[id]);
    }
    forall id | id in d.rows && !d.rows[id].ev.Ordered() ensures d.rows[id].ev.seqNo == None {
      assert Loadable(d.streams, d.rows[id]);
    }
    SoundHasNoClash(d.rows);
  }

  lemma RecoveredRow(streams: Streams, r: Row)
    requires Loadable(streams, r)
    ensures var r' := if r.eligible == None && Head(streams, r.ev)
                      then r.(eligible := Some(r.created)) else r;
            RowOk(streams, r'.(state := if r.state == InFlight then Pending else r.state))
  {
  }

  /** The identities of the rows, and so a call's window, come through unchanged. */
  lemma StartKeepsWindows(d: Disk, next: int, wall: int)
    requires Open(d).Opened?
    requires Contiguous(Store(d.rows, d.streams, d.fences, 0, d.nextRowid)) && Distinct(d.rows)
    ensures var t := Requeue(Open(d).store, next, wall); Contiguous(t) && Distinct(t.rows)
  {
    var t := Requeue(Open(d).store, next, wall);
    forall id | id in d.rows
      ensures t.rows[id].ev == d.rows[id].ev && t.rows[id].rowid == d.rows[id].rowid
    {
    }
    SameIdentities(Store(d.rows, d.streams, d.fences, 0, d.nextRowid), t);
  }

  lemma SameIdentities(s: Store, t: Store)
    requires t.rows.Keys == s.rows.Keys && t.streams == s.streams
    requires forall id | id in s.rows ::
               t.rows[id].ev == s.rows[id].ev && t.rows[id].rowid == s.rows[id].rowid
    requires Contiguous(s) && Distinct(s.rows)
    ensures Contiguous(t) && Distinct(t.rows)
  {
    forall c, q: int | c in t.streams && t.streams[c].mode == Admission
                       && t.streams[c].nextSeq <= q < t.streams[c].admitSeq
      ensures Occupied(t.rows, c, q)
    {
      assert Occupied(s.rows, c, q);
    }
  }

  /** Main result for start-up: opening a recoverable file, whatever version and wherever its
      in-flight and dead rows stand, and requeueing, establishes the invariant. */
  lemma StartRecovers(d: Disk, next: int, wall: int)
    requires Recoverable(d)
    ensures Open(d).Opened? && StoreInv(Requeue(Open(d).store, next, wall))
  {
    RecoverableOpens(d);
    StartKeepsWindows(d, next, wall);
    var t := Requeue(Open(d).store, next, wall);
    forall id | id in t.rows ensures RowOk(t.streams, t.rows[id]) {
      RecoveredRow(d.streams, d.rows[id]);
    }
    forall c | c in t.streams ensures StreamOk(t, c) {
      assert StreamOk(Store(d.rows, d.streams, d.fences, 0, d.nextRowid), c);
    }
  }

  /** The turn an upgrade starts from is above every call already served; it is also at or above the
      turn of calls still to come, which start at 0, exactly if not every old timestamp is negative. */
  lemma SeedDominates(streams: Streams)
    ensures forall c | c in streams :: streams[c].lastServed <= Seed(streams)
    ensures 0 <= Seed(streams) <==>
              streams == map[] || exists c :: c in streams && 0 <= streams[c].lastServed
  {
    if streams != map[] {
      LatestExists(streams);
      assert Latest(streams, Seed(streams));
    }
  }

  // ---------------------------------------------------------------- opening, in the file's own fields

  /** The events claim one entry of the (topic, call, sequence) index. */
  predicate Twins(e: Event, f: Event) {
    e.topic == f.topic && e.call == f.call && e.seqNo != None && e.seqNo == f.seqNo
  }

  predicate TwoAtOne(rows: Rows) {
    exists x, y :: x in rows && y in rows && x != y && Twins(rows[x].ev, rows[y].ev)
  }

  /** The event is of a call, and has no sequence, or its call no cursor. */
  predicate Stray(streams: Streams, e: Event) {
    e.call != "" && (e.seqNo == None || CallId(e.topic, e.call) !in streams)
  }

  predicate Lost(d: Disk) { exists x :: x in d.rows && Stray(d.streams, d.rows[x].ev) }

  predicate StillActive(d: Disk) { exists c :: c in d.fences && c in d.streams }

  lemma TwinsAre(rows: Rows)
    ensures TwoAtOne(rows) <==> Clash(rows)
  {
    assert forall e: Event, f: Event :: Twins(e, f) <==> SameEntry(e, f);
  }

  lemma StraysAre(d: Disk)
    ensures Lost(d) <==> exists id :: id in d.rows && Orphan(d.streams, d.rows[id].ev)
  {
    assert forall e: Event :: Stray(d.streams, e) <==> Orphan(d.streams, e);
  }

  /** Which files open, and the first thing wrong with those that do not. */
  lemma OpeningIs(d: Disk)
    ensures var plain := !d.sequenced && d.rows != map[];
            var fit := !plain && d.version <= 5;
            var sound := fit && !TwoAtOne(d.rows);
            && (Open(d) == NotOpened(LegacyBacklog) <==> plain)
            && (Open(d) == NotOpened(UnsupportedVersion) <==> !plain && d.version > 5)
            && (Open(d) == NotOpened(PositionTwice) <==> fit && TwoAtOne(d.rows))
            && (Open(d) == NotOpened(CorruptCursor) <==> sound && Lost(d))
            && (Open(d) == NotOpened(RetiredStillActive) <==> sound && !Lost(d) && StillActive(d))
            && (Open(d).Opened? <==> sound && !Lost(d) && !StillActive(d))
  {
    TwinsAre(d.rows);
    StraysAre(d);
  }

  /** What opening fills in: the age of rows that may be sent, which is their creation, and the scheduler's
      turn, which is the latest service time there is, or 0. */
  lemma OpeningWrites(d: Disk)
    requires Open(d).Opened?
    ensures var s := Open(d).store;
            && s == Store(s.rows, d.streams, d.fences, s.turn, d.nextRowid) && s.rows.Keys == d.rows.Keys
            && (forall x | x in d.rows ::
                  var r, c := d.rows[x], CallId(d.rows[x].ev.topic, d.rows[x].ev.call);
                  var sendable := r.ev.call == "" || (c in d.streams && r.ev.seqNo == Some(d.streams[c].nextSeq));
                  s.rows[x] == if r.eligible == None && sendable then r.(eligible := Some(r.created)) else r)
            && (match d.scheduler
                case Some(turn) => s.turn == turn
                case None =>
                  if d.streams == map[] then s.turn == 0
                  else (forall c | c in d.streams :: d.streams[c].lastServed <= s.turn)
                       && exists c :: c in d.streams && d.streams[c].lastServed == s.turn)
  {
    if d.streams != map[] {
      LatestExists(d.streams);
      assert Latest(d.streams, Seed(d.streams));
    }
  }
}

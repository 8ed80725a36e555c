/** What the durable store and the broker's log have to do with each other, in every reachable world. */
module PipelineHistory {
  import opened OutboxModel
  import opened OutboxInvariant
  import opened PipelineProtocol

  /** How far a call has been acknowledged, and admitted, across retirement. */
  function Cursor(s: Store, c: CallId): int {
    if c in s.streams then s.streams[c].nextSeq
    else if c in s.fences then s.fences[c].nextSeq else 0
  }

  function Admits(s: Store, c: CallId): int {
    if c in s.streams then s.streams[c].admitSeq
    else if c in s.fences then s.fences[c].nextSeq else 0
  }

  predicate Known(s: Store, c: CallId) { c in s.streams || c in s.fences }

  function KeyOf(s: Store, c: CallId): string
    requires Known(s, c)
  {
    if c in s.streams then s.streams[c].key else s.fences[c].key
  }

  /** An admitted ordered event carries its call's key and lies below what the call admitted; it is
      acknowledged exactly when it lies below the cursor. */
  predicate Placed(s: Store, ev: Event, acked: bool) {
    var c := ev.Cid();
    && ev.seqNo.Some? && Known(s, c) && ev.key == KeyOf(s, c) && |ev.key| > 0
    && 0 <= ev.seqNo.value < Admits(s, c)
    && (acked <==> ev.seqNo.value < Cursor(s, c))
  }

  predicate At(ev: Event, c: CallId, q: int) {
    ev.Ordered() && ev.Cid() == c && ev.seqNo == Some(q)
  }

  predicate Logged(logs: Logs, c: CallId, q: int) {
    exists p, i :: p in logs && 0 <= i < |logs[p]| && At(logs[p][i], c, q)
  }

  predicate Earlier(log: seq<Event>, j: int, c: CallId, m: int)
    requires 0 <= j <= |log|
  {
    exists i :: 0 <= i < j && At(log[i], c, m)
  }

  /** Before any copy of position q of a call, the log holds every position below q. */
  predicate PrefixClosed(log: seq<Event>) {
    forall j, m: int | 0 <= j < |log| && log[j].Ordered() && log[j].seqNo.Some?
                       && 0 <= m < log[j].seqNo.value ::
      Earlier(log, j, log[j].Cid(), m)
  }

  /** Every event admitted is in exactly one place: acknowledged, still a row, or reclaimed; and
      only ungrouped events are ever reclaimed. */
  ghost predicate Conserved(s: Store, h: History) {
    && h.admitted.Keys == s.rows.Keys + h.acked + h.reclaimed
    && s.rows.Keys !! h.acked !! h.reclaimed
    && h.rejected !! h.admitted.Keys
    && (forall id | id in h.reclaimed :: !h.admitted[id].Ordered())
  }

  ghost predicate Recorded(s: Store, h: History) {
    && (forall id | id in h.admitted :: h.admitted[id].id == id)
    && (forall id | id in s.rows :: id in h.admitted && s.rows[id].ev == h.admitted[id])
  }

  ghost predicate AllPlaced(s: Store, h: History) {
    forall id | id in h.admitted && h.admitted[id].Ordered() ::
      Placed(s, h.admitted[id], id in h.acked)
  }

  /** No position of a call was ever given to two events. */
  ghost predicate OnePerPosition(h: History) {
    forall id, id' | id in h.admitted && id' in h.admitted && id != id' ::
      !SamePosition(h.admitted[id], h.admitted[id'])
  }

  predicate CopyOf(h: History, ev: Event) { ev.id in h.admitted && ev == h.admitted[ev.id] }

  /** Whatever is on the network or in a log is a copy of an admitted event. */
  ghost predicate CopiesKnown(h: History) {
    && (forall ev | ev in h.network :: CopyOf(h, ev))
    && (forall p, i | p in h.logs && 0 <= i < |h.logs[p]| :: h.logs[p][i] in h.network)
  }

  /** Every position below a call's cursor is in the log. */
  ghost predicate Filled(s: Store, h: History) {
    forall c, q: int | 0 <= q < Cursor(s, c) :: Logged(h.logs, c, q)
  }

  ghost predicate AckedAreLogged(h: History) {
    forall id | id in h.acked :: id in h.admitted && InLogs(h.logs, h.admitted[id])
  }

  /** What holds of a store and its history whatever was sent before, and in whatever order. */
  ghost predicate HistoryInv(s: Store, h: History) {
    && Conserved(s, h) && Recorded(s, h) && AllPlaced(s, h) && OnePerPosition(h)
    && CopiesKnown(h) && Filled(s, h) && AckedAreLogged(h)
  }

  // ---------------------------------------------------------------- the order of the logs

  ghost predicate LogsClosed(h: History) {
    forall p | p in h.logs :: PrefixClosed(h.logs[p])
  }

  /** Each keyed copy is in its key's partition. */
  ghost predicate InPlace(cfg: Config, h: History) {
    forall p, i | p in h.logs && 0 <= i < |h.logs[p]| && |h.logs[p][i].key| > 0 ::
      p == cfg.partition(h.logs[p][i].key)
  }

  /** The logs are as consumers are promised. */
  ghost predicate OrderedLogs(cfg: Config, h: History) { LogsClosed(h) && InPlace(cfg, h) }

  /** The copy may arrive at any time: all earlier positions of its call are there already. */
  predicate Harmless(cfg: Config, h: History, ev: Event) {
    ev.Ordered() && ev.seqNo.Some? ==>
      var log := LogOf(h.logs, cfg.partition(ev.key));
      forall m: int | 0 <= m < ev.seqNo.value :: Earlier(log, |log|, ev.Cid(), m)
  }

  /** The logs are in order, and no copy still on its way can change that. */
  ghost predicate OrderInv(cfg: Config, h: History) {
    OrderedLogs(cfg, h) && forall ev | ev in h.network :: Harmless(cfg, h, ev)
  }

  // ---------------------------------------------------------------- quiet steps

  /** What the history relates to is untouched: rows' identities, cursors, windows and keys. */
  ghost predicate SameView(s: Store, t: Store) {
    && t.rows.Keys == s.rows.Keys
    && (forall id | id in s.rows :: t.rows[id].ev == s.rows[id].ev)
    && (forall c {:trigger Known(t, c)} {:trigger Cursor(t, c)} {:trigger Admits(t, c)} ::
          Known(t, c) == Known(s, c) && Cursor(t, c) == Cursor(s, c) && Admits(t, c) == Admits(s, c)
          && (Known(t, c) ==> KeyOf(t, c) == KeyOf(s, c)))
  }

  lemma QuietIsSameView(s: Store, t: Store)
    requires Quiet(s, t)
    ensures SameView(s, t)
  {
  }

  lemma SameViewKeeps(s: Store, t: Store, h: History)
    requires HistoryInv(s, h) && SameView(s, t)
    ensures HistoryInv(t, h)
  {
    forall id | id in h.admitted && h.admitted[id].Ordered()
      ensures Placed(t, h.admitted[id], id in h.acked)
    {
      assert Placed(s, h.admitted[id], id in h.acked);
    }
    forall c, q: int | 0 <= q < Cursor(t, c) ensures Logged(h.logs, c, q) {}
  }

  // ---------------------------------------------------------------- admission

  /** Admission stretches one call's window by a position nothing was ever admitted at. */
  lemma InsertedIsNew(s: Store, t: Store, kept: Rows, row: Row, h: History, id: EventId)
    requires StoreInv(s) && Recorded(s, h) && AllPlaced(s, h) && Conserved(s, h)
    requires Inserted(s, t, kept, row) && id in h.admitted
    ensures !SamePosition(h.admitted[id], row.ev)
  {
    var e := h.admitted[id];
    if e.Ordered() && e.Cid() == row.ev.Cid() {
      assert Placed(s, e, id in h.acked);
      if id in s.rows { assert RowOk(s.streams, s.rows[id]) && !Reclaimable(s.rows[id]); }
    }
  }

  lemma InsertedKeepsView(s: Store, t: Store, kept: Rows, row: Row, c: CallId)
    requires StoreInv(s) && Inserted(s, t, kept, row)
    ensures Cursor(t, c) == Cursor(s, c) && Admits(s, c) <= Admits(t, c)
    ensures Known(s, c) ==> Known(t, c) && KeyOf(t, c) == KeyOf(s, c)
  {
  }

  ghost function Admitting(s: Store, t: Store, h: History, ev: Event): History {
    h.(admitted := h.admitted[ev.id := ev], reclaimed := h.reclaimed + (s.rows.Keys - t.rows.Keys))
  }

  lemma InsertedPlaces(s: Store, t: Store, kept: Rows, row: Row, h: History, id: EventId)
    requires StoreInv(s) && AllPlaced(s, h) && Inserted(s, t, kept, row)
    requires row.ev.id !in h.admitted && row.ev.id !in h.acked
    requires (id in h.admitted && h.admitted[id].Ordered()) || (id == row.ev.id && row.ev.Ordered())
    ensures Placed(t, Admitting(s, t, h, row.ev).admitted[id], id in h.acked)
  {
    if id in h.admitted {
      assert Placed(s, h.admitted[id], id in h.acked);
      InsertedKeepsView(s, t, kept, row, h.admitted[id].Cid());
    } else {
      InsertedKeepsView(s, t, kept, row, row.ev.Cid());
      if row.ev.Cid() in s.streams { assert StreamOk(s, row.ev.Cid()); }
    }
  }

  lemma InsertedConserves(s: Store, t: Store, kept: Rows, row: Row, h: History)
    requires Conserved(s, h) && Recorded(s, h) && Inserted(s, t, kept, row)
    requires row.ev.id !in h.admitted && row.ev.id !in h.rejected
    ensures Conserved(t, Admitting(s, t, h, row.ev))
  {
    var g := Admitting(s, t, h, row.ev);
    assert t.rows.Keys == kept.Keys + {row.ev.id} && kept.Keys <= s.rows.Keys;
    assert row.ev.id !in s.rows.Keys;
    forall id | id in g.reclaimed ensures !g.admitted[id].Ordered() {
      if id !in h.reclaimed { assert Reclaimable(s.rows[id]); }
    }
  }

  lemma InsertedRecords(s: Store, t: Store, kept: Rows, row: Row, h: History)
    requires Recorded(s, h) && Inserted(s, t, kept, row)
    requires row.ev.id !in h.admitted
    ensures Recorded(t, Admitting(s, t, h, row.ev))
  {
  }

  lemma InsertedKeepsPositions(s: Store, t: Store, kept: Rows, row: Row, h: History)
    requires StoreInv(s) && Recorded(s, h) && AllPlaced(s, h) && Conserved(s, h) && OnePerPosition(h)
    requires Inserted(s, t, kept, row) && row.ev.id !in h.admitted
    ensures OnePerPosition(Admitting(s, t, h, row.ev))
  {
    var g := Admitting(s, t, h, row.ev);
    forall id, id' | id in g.admitted && id' in g.admitted && id != id'
      ensures !SamePosition(g.admitted[id], g.admitted[id'])
    {
      if id == row.ev.id { InsertedIsNew(s, t, kept, row, h, id'); }
      else if id' == row.ev.id { InsertedIsNew(s, t, kept, row, h, id); }
    }
  }

  lemma InsertedFills(s: Store, t: Store, kept: Rows, row: Row, h: History)
    requires StoreInv(s) && Filled(s, h) && Inserted(s, t, kept, row)
    ensures Filled(t, h)
  {
    forall c, q: int | 0 <= q < Cursor(t, c) ensures Logged(h.logs, c, q) {
      InsertedKeepsView(s, t, kept, row, c);
    }
  }

  lemma InsertedPlacesAll(s: Store, t: Store, kept: Rows, row: Row, h: History)
    requires StoreInv(s) && AllPlaced(s, h) && Inserted(s, t, kept, row)
    requires row.ev.id !in h.admitted && row.ev.id !in h.acked
    ensures AllPlaced(t, Admitting(s, t, h, row.ev))
  {
    var g := Admitting(s, t, h, row.ev);
    forall id | id in g.admitted && g.admitted[id].Ordered() ensures Placed(t, g.admitted[id], id in g.acked) {
      InsertedPlaces(s, t, kept, row, h, id);
    }
  }

  lemma InsertedKeepsHistory(s: Store, t: Store, kept: Rows, row: Row, h: History)
    requires StoreInv(s) && HistoryInv(s, h) && Inserted(s, t, kept, row)
    requires row.ev.id !in h.admitted && row.ev.id !in h.rejected
    ensures HistoryInv(t, Admitting(s, t, h, row.ev))
  {
    InsertedConserves(s, t, kept, row, h);
    InsertedRecords(s, t, kept, row, h);
    InsertedPlacesAll(s, t, kept, row, h);
    InsertedKeepsPositions(s, t, kept, row, h);
    InsertedFills(s, t, kept, row, h);
    assert forall ev | ev in h.network :: CopyOf(h, ev);
  }

  // ---------------------------------------------------------------- sending

  lemma HandOverKeeps(s: Store, h: History, id: EventId)
    requires HistoryInv(s, h) && id in s.rows
    ensures HistoryInv(s, h.(network := h.network + {s.rows[id].ev}))
  {
    var g := h.(network := h.network + {s.rows[id].ev});
    forall ev | ev in g.network ensures CopyOf(g, ev) {
      if ev in h.network { assert CopyOf(h, ev); }
    }
  }

  /** An acknowledgement moves one cursor past a position that is in the log. */
  lemma AckedKeepsView(s: Store, id: EventId, wall: int, c: CallId)
    requires StoreInv(s) && MarkAcked(s, id, wall).Some?
    ensures var t := MarkAcked(s, id, wall).value;
            var ev := s.rows[id].ev;
            && Known(t, c) == Known(s, c) && Admits(t, c) == Admits(s, c)
            && (Known(s, c) ==> KeyOf(t, c) == KeyOf(s, c))
            && if ev.Ordered() && ev.Cid() == c
               then ev.seqNo == Some(Cursor(s, c)) && Cursor(t, c) == Cursor(s, c) + 1
               else Cursor(t, c) == Cursor(s, c)
  {
    assert RowOk(s.streams, s.rows[id]);
  }

  lemma AckedPlaces(s: Store, h: History, id: EventId, wall: int, k: EventId)
    requires StoreInv(s) && AllPlaced(s, h) && Recorded(s, h) && OnePerPosition(h)
    requires MarkAcked(s, id, wall).Some? && k in h.admitted && h.admitted[k].Ordered()
    ensures Placed(MarkAcked(s, id, wall).value, h.admitted[k], k in h.acked + {id})
  {
    assert Placed(s, h.admitted[k], k in h.acked);
    AckedKeepsView(s, id, wall, h.admitted[k].Cid());
    assert h.admitted[id] == s.rows[id].ev;
  }

  lemma AckedConserves(s: Store, h: History, id: EventId, wall: int)
    requires Conserved(s, h) && MarkAcked(s, id, wall).Some?
    ensures Conserved(MarkAcked(s, id, wall).value, h.(acked := h.acked + {id}))
  {
    assert MarkAcked(s, id, wall).value.rows.Keys == s.rows.Keys - {id};
  }

  lemma AckedRecords(s: Store, h: History, id: EventId, wall: int)
    requires Recorded(s, h) && MarkAcked(s, id, wall).Some?
    ensures Recorded(MarkAcked(s, id, wall).value, h.(acked := h.acked + {id}))
  {
  }

  lemma AckedKeepsHistory(s: Store, h: History, id: EventId, wall: int)
    requires StoreInv(s) && HistoryInv(s, h) && MarkAcked(s, id, wall).Some?
    requires InLogs(h.logs, s.rows[id].ev)
    ensures HistoryInv(MarkAcked(s, id, wall).value, h.(acked := h.acked + {id}))
  {
    var t := MarkAcked(s, id, wall).value;
    var g := h.(acked := h.acked + {id});
    AckedConserves(s, h, id, wall);
    AckedRecords(s, h, id, wall);
    forall k | k in g.admitted && g.admitted[k].Ordered() ensures Placed(t, g.admitted[k], k in g.acked) {
      AckedPlaces(s, h, id, wall, k);
    }
    assert forall ev | ev in g.network :: CopyOf(h, ev);
    forall c, q: int | 0 <= q < Cursor(t, c) ensures Logged(g.logs, c, q) {
      AckedKeepsView(s, id, wall, c);
      if q == Cursor(s, c) { InLogsIsLogged(h.logs, s.rows[id].ev, q); }
    }
  }

  lemma InLogsIsLogged(logs: Logs, ev: Event, q: int)
    requires InLogs(logs, ev) && ev.Ordered() && ev.seqNo == Some(q)
    ensures Logged(logs, ev.Cid(), q)
  {
    var p :| p in logs && ev in logs[p];
    var i :| 0 <= i < |logs[p]| && logs[p][i] == ev;
    assert At(logs[p][i], ev.Cid(), q);
  }

  // ---------------------------------------------------------------- the broker

  function Appended(h: History, p: int, copy: Event): History {
    h.(logs := h.logs[p := LogOf(h.logs, p) + [copy]])
  }

  lemma LoggedGrows(h: History, p: int, copy: Event, c: CallId, q: int)
    requires Logged(h.logs, c, q)
    ensures Logged(Appended(h, p, copy).logs, c, q)
  {
    var p', i :| p' in h.logs && 0 <= i < |h.logs[p']| && At(h.logs[p'][i], c, q);
    assert At(Appended(h, p, copy).logs[p'][i], c, q);
  }

  lemma AppendKeepsHistory(s: Store, h: History, p: int, copy: Event)
    requires HistoryInv(s, h) && copy in h.network
    ensures HistoryInv(s, Appended(h, p, copy))
  {
    var g := Appended(h, p, copy);
    assert forall ev | ev in g.network :: CopyOf(h, ev);
    forall c, q: int | 0 <= q < Cursor(s, c) ensures Logged(g.logs, c, q) {
      LoggedGrows(h, p, copy, c, q);
    }
    forall id | id in g.acked ensures InLogs(g.logs, g.admitted[id]) {
      var p' :| p' in h.logs && h.admitted[id] in h.logs[p'];
      assert h.admitted[id] in g.logs[p'];
    }
  }

  // ---------------------------------------------------------------- keeping the order

  lemma LogGrows(h: History, p: int, copy: Event, p': int, c: CallId, q: int)
    requires Earlier(LogOf(h.logs, p'), |LogOf(h.logs, p')|, c, q)
    ensures var log := LogOf(Appended(h, p, copy).logs, p'); Earlier(log, |log|, c, q)
  {
    var log := LogOf(h.logs, p');
    var i :| 0 <= i < |log| && At(log[i], c, q);
    assert At(LogOf(Appended(h, p, copy).logs, p')[i], c, q);
  }

  lemma HarmlessStays(cfg: Config, h: History, p: int, copy: Event, ev: Event)
    requires Harmless(cfg, h, ev)
    ensures Harmless(cfg, Appended(h, p, copy), ev)
  {
    if ev.Ordered() && ev.seqNo.Some? {
      var p' := cfg.partition(ev.key);
      var log := LogOf(Appended(h, p, copy).logs, p');
      forall m: int | 0 <= m < ev.seqNo.value ensures Earlier(log, |log|, ev.Cid(), m) {
        LogGrows(h, p, copy, p', ev.Cid(), m);
      }
    }
  }

  lemma ClosedGrows(log: seq<Event>, copy: Event)
    requires PrefixClosed(log)
    requires copy.Ordered() && copy.seqNo.Some? ==>
               forall m | 0 <= m < copy.seqNo.value :: Earlier(log, |log|, copy.Cid(), m)
    ensures PrefixClosed(log + [copy])
  {
    var log' := log + [copy];
    forall j, m: int | 0 <= j < |log'| && log'[j].Ordered() && log'[j].seqNo.Some?
                       && 0 <= m < log'[j].seqNo.value
      ensures Earlier(log', j, log'[j].Cid(), m)
    {
      assert Earlier(log, j, log'[j].Cid(), m);
      var i :| 0 <= i < j && At(log[i], log'[j].Cid(), m);
      assert At(log'[i], log'[j].Cid(), m);
    }
  }

  /** A copy leaves its log prefix-closed exactly if it was harmless. */
  lemma AppendCloses(cfg: Config, h: History, copy: Event)
    requires LogsClosed(h)
    ensures PrefixClosed(LogOf(h.logs, cfg.partition(copy.key)) + [copy]) <==> Harmless(cfg, h, copy)
  {
    var log := LogOf(h.logs, cfg.partition(copy.key));
    assert PrefixClosed(log);
    if Harmless(cfg, h, copy) {
      ClosedGrows(log, copy);
    } else {
      var m: int :| 0 <= m < copy.seqNo.value && !Earlier(log, |log|, copy.Cid(), m);
      assert (log + [copy])[|log|] == copy;
      assert !Earlier(log + [copy], |log|, copy.Cid(), m);
    }
  }

  /** An ordered event carries a key. */
  lemma OrderedIsKeyed(s: Store, h: History, ev: Event)
    requires AllPlaced(s, h) && CopyOf(h, ev) && ev.Ordered()
    ensures |ev.key| > 0 && ev.seqNo.Some? && 0 <= ev.seqNo.value < Admits(s, ev.Cid())
    ensures Known(s, ev.Cid()) && ev.key == KeyOf(s, ev.Cid())
  {
    assert Placed(s, h.admitted[ev.id], ev.id in h.acked);
  }

  lemma AppendKeepsOrder(cfg: Config, s: Store, h: History, p: int, copy: Event)
    requires HistoryInv(s, h) && OrderInv(cfg, h) && copy in h.network
    requires |copy.key| > 0 ==> p == cfg.partition(copy.key)
    ensures OrderInv(cfg, Appended(h, p, copy))
  {
    var g := Appended(h, p, copy);
    assert CopyOf(h, copy) && Harmless(cfg, h, copy);
    forall ev | ev in g.network ensures Harmless(cfg, g, ev) { HarmlessStays(cfg, h, p, copy, ev); }
    assert PrefixClosed(LogOf(h.logs, p));
    if copy.Ordered() {
      OrderedIsKeyed(s, h, copy);
      AppendCloses(cfg, h, copy);
    } else {
      ClosedGrows(LogOf(h.logs, p), copy);
    }
  }

  /** Whatever lies below a call's cursor is in the partition of the call's key. */
  lemma LoggedWhere(cfg: Config, s: Store, h: History, c: CallId, q: int)
    requires HistoryInv(s, h) && InPlace(cfg, h) && Logged(h.logs, c, q) && Known(s, c)
    ensures var log := LogOf(h.logs, cfg.partition(KeyOf(s, c))); Earlier(log, |log|, c, q)
  {
    var p, i :| p in h.logs && 0 <= i < |h.logs[p]| && At(h.logs[p][i], c, q);
    assert h.logs[p][i] in h.network;
    OrderedIsKeyed(s, h, h.logs[p][i]);
  }

  /** A row in flight sits at its call's cursor, and everything before it is in the log: a copy of
      it can do no harm, now or later. */
  lemma HandOverKeepsOrder(cfg: Config, s: Store, h: History, id: EventId)
    requires StoreInv(s) && HistoryInv(s, h) && OrderInv(cfg, h)
    requires id in s.rows && s.rows[id].state == InFlight
    ensures OrderInv(cfg, h.(network := h.network + {s.rows[id].ev}))
  {
    var ev := s.rows[id].ev;
    var g := h.(network := h.network + {ev});
    assert RowOk(s.streams, s.rows[id]) && CopyOf(h, ev);
    if ev.Ordered() {
      OrderedIsKeyed(s, h, ev);
      forall m: int | 0 <= m < ev.seqNo.value
        ensures var log := LogOf(h.logs, cfg.partition(ev.key)); Earlier(log, |log|, ev.Cid(), m)
      {
        LoggedWhere(cfg, s, h, ev.Cid(), m);
      }
    }
    forall e | e in g.network ensures Harmless(cfg, g, e) { assert e != ev ==> Harmless(cfg, h, e); }
  }

  // ---------------------------------------------------------------- runs

  /** A stopped pipeline over a sound store, whatever it sent before: a new one, one that was upgraded
      with its cursors, one that came out of migration, or one that another run left behind. */
  ghost predicate Initial(s: World) {
    StoreInv(s.store) && TurnInRange(s.store) && HistoryInv(s.store, s.h) && s.w == DOWN
  }

  datatype Trace = Trace(cfg: Config, worlds: seq<World>, labels: seq<Label>)

  ghost predicate StepAt(e: Trace, i: int)
    requires |e.worlds| == |e.labels| + 1 && 0 <= i < |e.labels|
  {
    Step(e.cfg, e.worlds[i], e.labels[i], e.worlds[i + 1])
  }

  ghost predicate BeginsAt(e: Trace, i: int)
    requires 0 <= i < |e.worlds|
  {
    Initial(e.worlds[i])
  }

  /** The trace begins in an initial world and every further world is a step from the one before. */
  ghost predicate IsRun(e: Trace) {
    && |e.worlds| == |e.labels| + 1
    && (forall i | i == 0 :: BeginsAt(e, i))
    && forall i | 0 <= i < |e.labels| :: StepAt(e, i)
  }

  const EMPTY_STORE := Store(map[], map[], map[], 0, 0)
  const EMPTY_WORLD := World(EMPTY_STORE, DOWN, History({}, map[], map[], {}, {}, {}))

  type Run = e: Trace | IsRun(e)
    ghost witness Trace(Config("", Limits(0, 0), 0, 0, false, (key: string) => 0), [EMPTY_WORLD], [])

  ghost function Last(run: Run): World { run.worlds[|run.worlds| - 1] }

  lemma ExtendIsRun(run: Run, l: Label)
    requires Enabled(run.cfg, Last(run), l) && Answered(Last(run), l)
    ensures IsRun(Trace(run.cfg, run.worlds + [Do(run.cfg, Last(run), l)], run.labels + [l]))
  {
    assert BeginsAt(run, 0);
    var e := Trace(run.cfg, run.worlds + [Do(run.cfg, Last(run), l)], run.labels + [l]);
    forall i | 0 <= i < |e.labels| ensures StepAt(e, i) {
      if i < |run.labels| { assert StepAt(run, i); }
    }
  }

  ghost function Extend(run: Run, l: Label): (more: Run)
    requires Enabled(run.cfg, Last(run), l) && Answered(Last(run), l)
    ensures more.cfg == run.cfg && more.labels == run.labels + [l]
    ensures more.worlds == run.worlds + [Last(more)] && Last(more) == Do(run.cfg, Last(run), l)
  {
    ExtendIsRun(run, l);
    Trace(run.cfg, run.worlds + [Do(run.cfg, Last(run), l)], run.labels + [l])
  }
}

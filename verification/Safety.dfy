/** Every step keeps the invariant of the whole pipeline, and what that means for whole runs. */
module PipelineSafety {
  import opened OutboxModel
  import opened OutboxInvariant
  import opened OutboxFetch
  import opened OutboxRetire
  import opened PipelineProtocol
  import opened PipelineHistory

  // ---------------------------------------------------------------- the worker's books

  ghost function InFlightIds(rows: Rows): set<EventId> {
    set id | id in rows && rows[id].state == InFlight
  }

  /** The messages the current producer owes a report for, and the row marked but not handed over. */
  function Held(w: Worker): set<EventId> {
    w.outstanding + if w.marked.Some? then {w.marked.value.ev.id} else {}
  }

  /** A fetched record that a later mark_in_flight will find pending at its call's head. */
  predicate Serviceable(s: Store, r: Row) {
    r.ev.id in s.rows && s.rows[r.ev.id].ev == r.ev
    && s.rows[r.ev.id].state == Pending && Head(s.streams, r.ev)
  }

  ghost predicate BatchOk(s: Store, batch: seq<Row>) {
    && (forall i | 0 <= i < |batch| :: Serviceable(s, batch[i]))
    && (forall i, j | 0 <= i < j < |batch| :: batch[i].ev.id != batch[j].ev.id)
  }

  ghost predicate WorkerInv(s: Store, w: Worker) {
    && (!w.up ==> w == DOWN)
    && (w.stage != Sending ==> w.batch == [] && w.marked == None)
    && (w.guardFailed ==> !w.running && !w.accepting && s.turn == INT64_MAX)
    && Held(w) <= InFlightIds(s.rows)
    && (w.up && !w.faulted && !w.guardFailed ==> Held(w) == InFlightIds(s.rows))
    && (w.marked.Some? ==>
          var r := w.marked.value;
          r.ev.id !in w.outstanding && r.ev.id in s.rows && s.rows[r.ev.id].ev == r.ev)
    && BatchOk(s, w.batch)
  }

  ghost predicate WorldInv(s: World) {
    && StoreInv(s.store) && TurnInRange(s.store)
    && HistoryInv(s.store, s.h)
    && WorkerInv(s.store, s.w)
  }

  // ---------------------------------------------------------------- the store

  lemma SettleMoves(s: Store, id: EventId, maxAttempts: int, permanent: bool, error: string,
                    next: int, wall: int)
    requires Settle(s, id, maxAttempts, permanent, error, next, wall).Some?
    ensures var t := Settle(s, id, maxAttempts, permanent, error, next, wall).value.0;
            && Moves(s, t) && InFlightIds(t.rows) == InFlightIds(s.rows) - {id}
            && forall k | k in s.rows && k != id :: t.rows[k] == s.rows[k]
  {
  }

  lemma InsertKeepsStore(s: Store, a: Request, wall: int, lim: Limits)
    requires StoreInv(s) && Insert(s, a, wall, lim).Admitted?
    ensures StoreInv(Insert(s, a, wall, lim).store)
    ensures Insert(s, a, wall, lim).store.turn == s.turn
  {
    var t := Insert(s, a, wall, lim).store;
    InsertIs(s, a, wall, lim);
    InsertedKeeps(s, t, MakeRoom(s.rows, |a.payload|, lim), t.rows[a.id]);
  }

  /** The steps that admit, send, acknowledge or retire; every other one at most moves rows between
      states. */
  predicate Moving(l: Label) { !l.Enqueue? && !l.Mark? && !l.Delivered? && !l.OperatorRetire? }

  lemma MovingStep(cfg: Config, s: World, l: Label, t: World)
    requires Moving(l) && Step(cfg, s, l, t)
    ensures Moves(s.store, t.store)
  {
    if l.Start? || l.Rebuild? {
      RequeueMoves(s.store, l.next, l.wall);
    } else if l.Scan? {
      ExpireMoves(s.store, l.now, cfg.ttl);
    } else if l.HandOverFailed? {
      FailureMoves(cfg, s, s.w.(marked := None), s.w.marked.value.ev.id, l.failure);
    } else if l.SendFailed? {
      FailureMoves(cfg, s, s.w.(outstanding := s.w.outstanding - {l.id}), l.id, l.failure);
    } else if l.OperatorRetry? {
      RetryDeadMoves(s.store, l.id, l.next, l.wall);
    }
  }

  lemma FailureMoves(cfg: Config, s: World, w: Worker, id: EventId, f: Failure)
    ensures Moves(s.store, Failed(cfg, s, w, id, f).store)
  {
    if Settle(s.store, id, cfg.maxAttempts, f.permanent, f.error, f.next, f.wall).Some? {
      SettleMoves(s.store, id, cfg.maxAttempts, f.permanent, f.error, f.next, f.wall);
    }
  }

  lemma StepKeepsStore(cfg: Config, s: World, l: Label, t: World)
    requires StoreInv(s.store) && TurnInRange(s.store) && Step(cfg, s, l, t)
    ensures StoreInv(t.store) && TurnInRange(t.store)
  {
    if l.Enqueue? {
      if t.store != s.store { InsertKeepsStore(s.store, l.a, l.a.created, cfg.limits); }
    } else if l.Mark? {
      if t.store != s.store { MarkInFlightKeeps(s.store, s.w.batch[0].ev.id, l.wall); }
    } else if l.Delivered? {
      if t.store != s.store { MarkAckedKeeps(s.store, l.id, l.wall); }
    } else if l.OperatorRetire? {
      RetireKeeps(s.store, l.c, l.at, l.reason, l.maxRows);
    } else {
      MovingStep(cfg, s, l, t);
      StepMoves(s, t);
    }
  }

  lemma StepMoves(s: World, t: World)
    requires StoreInv(s.store) && TurnInRange(s.store) && Moves(s.store, t.store)
    ensures StoreInv(t.store) && TurnInRange(t.store)
  {
    MovesKeep(s.store, t.store);
  }

  // ---------------------------------------------------------------- the history

  lemma RetireIsSameView(s: Store, c: CallId, at: int, reason: string, maxRows: int)
    requires Retire(s, c, at, reason, maxRows).Some?
    ensures SameView(s, Retire(s, c, at, reason, maxRows).value)
  {
  }

  lemma MovesAreQuiet(s: Store, t: Store)
    requires Moves(s, t)
    ensures Quiet(s, t)
  {
  }

  /** Every step but five changes neither a row's identity, nor a cursor, nor the broker's side. */
  lemma QuietStep(cfg: Config, s: World, l: Label, t: World)
    requires StoreInv(s.store) && Step(cfg, s, l, t)
    requires !l.Enqueue? && !l.HandOver? && !l.Delivered? && !l.Append? && !l.OperatorRetire?
    ensures Quiet(s.store, t.store) && t.h == s.h
  {
    if l.Mark? {
      if t.store != s.store { MarkInFlightKeeps(s.store, s.w.batch[0].ev.id, l.wall); }
    } else {
      MovingStep(cfg, s, l, t);
      MovesAreQuiet(s.store, t.store);
    }
  }

  lemma HandOverKeepsHistory(cfg: Config, s: World, t: World)
    requires WorldInv(s) && Step(cfg, s, HandOver, t)
    ensures HistoryInv(t.store, t.h)
  {
    assert s.w.marked.value.ev.id in InFlightIds(s.store.rows);
    HandOverKeeps(s.store, s.h, s.w.marked.value.ev.id);
  }

  lemma DeliveredKeepsHistory(cfg: Config, s: World, id: EventId, wall: int, t: World)
    requires StoreInv(s.store) && HistoryInv(s.store, s.h) && WorkerInv(s.store, s.w)
    requires Step(cfg, s, Delivered(id, wall), t)
    ensures HistoryInv(t.store, t.h)
  {
    assert id in InFlightIds(s.store.rows);
    assert s.store.rows[id].ev == s.h.admitted[id];
    if MarkAcked(s.store, id, wall).Some? { AckedKeepsHistory(s.store, s.h, id, wall); }
  }

  lemma EnqueueKeepsHistory(cfg: Config, s: World, l: Label, t: World)
    requires WorldInv(s) && Step(cfg, s, l, t) && l.Enqueue?
    ensures HistoryInv(t.store, t.h)
  {
    var a := l.a;
    if t.h.rejected == s.h.rejected {
      InsertIs(s.store, a, a.created, cfg.limits);
      InsertedKeepsHistory(s.store, t.store, MakeRoom(s.store.rows, |a.payload|, cfg.limits),
                           t.store.rows[a.id], s.h);
    } else {
      assert t.store == s.store && t.h == s.h.(rejected := s.h.rejected + {a.id});
      RejectedKeepsHistory(s.store, s.h, a.id);
    }
  }

  lemma RejectedKeepsHistory(s: Store, h: History, id: EventId)
    requires HistoryInv(s, h) && id !in h.admitted
    ensures HistoryInv(s, h.(rejected := h.rejected + {id}))
  {
    var g := h.(rejected := h.rejected + {id});
    assert forall ev | ev in g.network :: CopyOf(h, ev);
  }

  lemma QuietKeepsHistory(cfg: Config, s: World, l: Label, t: World)
    requires StoreInv(s.store) && HistoryInv(s.store, s.h) && Step(cfg, s, l, t)
    requires !l.Enqueue? && !l.HandOver? && !l.Delivered? && !l.Append? && !l.OperatorRetire?
    ensures HistoryInv(t.store, t.h)
  {
    QuietStep(cfg, s, l, t);
    QuietIsSameView(s.store, t.store);
    SameViewKeeps(s.store, t.store, s.h);
  }

  lemma StepKeepsHistory(cfg: Config, s: World, l: Label, t: World)
    requires WorldInv(s) && Step(cfg, s, l, t)
    ensures HistoryInv(t.store, t.h)
  {
    if l.Enqueue? {
      EnqueueKeepsHistory(cfg, s, l, t);
    } else if l.HandOver? {
      HandOverKeepsHistory(cfg, s, t);
    } else if l.Delivered? {
      DeliveredKeepsHistory(cfg, s, l.id, l.wall, t);
    } else if l.Append? {
      AppendKeepsHistory(s.store, s.h, l.partition, l.copy);
    } else if l.OperatorRetire? {
      RetireIsSameView(s.store, l.c, l.at, l.reason, l.maxRows);
      SameViewKeeps(s.store, t.store, s.h);
    } else {
      QuietKeepsHistory(cfg, s, l, t);
    }
  }

  // ---------------------------------------------------------------- the worker's books, kept

  /** Admission, even one that reclaims rows, leaves pending heads pending heads. */
  lemma InsertedServes(s: Store, t: Store, kept: Rows, row: Row, r: Row)
    requires Inserted(s, t, kept, row) && Serviceable(s, r)
    ensures Serviceable(t, r)
  {
  }

  /** Acknowledging an in-flight row moves the cursor of a call none of whose rows is serviceable. */
  lemma AckedServes(s: Store, id: EventId, wall: int, r: Row)
    requires StoreInv(s) && MarkAcked(s, id, wall).Some? && Serviceable(s, r)
    ensures Serviceable(MarkAcked(s, id, wall).value, r)
  {
    assert RowOk(s.streams, s.rows[id]) && r.ev.id != id;
    assert !SamePosition(s.rows[id].ev, r.ev);
  }

  lemma MarkedServes(s: Store, id: EventId, wall: int, r: Row)
    requires MarkInFlight(s, id, wall).Some? && Serviceable(s, r) && r.ev.id != id
    ensures Serviceable(MarkInFlight(s, id, wall).value, r)
  {
  }

  /** Every serviceable record is sent, short of an exhausted scheduler. */
  lemma ServiceableIsMarked(s: Store, r: Row, wall: int)
    requires Serviceable(s, r)
    ensures MarkInFlight(s, r.ev.id, wall).Some? <==> s.turn < INT64_MAX
    ensures s.turn < INT64_MAX ==>
              InFlightIds(MarkInFlight(s, r.ev.id, wall).value.rows) == InFlightIds(s.rows) + {r.ev.id}
  {
  }

  /** Every reported message is settled: its row is in flight and, if ordered, at its call's head. */
  lemma ReportFindsItsRow(s: Store, id: EventId, wall: int)
    requires StoreInv(s) && id in InFlightIds(s.rows)
    ensures MarkAcked(s, id, wall).Some?
    ensures InFlightIds(MarkAcked(s, id, wall).value.rows) == InFlightIds(s.rows) - {id}
  {
    assert RowOk(s.streams, s.rows[id]);
  }

  lemma InsertedKeepsWorker(s: Store, t: Store, kept: Rows, row: Row, w: Worker)
    requires WorkerInv(s, w) && Inserted(s, t, kept, row) && row.ev.id !in s.rows
    ensures WorkerInv(t, w)
  {
    assert forall id | id in InFlightIds(s.rows) :: id in kept;
    assert InFlightIds(t.rows) == InFlightIds(s.rows);
    forall i | 0 <= i < |w.batch| ensures Serviceable(t, w.batch[i]) {
      InsertedServes(s, t, kept, row, w.batch[i]);
    }
    if w.marked.Some? { assert w.marked.value.ev.id in InFlightIds(s.rows); }
  }

  lemma EnqueueKeepsWorker(cfg: Config, s: World, l: Label, t: World)
    requires StoreInv(s.store) && Recorded(s.store, s.h) && WorkerInv(s.store, s.w)
    requires Step(cfg, s, l, t) && l.Enqueue?
    ensures WorkerInv(t.store, t.w)
  {
    var a := l.a;
    if t.store != s.store {
      InsertIs(s.store, a, a.created, cfg.limits);
      assert t.store.rows[a.id].ev.id == a.id;
      InsertedKeepsWorker(s.store, t.store, MakeRoom(s.store.rows, |a.payload|, cfg.limits),
                          t.store.rows[a.id], s.w);
    }
  }

  lemma FetchKeepsWorker(cfg: Config, s: World, l: Label, t: World)
    requires StoreInv(s.store) && WorkerInv(s.store, s.w) && Step(cfg, s, l, t) && l.Fetch?
    ensures WorkerInv(t.store, t.w)
  {
    forall i | 0 <= i < |l.batch| ensures Serviceable(s.store, l.batch[i]) {
      assert Stored(s.store, l.batch[i]);
    }
    forall i, j | 0 <= i < j < |l.batch| ensures l.batch[i].ev.id != l.batch[j].ev.id {
      FetchOnePerCall(s.store, s.w.now, BATCH, l.batch, i, j);
    }
  }

  lemma MarkKeepsWorker(cfg: Config, s: World, l: Label, t: World)
    requires TurnInRange(s.store) && WorkerInv(s.store, s.w) && Step(cfg, s, l, t) && l.Mark?
    ensures WorkerInv(t.store, t.w)
  {
    var r := s.w.batch[0];
    assert Serviceable(s.store, r);
    ServiceableIsMarked(s.store, r, l.wall);
    if t.store != s.store {
      assert r.ev.id !in InFlightIds(s.store.rows);
      forall i | 0 <= i < |t.w.batch| ensures Serviceable(t.store, t.w.batch[i]) {
        assert t.w.batch[i] == s.w.batch[i + 1];
        MarkedServes(s.store, r.ev.id, l.wall, s.w.batch[i + 1]);
      }
    }
  }

  lemma DeliveredKeepsWorker(cfg: Config, s: World, l: Label, t: World)
    requires StoreInv(s.store) && WorkerInv(s.store, s.w) && Step(cfg, s, l, t) && l.Delivered?
    ensures WorkerInv(t.store, t.w)
  {
    assert l.id in InFlightIds(s.store.rows);
    ReportFindsItsRow(s.store, l.id, l.wall);
    AckedKeepsBatch(s.store, l.id, l.wall, s.w.batch);
    if s.w.marked.Some? {
      assert s.w.marked.value.ev.id in InFlightIds(s.store.rows);
      AckedKeepsOthers(s.store, l.id, l.wall, s.w.marked.value.ev.id);
    }
  }

  lemma AckedKeepsBatch(s: Store, id: EventId, wall: int, batch: seq<Row>)
    requires StoreInv(s) && MarkAcked(s, id, wall).Some? && BatchOk(s, batch)
    ensures BatchOk(MarkAcked(s, id, wall).value, batch)
  {
    forall i | 0 <= i < |batch| ensures Serviceable(MarkAcked(s, id, wall).value, batch[i]) {
      AckedServes(s, id, wall, batch[i]);
    }
  }

  lemma AckedKeepsOthers(s: Store, id: EventId, wall: int, k: EventId)
    requires MarkAcked(s, id, wall).Some? && k in s.rows && k != id
    ensures var t := MarkAcked(s, id, wall).value; k in t.rows && t.rows[k].ev == s.rows[k].ev
  {
  }

  /** A failure settles the row it was about and takes it out of the worker's books. */
  lemma FailureKeepsWorker(cfg: Config, s: World, w: Worker, id: EventId, f: Failure)
    requires WorkerInv(s.store, s.w) && s.w.up && id in Held(s.w)
    requires w.outstanding <= s.w.outstanding
             && w == s.w.(outstanding := w.outstanding, marked := w.marked)
    requires w.marked == None || w.marked == s.w.marked
    requires Held(w) == Held(s.w) - {id}
    ensures var t := Failed(cfg, s, w, id, f); WorkerInv(t.store, t.w)
  {
    assert id in InFlightIds(s.store.rows);
    var t := Failed(cfg, s, w, id, f);
    SettleMoves(s.store, id, cfg.maxAttempts, f.permanent, f.error, f.next, f.wall);
    forall i | 0 <= i < |w.batch| ensures Serviceable(t.store, w.batch[i]) {
      assert Serviceable(s.store, w.batch[i]);
    }
  }

  lemma ScanKeepsInFlight(s: Store, now: int, ttl: int)
    ensures InFlightIds(Expire(s, now, ttl).rows) == InFlightIds(s.rows)
  {
  }

  lemma StepKeepsWorker(cfg: Config, s: World, l: Label, t: World)
    requires StoreInv(s.store) && TurnInRange(s.store) && Recorded(s.store, s.h)
    requires WorkerInv(s.store, s.w) && Step(cfg, s, l, t)
    ensures WorkerInv(t.store, t.w)
  {
    if l.Enqueue? {
      EnqueueKeepsWorker(cfg, s, l, t);
    } else if l.Fetch? {
      FetchKeepsWorker(cfg, s, l, t);
    } else if l.Scan? {
      ScanKeepsWorker(cfg, s, l, t);
    } else if Requeues(l) {
      RequeueKeepsWorker(cfg, s, l, t);
    } else if SendsOrSettles(l) {
      SendKeepsWorker(cfg, s, l, t);
    } else {
      PlainKeepsWorker(cfg, s, l, t);
    }
  }

  /** Marks, and the outcomes of what was marked. */
  predicate SendsOrSettles(l: Label) { l.Mark? || l.Delivered? || l.HandOverFailed? || l.SendFailed? }

  lemma SendKeepsWorker(cfg: Config, s: World, l: Label, t: World)
    requires StoreInv(s.store) && TurnInRange(s.store) && WorkerInv(s.store, s.w)
    requires Step(cfg, s, l, t) && SendsOrSettles(l)
    ensures WorkerInv(t.store, t.w)
  {
    if l.Mark? {
      MarkKeepsWorker(cfg, s, l, t);
    } else if l.Delivered? {
      DeliveredKeepsWorker(cfg, s, l, t);
    } else if l.HandOverFailed? {
      FailureKeepsWorker(cfg, s, s.w.(marked := None), s.w.marked.value.ev.id, l.failure);
    } else {
      FailureKeepsWorker(cfg, s, s.w.(outstanding := s.w.outstanding - {l.id}), l.id, l.failure);
    }
  }

  /** Steps of a stopped process, and rebuilds: whatever was in flight is pending after them. */
  predicate Requeues(l: Label) { l.Start? || l.Rebuild? || l.OperatorRetry? || l.OperatorRetire? }

  lemma RequeueKeepsWorker(cfg: Config, s: World, l: Label, t: World)
    requires WorkerInv(s.store, s.w) && Step(cfg, s, l, t) && Requeues(l)
    ensures WorkerInv(t.store, t.w)
  {
    if l.Start? || l.Rebuild? { assert InFlightIds(t.store.rows) == {}; }
  }

  lemma ScanKeepsWorker(cfg: Config, s: World, l: Label, t: World)
    requires WorkerInv(s.store, s.w) && Step(cfg, s, l, t) && l.Scan?
    ensures WorkerInv(t.store, t.w)
  {
    ScanKeepsInFlight(s.store, l.now, cfg.ttl);
  }

  /** The steps that leave the store alone. */
  lemma PlainKeepsWorker(cfg: Config, s: World, l: Label, t: World)
    requires WorkerInv(s.store, s.w) && Step(cfg, s, l, t)
    requires l.RequestRebuild? || l.HandOver? || l.EndBatch? || l.Append? || l.Crash? || l.StorageFault?
    ensures WorkerInv(t.store, t.w)
  {
  }

  lemma StepKeeps(cfg: Config, s: World, l: Label, t: World)
    requires WorldInv(s) && Step(cfg, s, l, t)
    ensures WorldInv(t)
  {
    StepKeepsStore(cfg, s, l, t);
    StepKeepsHistory(cfg, s, l, t);
    StepKeepsWorker(cfg, s, l, t);
  }

  lemma StepAtKeeps(run: Run, i: nat)
    requires i < |run.labels| && WorldInv(run.worlds[i])
    ensures WorldInv(run.worlds[i + 1])
  {
    assert StepAt(run, i);
    StepKeeps(run.cfg, run.worlds[i], run.labels[i], run.worlds[i + 1]);
  }

  /** The invariant holds in every world of every run. */
  lemma {:induction false} RunKeeps(run: Run, i: nat)
    requires i < |run.worlds|
    ensures WorldInv(run.worlds[i])
  {
    if i == 0 {
      assert BeginsAt(run, 0);
    } else {
      RunKeeps(run, i - 1);
      StepAtKeeps(run, i - 1);
    }
  }

  lemma StoreHolds(run: Run, i: nat)
    requires i < |run.worlds|
    ensures StoreInv(run.worlds[i].store) && TurnInRange(run.worlds[i].store)
  {
    RunKeeps(run, i);
  }

  // ---------------------------------------------------------------- order, from an ordered beginning

  lemma StepKeepsOrder(cfg: Config, s: World, l: Label, t: World)
    requires StoreInv(s.store) && HistoryInv(s.store, s.h) && WorkerInv(s.store, s.w)
    requires OrderInv(cfg, s.h) && Step(cfg, s, l, t)
    ensures OrderInv(cfg, t.h)
  {
    if l.HandOver? {
      assert s.w.marked.value.ev.id in InFlightIds(s.store.rows);
      HandOverKeepsOrder(cfg, s.store, s.h, s.w.marked.value.ev.id);
    } else if l.Append? {
      AppendKeepsOrder(cfg, s.store, s.h, l.partition, l.copy);
    } else {
      OthersKeepLogs(cfg, s, l, t);
    }
  }

  lemma OthersKeepLogs(cfg: Config, s: World, l: Label, t: World)
    requires Step(cfg, s, l, t) && !l.HandOver? && !l.Append?
    ensures t.h.network == s.h.network && t.h.logs == s.h.logs
  {
  }

  lemma StepAtKeepsOrder(run: Run, i: nat)
    requires i < |run.labels| && OrderInv(run.cfg, run.worlds[i].h)
    ensures OrderInv(run.cfg, run.worlds[i + 1].h)
  {
    RunKeeps(run, i);
    assert StepAt(run, i);
    StepKeepsOrder(run.cfg, run.worlds[i], run.labels[i], run.worlds[i + 1]);
  }

  /** A run that begins with ordered logs, and nothing harmful on its way, stays so. */
  lemma {:induction false} OrderHolds(run: Run, i: nat)
    requires i < |run.worlds| && OrderInv(run.cfg, run.worlds[0].h)
    ensures OrderInv(run.cfg, run.worlds[i].h)
  {
    if i > 0 {
      OrderHolds(run, i - 1);
      StepAtKeepsOrder(run, i - 1);
    }
  }
}

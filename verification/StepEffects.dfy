/** What the steps of a run do, in the fields of the rows and of the worker. */
module PipelineEffects {
  import opened OutboxModel
  import opened OutboxInvariant
  import opened OutboxEffects
  import opened PipelineProtocol
  import opened PipelineHistory
  import opened PipelineSafety

  // ---------------------------------------------------------------- failures

  predicate IsFailure(l: Label) { l.SendFailed? || l.HandOverFailed? }

  /** The row a failure is about: the one reported, or the one the worker holds. */
  function FailedId(s: World, l: Label): EventId
    requires IsFailure(l) && (l.HandOverFailed? ==> s.w.marked.Some?)
  {
    if l.SendFailed? then l.id else s.w.marked.value.ev.id
  }

  lemma FailureDoes(cfg: Config, s: World, w: Worker, id: EventId, f: Failure)
    requires id in s.store.rows && s.store.rows[id].state == InFlight
    ensures var t := Failed(cfg, s, w, id, f);
            var r := s.store.rows[id];
            && OnlyRow(s.store, t.store, id)
            && t.store.rows[id]
               == SettledRow(r, f.permanent || r.attempts >= cfg.maxAttempts, f.error, f.next, f.wall)
            && t.w == w.(rebuild := w.rebuild || f.fatal) && t.h == s.h
  {
    SettleDoes(s.store, id, cfg.maxAttempts, f.permanent, f.error, f.next, f.wall);
  }

  /** Main result.  Every failed report and every refused hand-over of every run finds its row in flight,
      and kills it if and only if the error is permanent or the row's attempts have reached the maximum;
      otherwise it is pending, due at the time given.  A fatal error asks for a rebuild. */
  lemma FailuresSettle(run: Run, i: nat)
    requires i < |run.labels| && IsFailure(run.labels[i])
    ensures run.labels[i].HandOverFailed? ==> run.worlds[i].w.marked.Some?
    ensures var s, l, t := run.worlds[i], run.labels[i], run.worlds[i + 1];
            var id, f := FailedId(s, l), l.failure;
            && id in s.store.rows && s.store.rows[id].state == InFlight
            && OnlyRow(s.store, t.store, id)
            && t.store.rows[id] == SettledRow(s.store.rows[id],
                 f.permanent || s.store.rows[id].attempts >= run.cfg.maxAttempts, f.error, f.next, f.wall)
            && (t.w.rebuild <==> s.w.rebuild || f.fatal)
  {
    RunKeeps(run, i);
    assert StepAt(run, i);
    var s, l := run.worlds[i], run.labels[i];
    assert FailedId(s, l) in InFlightIds(s.store.rows);
    FailureDoes(run.cfg, s, if l.SendFailed? then s.w.(outstanding := s.w.outstanding - {l.id})
                            else s.w.(marked := None), FailedId(s, l), l.failure);
  }

  // ---------------------------------------------------------------- reports, marks, admissions

  /** The row is gone, its call's cursor has moved on, and the next row is deliverable from then on. */
  ghost predicate Acknowledged(s: Store, t: Store, id: EventId, wall: int)
    requires id in s.rows
  {
    var e, c := s.rows[id].ev, CallId(s.rows[id].ev.topic, s.rows[id].ev.call);
    && t.rows.Keys == s.rows.Keys - {id}
    && (if e.call == "" then t.streams == s.streams else
          && c in s.streams && e.seqNo == Some(s.streams[c].nextSeq)
          && t.streams == s.streams[c := s.streams[c].(nextSeq := s.streams[c].nextSeq + 1)])
    && forall k | k in s.rows && k != id ::
         t.rows[k] == if e.call != "" && k in Successors(s, c) then s.rows[k].(eligible := Some(wall)) else s.rows[k]
  }

  lemma AcknowledgedIs(s: Store, id: EventId, wall: int)
    requires MarkAcked(s, id, wall).Some? && RowOk(s.streams, s.rows[id])
    ensures Acknowledged(s, MarkAcked(s, id, wall).value, id, wall)
  {
    MarkAckedDoes(s, id, wall);
  }

  /** Every success report of every run acknowledges its row. */
  lemma ReportsAcknowledge(run: Run, i: nat)
    requires i < |run.labels| && run.labels[i].Delivered?
    ensures var s, l, t := run.worlds[i].store, run.labels[i], run.worlds[i + 1].store;
            l.id in s.rows && Acknowledged(s, t, l.id, l.wall)
  {
    RunKeeps(run, i);
    assert StepAt(run, i);
    ReportAcknowledges(run.cfg, run.worlds[i], run.labels[i], run.worlds[i + 1]);
  }

  lemma ReportAcknowledges(cfg: Config, s: World, l: Label, t: World)
    requires StoreInv(s.store) && WorkerInv(s.store, s.w) && Step(cfg, s, l, t) && l.Delivered?
    ensures l.id in s.store.rows && Acknowledged(s.store, t.store, l.id, l.wall)
  {
    assert l.id in InFlightIds(s.store.rows);
    ReportFindsItsRow(s.store, l.id, l.wall);
    assert RowOk(s.store.streams, s.store.rows[l.id]);
    AcknowledgedIs(s.store, l.id, l.wall);
  }

  /** Nothing is sent while the worker is stopped or a rebuild is asked for. */
  lemma SendsOnlyWhileRunning(run: Run, i: nat)
    requires i < |run.labels| && run.labels[i].Mark?
    ensures run.worlds[i].w.up && run.worlds[i].w.running && !run.worlds[i].w.rebuild
  {
    assert StepAt(run, i);
  }

  /** An offered event is admitted if and only if its request is acceptable and free, and storing it does not
      fail. */
  lemma OffersAreAnswered(run: Run, i: nat)
    requires i < |run.labels| && run.labels[i].Enqueue?
    ensures var s, l, t := run.worlds[i], run.labels[i], run.worlds[i + 1];
            && s.w.accepting && -1 <= l.a.seqNo && (run.cfg.requireSource && l.a.call != "" ==> l.a.seqNo >= 0)
            && (l.a.id in t.h.admitted <==>
                  l.stored && Acceptable(s.store, l.a, run.cfg.limits) && Free(s.store, l.a, run.cfg.limits))
  {
    assert StepAt(run, i);
    InsertAccepts(run.worlds[i].store, run.labels[i].a, run.labels[i].a.created, run.cfg.limits);
  }

  // ---------------------------------------------------------------- starts, rebuilds, scans

  /** A start or rebuild leaves nothing in flight, nothing outstanding and no rebuild asked for; it leaves a
      working pipeline exactly if it got a client. */
  lemma BeginningsAreClean(run: Run, i: nat)
    requires i < |run.labels| && (run.labels[i].Start? || run.labels[i].Rebuild?)
    ensures var s, l, t := run.worlds[i], run.labels[i], run.worlds[i + 1];
            && InFlightIds(t.store.rows) == {} && t.w.outstanding == {} && !t.w.rebuild
            && (t.w.up <==> l.producerMade) && (t.w.running <==> l.producerMade)
            && (l.Start? ==> (t.w.accepting <==> l.producerMade))
            && (forall id | id in s.store.rows && s.store.rows[id].state == InFlight ::
                  id in t.store.rows && t.store.rows[id]
                  == s.store.rows[id].(state := Pending, nextAttempt := l.next, updated := l.wall))
  {
    assert StepAt(run, i);
    RequeueDoes(run.worlds[i].store, run.labels[i].next, run.labels[i].wall);
  }

  /** Main result.  A scan kills all rows past their age and no other; after it no row that is pending and
      outside calls or at its cursor, due or put off, has an age beyond the TTL. */
  lemma ScansExpire(run: Run, i: nat, id: EventId)
    requires i < |run.labels| && run.labels[i].Scan? && id in run.worlds[i].store.rows
    ensures var s, now, t := run.worlds[i].store, run.labels[i].now, run.worlds[i + 1].store;
            && id in t.rows
            && t.rows[id] == (if run.cfg.ttl > 0 && Overage(s, s.rows[id], now, run.cfg.ttl)
                              then s.rows[id].(state := Dead, lastError := "expired_ttl", updated := now)
                              else s.rows[id])
            && (run.cfg.ttl > 0 && t.rows[id].state == Pending && AtCursor(t, t.rows[id].ev) ==>
                  t.rows[id].eligible.Some? && now - t.rows[id].eligible.value <= run.cfg.ttl)
  {
    StoreHolds(run, i);
    assert StepAt(run, i);
    var s := run.worlds[i].store;
    ExpireDoes(s, run.labels[i].now, run.cfg.ttl);
    assert RowOk(s.streams, s.rows[id]);
  }

  /** A storage fault or a crash stops admission as well as sending, and leaves the store as it was. */
  lemma FaultsStopEverything(run: Run, i: nat)
    requires i < |run.labels| && (run.labels[i].StorageFault? || run.labels[i].Crash?)
    ensures var t := run.worlds[i + 1];
            !t.w.running && !t.w.accepting && t.w.marked == None && t.w.batch == []
            && t.store == run.worlds[i].store
  {
    assert StepAt(run, i);
  }
}

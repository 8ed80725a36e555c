/** How many sends a backlog can cost, and how it drains. */
module PipelineDraining {
  import opened OutboxModel
  import opened OutboxInvariant
  import opened OutboxCapacity
  import opened OutboxRetire
  import opened PipelineProtocol
  import opened PipelineHistory
  import opened PipelineSafety
  import opened PipelineBlocking

  // ---------------------------------------------------------------- the send budget

  /** How often a row may still be sent: at least once if pending, else as its attempts allow. */
  function Budget(maxAttempts: int): Row -> nat {
    (r: Row) =>
      match r.state
      case Pending => Max(1, maxAttempts - r.attempts)
      case InFlight => Max(0, maxAttempts - r.attempts)
      case Dead => 0
  }

  ghost function SendsLeft(cfg: Config, s: Store): nat { Total(s.rows, Budget(cfg.maxAttempts)) }

  lemma TotalReplace(rows: Rows, weight: Row -> nat, id: EventId, r: Row)
    requires id in rows
    ensures Total(rows[id := r], weight) + weight(rows[id]) == Total(rows, weight) + weight(r)
  {
    TotalWithout(rows, weight, id);
    TotalWith(rows - {id}, weight, id, r);
    assert (rows - {id})[id := r] == rows[id := r];
  }

  /** The steps that add nothing to send: no new event, no requeue, no operator retry. */
  predicate AddsNothing(l: Label) {
    !l.Start? && !l.Enqueue? && !l.Rebuild? && !l.OperatorRetry?
  }

  predicate Sends(s: World, l: Label, t: World) { l.Mark? && t.store != s.store }

  lemma MarkSpends(s: Store, id: EventId, wall: int, maxAttempts: int)
    requires MarkInFlight(s, id, wall).Some?
    ensures Total(MarkInFlight(s, id, wall).value.rows, Budget(maxAttempts)) + 1
            <= Total(s.rows, Budget(maxAttempts))
  {
    var r := s.rows[id];
    TotalReplace(s.rows, Budget(maxAttempts), id, r.(state := InFlight, attempts := r.attempts + 1, updated := wall));
  }

  lemma SettleSpends(s: Store, id: EventId, maxAttempts: int, permanent: bool, error: string,
                     next: int, wall: int)
    requires Settle(s, id, maxAttempts, permanent, error, next, wall).Some?
    ensures Total(Settle(s, id, maxAttempts, permanent, error, next, wall).value.0.rows, Budget(maxAttempts))
            <= Total(s.rows, Budget(maxAttempts))
  {
    var t := Settle(s, id, maxAttempts, permanent, error, next, wall).value.0;
    TotalReplace(s.rows, Budget(maxAttempts), id, t.rows[id]);
  }

  lemma AckSpends(s: Store, id: EventId, wall: int, maxAttempts: int)
    requires MarkAcked(s, id, wall).Some?
    ensures Total(MarkAcked(s, id, wall).value.rows, Budget(maxAttempts)) <= Total(s.rows, Budget(maxAttempts))
  {
    TotalMonotone(MarkAcked(s, id, wall).value.rows, s.rows, Budget(maxAttempts));
  }

  lemma ExpireSpends(s: Store, now: int, ttl: int, maxAttempts: int)
    ensures Total(Expire(s, now, ttl).rows, Budget(maxAttempts)) <= Total(s.rows, Budget(maxAttempts))
  {
    TotalMonotone(Expire(s, now, ttl).rows, s.rows, Budget(maxAttempts));
  }

  lemma StepSpends(cfg: Config, s: World, l: Label, t: World)
    requires Step(cfg, s, l, t) && AddsNothing(l)
    ensures SendsLeft(cfg, t.store) + (if Sends(s, l, t) then 1 else 0) <= SendsLeft(cfg, s.store)
  {
    match l
    case Scan(now) => ExpireSpends(s.store, now, cfg.ttl, cfg.maxAttempts);
    case Mark(wall) =>
      if t.store != s.store { MarkSpends(s.store, s.w.batch[0].ev.id, wall, cfg.maxAttempts); }
    case HandOverFailed(f) =>
      if t.store != s.store {
        SettleSpends(s.store, s.w.marked.value.ev.id, cfg.maxAttempts, f.permanent, f.error, f.next, f.wall);
      }
    case SendFailed(id, f) =>
      if t.store != s.store {
        SettleSpends(s.store, id, cfg.maxAttempts, f.permanent, f.error, f.next, f.wall);
      }
    case Delivered(id, wall) =>
      if t.store != s.store { AckSpends(s.store, id, wall, cfg.maxAttempts); }
    case _ =>
  }

  /** How many sends the steps from `i` to `j` made. */
  ghost function SendCount(run: Run, i: nat, j: nat): nat
    requires i <= j < |run.worlds|
  {
    if i == j then 0
    else SendCount(run, i, j - 1)
         + if Sends(run.worlds[j - 1], run.labels[j - 1], run.worlds[j]) then 1 else 0
  }

  lemma StepAtSpends(run: Run, i: nat)
    requires i < |run.labels| && AddsNothing(run.labels[i])
    ensures SendsLeft(run.cfg, run.worlds[i + 1].store)
            + (if Sends(run.worlds[i], run.labels[i], run.worlds[i + 1]) then 1 else 0)
            <= SendsLeft(run.cfg, run.worlds[i].store)
  {
    assert StepAt(run, i);
    StepSpends(run.cfg, run.worlds[i], run.labels[i], run.worlds[i + 1]);
  }

  /** Main result.  While nothing is admitted, requeued or revived, the number of sends is bounded by
      the rows' remaining attempts, counting at least one for each pending row. */
  lemma {:induction false} SendsAreBounded(run: Run, i: nat, j: nat)
    requires i <= j < |run.worlds| && forall k | i <= k < j :: AddsNothing(run.labels[k])
    ensures SendCount(run, i, j) + SendsLeft(run.cfg, run.worlds[j].store)
            <= SendsLeft(run.cfg, run.worlds[i].store)
  {
    if i < j {
      SendsAreBounded(run, i, j - 1);
      StepAtSpends(run, j - 1);
    }
  }

  // ---------------------------------------------------------------- draining

  /** Hand-overs succeed, every report is a success, and rows do not expire. */
  predicate Succeeds(cfg: Config, l: Label) {
    AddsNothing(l) && !l.HandOverFailed? && !l.SendFailed? && (l.Scan? ==> cfg.ttl <= 0)
  }

  ghost predicate NoneDead(s: Store) { forall id | id in s.rows :: s.rows[id].state != Dead }

  /** No call has a hole at its cursor. */
  ghost predicate NoGaps(s: Store) {
    forall id | id in s.rows && s.rows[id].ev.Ordered() && s.rows[id].ev.Cid() in s.streams ::
      Occupied(s.rows, s.rows[id].ev.Cid(), s.streams[s.rows[id].ev.Cid()].nextSeq)
  }

  /** With no dead row and no gap, a nonempty store has a row in flight or one to send. */
  lemma WorkExists(s: Store, id: EventId)
    requires StoreInv(s) && NoneDead(s) && NoGaps(s) && id in s.rows
    ensures !Quiescent(s)
  {
    var r := s.rows[id];
    assert RowOk(s.streams, r);
    var h := id;
    if r.ev.Ordered() {
      var n := s.streams[r.ev.Cid()].nextSeq;
      assert Occupied(s.rows, r.ev.Cid(), n);
      h :| h in s.rows && s.rows[h].ev.Cid() == r.ev.Cid() && s.rows[h].ev.seqNo == Some(n);
    }
    assert s.rows[h].state != Dead && Head(s.streams, s.rows[h].ev);
  }

  lemma AckDrains(s: Store, id: EventId, wall: int)
    requires NoneDead(s) && MarkAcked(s, id, wall).Some?
    ensures NoneDead(MarkAcked(s, id, wall).value)
    ensures |MarkAcked(s, id, wall).value.rows| + 1 == |s.rows|
  {
    var t := MarkAcked(s, id, wall).value;
    AckedKeys(s, id, wall);
    assert |t.rows| == |t.rows.Keys| && |s.rows| == |s.rows.Keys|;
    assert forall k | k in t.rows :: t.rows[k].state == s.rows[k].state;
  }

  lemma AckedKeys(s: Store, id: EventId, wall: int)
    requires MarkAcked(s, id, wall).Some?
    ensures MarkAcked(s, id, wall).value.rows.Keys == s.rows.Keys - {id} && id in s.rows
  {
  }

  lemma StepDrains(cfg: Config, s: World, l: Label, t: World)
    requires StoreInv(s.store) && WorkerInv(s.store, s.w) && NoneDead(s.store)
    requires Step(cfg, s, l, t) && Succeeds(cfg, l)
    ensures NoneDead(t.store)
    ensures |t.store.rows| + (if l.Delivered? then 1 else 0) == |s.store.rows|
  {
    if l.Delivered? {
      assert l.id in InFlightIds(s.store.rows);
      ReportFindsItsRow(s.store, l.id, l.wall);
      AckDrains(s.store, l.id, l.wall);
    } else if l.Mark? {
      if t.store != s.store { MarkDrains(s.store, s.w.batch[0].ev.id, l.wall); }
    } else {
      OthersDrain(cfg, s, l, t);
    }
  }

  lemma MarkDrains(s: Store, id: EventId, wall: int)
    requires NoneDead(s) && MarkInFlight(s, id, wall).Some?
    ensures NoneDead(MarkInFlight(s, id, wall).value)
    ensures |MarkInFlight(s, id, wall).value.rows| == |s.rows|
  {
    var t := MarkInFlight(s, id, wall).value;
    assert t.rows.Keys == s.rows.Keys;
    assert |t.rows| == |t.rows.Keys| && |s.rows| == |s.rows.Keys|;
  }

  lemma OthersDrain(cfg: Config, s: World, l: Label, t: World)
    requires Step(cfg, s, l, t) && Succeeds(cfg, l) && !l.Delivered? && !l.Mark?
    ensures t.store.rows == s.store.rows
  {
  }

  lemma StepAtDrains(run: Run, i: nat)
    requires i < |run.labels| && NoneDead(run.worlds[i].store) && Succeeds(run.cfg, run.labels[i])
    ensures NoneDead(run.worlds[i + 1].store)
    ensures |run.worlds[i + 1].store.rows| + (if run.labels[i].Delivered? then 1 else 0)
            == |run.worlds[i].store.rows|
  {
    RunKeeps(run, i);
    assert StepAt(run, i);
    StepDrains(run.cfg, run.worlds[i], run.labels[i], run.worlds[i + 1]);
  }

  // ---------------------------------------------------------------- gaps

  /** Every position from the row's call's cursor up to the row is held by some row. */
  ghost predicate Gapless(s: Store, r: Row) {
    r.ev.Ordered() && r.ev.seqNo.Some? && r.ev.Cid() in s.streams ==>
      forall m: int | s.streams[r.ev.Cid()].nextSeq <= m <= r.ev.seqNo.value :: Occupied(s.rows, r.ev.Cid(), m)
  }

  ghost predicate GapFree(s: Store) { forall id | id in s.rows :: Gapless(s, s.rows[id]) }

  lemma GapFreeHasNoGaps(s: Store)
    requires StoreInv(s) && GapFree(s)
    ensures NoGaps(s)
  {
    forall id | id in s.rows && s.rows[id].ev.Ordered() && s.rows[id].ev.Cid() in s.streams
      ensures Occupied(s.rows, s.rows[id].ev.Cid(), s.streams[s.rows[id].ev.Cid()].nextSeq)
    {
      assert RowOk(s.streams, s.rows[id]) && Gapless(s, s.rows[id]);
    }
  }

  /** The same rows by identity occupy the same positions. */
  lemma SameOccupied(s: Store, t: Store, c: CallId, q: int)
    requires t.rows.Keys == s.rows.Keys && forall id | id in s.rows :: t.rows[id].ev == s.rows[id].ev
    ensures Occupied(s.rows, c, q) <==> Occupied(t.rows, c, q)
  {
    if id :| id in s.rows && s.rows[id].ev.Cid() == c && s.rows[id].ev.seqNo == Some(q) {
      assert t.rows[id].ev.Cid() == c;
    }
    if id :| id in t.rows && t.rows[id].ev.Cid() == c && t.rows[id].ev.seqNo == Some(q) {
      assert s.rows[id].ev.Cid() == c;
    }
  }

  lemma QuietGapFree(s: Store, t: Store)
    requires Quiet(s, t)
    ensures GapFree(t) <==> GapFree(s)
  {
    forall c, q ensures Occupied(s.rows, c, q) <==> Occupied(t.rows, c, q) { SameOccupied(s, t, c, q); }
    forall id | id in s.rows ensures Gapless(t, t.rows[id]) <==> Gapless(s, s.rows[id]) {}
  }

  lemma AckOccupied(s: Store, id: EventId, wall: int, c: CallId, q: int)
    requires MarkAcked(s, id, wall).Some? && RowOk(s.streams, s.rows[id])
    ensures var ev := s.rows[id].ev;
            Occupied(MarkAcked(s, id, wall).value.rows, c, q) ==> Occupied(s.rows, c, q)
    ensures var ev := s.rows[id].ev;
            Occupied(s.rows, c, q) && !(ev.Cid() == c && ev.seqNo == Some(q)) ==>
              Occupied(MarkAcked(s, id, wall).value.rows, c, q)
  {
    var t := MarkAcked(s, id, wall).value;
    assert forall k | k in t.rows :: k in s.rows && t.rows[k].ev == s.rows[k].ev;
    assert t.rows.Keys == s.rows.Keys - {id};
  }

  /** What an acknowledgement leaves of another row, and of its call's cursor. */
  lemma AckedRow(s: Store, id: EventId, wall: int, k: EventId)
    requires StoreInv(s) && MarkAcked(s, id, wall).Some? && k in s.rows && k != id
    ensures var t := MarkAcked(s, id, wall).value;
            var e, c := s.rows[id].ev, s.rows[k].ev.Cid();
            && k in t.rows && t.rows[k].ev == s.rows[k].ev
            && (c in t.streams <==> c in s.streams)
            && (c in s.streams ==>
                  t.streams[c].nextSeq == s.streams[c].nextSeq + if e.Ordered() && e.Cid() == c then 1 else 0)
            && (e.Ordered() && e.Cid() == c && c in s.streams ==> e.seqNo == Some(s.streams[c].nextSeq))
  {
    assert RowOk(s.streams, s.rows[id]);
  }

  lemma AckGapless(s: Store, id: EventId, wall: int, k: EventId)
    requires StoreInv(s) && MarkAcked(s, id, wall).Some? && k in s.rows && k != id
    ensures var t := MarkAcked(s, id, wall).value;
            k in t.rows && (Gapless(t, t.rows[k]) <==> Gapless(s, s.rows[k]))
  {
    AckedRow(s, id, wall, k);
    var t := MarkAcked(s, id, wall).value;
    var e, r := s.rows[id].ev, s.rows[k].ev;
    assert RowOk(s.streams, s.rows[id]) && RowOk(s.streams, s.rows[k]);
    if r.Ordered() {
      var c := r.Cid();
      assert e.Ordered() && e.Cid() == c ==> Occupied(s.rows, c, s.streams[c].nextSeq);
      forall m: int | t.streams[c].nextSeq <= m <= r.seqNo.value
        ensures Occupied(t.rows, c, m) <==> Occupied(s.rows, c, m)
      {
        AckOccupied(s, id, wall, c, m);
      }
    }
  }

  lemma AckGapFree(s: Store, id: EventId, wall: int)
    requires StoreInv(s) && MarkAcked(s, id, wall).Some?
    ensures GapFree(MarkAcked(s, id, wall).value) <==> GapFree(s)
  {
    var t := MarkAcked(s, id, wall).value;
    assert t.rows.Keys == s.rows.Keys - {id};
    forall k | k in s.rows && k != id ensures Gapless(t, t.rows[k]) <==> Gapless(s, s.rows[k]) {
      AckGapless(s, id, wall, k);
    }
    assert Gapless(s, s.rows[id]) by { HeadIsGapless(s, id); }
  }

  lemma HeadIsGapless(s: Store, id: EventId)
    requires StoreInv(s) && id in s.rows && s.rows[id].state == InFlight
    ensures Gapless(s, s.rows[id])
  {
    assert RowOk(s.streams, s.rows[id]);
  }

  lemma RetireGapFree(s: Store, c: CallId, at: int, reason: string, maxRows: int)
    requires Retire(s, c, at, reason, maxRows).Some?
    ensures GapFree(Retire(s, c, at, reason, maxRows).value) <==> GapFree(s)
  {
    var t := Retire(s, c, at, reason, maxRows).value;
    forall id | id in s.rows ensures Gapless(t, t.rows[id]) <==> Gapless(s, s.rows[id]) {
      assert s.rows[id].ev.Cid() != c;
    }
  }

  /** Without admissions no gap appears, and none is filled. */
  lemma StepGapFree(cfg: Config, s: World, l: Label, t: World)
    requires StoreInv(s.store) && Step(cfg, s, l, t) && AddsNothing(l)
    ensures GapFree(t.store) <==> GapFree(s.store)
  {
    if l.Delivered? {
      if t.store != s.store { AckGapFree(s.store, l.id, l.wall); }
    } else if l.OperatorRetire? {
      RetireGapFree(s.store, l.c, l.at, l.reason, l.maxRows);
    } else if !l.HandOver? && !l.Append? {
      QuietStep(cfg, s, l, t);
      QuietGapFree(s.store, t.store);
    }
  }

  lemma StepAtGapFree(run: Run, i: nat)
    requires i < |run.labels| && AddsNothing(run.labels[i])
    ensures GapFree(run.worlds[i + 1].store) <==> GapFree(run.worlds[i].store)
  {
    StoreHolds(run, i);
    assert StepAt(run, i);
    StepGapFree(run.cfg, run.worlds[i], run.labels[i], run.worlds[i + 1]);
  }

  // ---------------------------------------------------------------- the drained store

  function Deliveries(labels: seq<Label>, i: nat, j: nat): nat
    requires i <= j <= |labels|
  {
    if i == j then 0 else Deliveries(labels, i, j - 1) + if labels[j - 1].Delivered? then 1 else 0
  }

  lemma {:induction false} SuccessCounts(run: Run, i: nat, j: nat)
    requires i <= j < |run.worlds| && NoneDead(run.worlds[i].store)
    requires forall k | i <= k < j :: Succeeds(run.cfg, run.labels[k])
    ensures NoneDead(run.worlds[j].store)
    ensures |run.worlds[j].store.rows| + Deliveries(run.labels, i, j) == |run.worlds[i].store.rows|
  {
    if i < j {
      SuccessCounts(run, i, j - 1);
      StepAtDrains(run, j - 1);
    }
  }

  lemma {:induction false} GapsStay(run: Run, i: nat, j: nat)
    requires i <= j < |run.worlds| && forall k | i <= k < j :: AddsNothing(run.labels[k])
    ensures GapFree(run.worlds[j].store) <==> GapFree(run.worlds[i].store)
  {
    if i < j {
      GapsStay(run, i, j - 1);
      StepAtGapFree(run, j - 1);
    }
  }

  /** Main result.  From a store without dead rows, when every send succeeds and nothing expires, every
      acknowledgement removes one row and nothing else does; and once nothing can be sent any more,
      the store is empty, after exactly as many acknowledgements as it had rows, if and only if it
      had no gap to begin with. */
  lemma {:induction false} SuccessDrains(run: Run, i: nat, j: nat)
    requires i <= j < |run.worlds| && NoneDead(run.worlds[i].store)
    requires forall k | i <= k < j :: Succeeds(run.cfg, run.labels[k])
    ensures |run.worlds[j].store.rows| + Deliveries(run.labels, i, j) == |run.worlds[i].store.rows|
    ensures Quiescent(run.worlds[j].store) ==>
              (run.worlds[j].store.rows == map[] <==> GapFree(run.worlds[i].store))
              && (GapFree(run.worlds[i].store) <==> Deliveries(run.labels, i, j) == |run.worlds[i].store.rows|)
  {
    SuccessCounts(run, i, j);
    GapsStay(run, i, j);
    StoreHolds(run, j);
    var s := run.worlds[j].store;
    assert |s.rows| == 0 <==> s.rows == map[];
    if GapFree(s) {
      GapFreeHasNoGaps(s);
      if id :| id in s.rows { WorkExists(s, id); }
    } else {
      assert s.rows != map[];
    }
  }
}

/** Where dead rows stand, and what can be left when nothing more can be sent. */
module PipelineBlocking {
  import opened OutboxModel
  import opened OutboxInvariant
  import opened OutboxFetch
  import opened OutboxRetire
  import opened PipelineProtocol
  import opened PipelineHistory
  import opened PipelineSafety

  // ---------------------------------------------------------------- dead rows are heads

  /** A row the step killed was at its call's head; rows already dead keep their place. */
  lemma MovesKeepDeadHeads(s: Store, t: Store)
    requires DeadAreHeads(s) && Moves(s, t)
    requires forall id | id in s.rows && t.rows[id].state == Dead ::
               s.rows[id].state == Dead || Head(s.streams, s.rows[id].ev)
    ensures DeadAreHeads(t)
  {
  }

  lemma SettleKeepsDeadHeads(s: Store, id: EventId, maxAttempts: int, permanent: bool, error: string,
                             next: int, wall: int)
    requires StoreInv(s) && DeadAreHeads(s)
    requires Settle(s, id, maxAttempts, permanent, error, next, wall).Some?
    ensures DeadAreHeads(Settle(s, id, maxAttempts, permanent, error, next, wall).value.0)
  {
    SettleMoves(s, id, maxAttempts, permanent, error, next, wall);
    assert RowOk(s.streams, s.rows[id]);
    MovesKeepDeadHeads(s, Settle(s, id, maxAttempts, permanent, error, next, wall).value.0);
  }

  lemma AckKeepsDeadHeads(s: Store, id: EventId, wall: int)
    requires StoreInv(s) && DeadAreHeads(s) && MarkAcked(s, id, wall).Some?
    ensures DeadAreHeads(MarkAcked(s, id, wall).value)
  {
    var t := MarkAcked(s, id, wall).value;
    assert RowOk(s.streams, s.rows[id]);
    forall k | k in t.rows && t.rows[k].state == Dead ensures Head(t.streams, t.rows[k].ev) {
      assert Head(s.streams, s.rows[k].ev) && !SamePosition(s.rows[k].ev, s.rows[id].ev);
    }
  }

  lemma InsertKeepsDeadHeads(s: Store, t: Store, kept: Rows, row: Row)
    requires DeadAreHeads(s) && Inserted(s, t, kept, row)
    ensures DeadAreHeads(t)
  {
    forall k | k in t.rows && t.rows[k].state == Dead ensures Head(t.streams, t.rows[k].ev) {
      assert Head(s.streams, s.rows[k].ev);
    }
  }

  lemma RetireKeepsDeadHeads(s: Store, c: CallId, at: int, reason: string, maxRows: int)
    requires DeadAreHeads(s) && Retire(s, c, at, reason, maxRows).Some?
    ensures DeadAreHeads(Retire(s, c, at, reason, maxRows).value)
  {
    var t := Retire(s, c, at, reason, maxRows).value;
    forall k | k in t.rows && t.rows[k].state == Dead ensures Head(t.streams, t.rows[k].ev) {
      assert Head(s.streams, s.rows[k].ev) && s.rows[k].ev.Cid() != c;
    }
  }

  lemma MarkKeepsDeadHeads(s: Store, id: EventId, wall: int)
    requires DeadAreHeads(s) && MarkInFlight(s, id, wall).Some?
    ensures DeadAreHeads(MarkInFlight(s, id, wall).value)
  {
  }

  lemma StepKeepsDeadHeads(cfg: Config, s: World, l: Label, t: World)
    requires StoreInv(s.store) && DeadAreHeads(s.store) && Step(cfg, s, l, t)
    ensures DeadAreHeads(t.store)
  {
    if l.Enqueue? {
      EnqueueKeepsDeadHeads(cfg, s, l, t);
    } else if l.Mark? {
      if t.store != s.store { MarkKeepsDeadHeads(s.store, s.w.batch[0].ev.id, l.wall); }
    } else if l.HandOverFailed? {
      FailureKeepsDeadHeads(cfg, s, s.w.(marked := None), s.w.marked.value.ev.id, l.failure);
    } else if l.SendFailed? {
      FailureKeepsDeadHeads(cfg, s, s.w.(outstanding := s.w.outstanding - {l.id}), l.id, l.failure);
    } else if l.Delivered? {
      if t.store != s.store { AckKeepsDeadHeads(s.store, l.id, l.wall); }
    } else if l.OperatorRetire? {
      RetireKeepsDeadHeads(s.store, l.c, l.at, l.reason, l.maxRows);
    } else {
      OthersKeepDeadHeads(cfg, s, l, t);
    }
  }

  lemma EnqueueKeepsDeadHeads(cfg: Config, s: World, l: Label, t: World)
    requires StoreInv(s.store) && DeadAreHeads(s.store) && Step(cfg, s, l, t) && l.Enqueue?
    ensures DeadAreHeads(t.store)
  {
    if t.store != s.store {
      InsertIs(s.store, l.a, l.a.created, cfg.limits);
      InsertKeepsDeadHeads(s.store, t.store, MakeRoom(s.store.rows, |l.a.payload|, cfg.limits),
                           t.store.rows[l.a.id]);
    }
  }

  lemma FailureKeepsDeadHeads(cfg: Config, s: World, w: Worker, id: EventId, f: Failure)
    requires StoreInv(s.store) && DeadAreHeads(s.store)
    ensures DeadAreHeads(Failed(cfg, s, w, id, f).store)
  {
    if Settle(s.store, id, cfg.maxAttempts, f.permanent, f.error, f.next, f.wall).Some? {
      SettleKeepsDeadHeads(s.store, id, cfg.maxAttempts, f.permanent, f.error, f.next, f.wall);
    }
  }

  /** Scans kill heads only; the other steps kill nothing. */
  lemma OthersKeepDeadHeads(cfg: Config, s: World, l: Label, t: World)
    requires DeadAreHeads(s.store) && Step(cfg, s, l, t)
    requires Moving(l) && !l.HandOverFailed? && !l.SendFailed?
    ensures DeadAreHeads(t.store)
  {
    MovingStep(cfg, s, l, t);
    MovesKeepDeadHeads(s.store, t.store);
  }

  lemma StepAtKeepsDeadHeads(run: Run, i: nat)
    requires i < |run.labels| && DeadAreHeads(run.worlds[i].store)
    ensures DeadAreHeads(run.worlds[i + 1].store)
  {
    StoreHolds(run, i);
    assert StepAt(run, i);
    StepKeepsDeadHeads(run.cfg, run.worlds[i], run.labels[i], run.worlds[i + 1]);
  }

  /** Runs that begin with no dead row behind its call's head never get one. */
  lemma {:induction false} DeadStayHeads(run: Run, i: nat)
    requires i < |run.worlds| && DeadAreHeads(run.worlds[0].store)
    ensures DeadAreHeads(run.worlds[i].store)
  {
    if i > 0 {
      DeadStayHeads(run, i - 1);
      StepAtKeepsDeadHeads(run, i - 1);
    }
  }

  /** A direct mark_dead keeps dead rows at their calls' heads exactly if the row it kills is one. */
  lemma MarkDeadKeepsDeadHeads(s: Store, id: EventId, error: string, wall: int)
    requires DeadAreHeads(s) && MarkDead(s, id, error, wall).Some?
    ensures DeadAreHeads(MarkDead(s, id, error, wall).value) <==> Head(s.streams, s.rows[id].ev)
  {
    var t := MarkDead(s, id, error, wall).value;
    MarkDeadMoves(s, id, error, wall);
    if Head(s.streams, s.rows[id].ev) {
      MovesKeepDeadHeads(s, t);
    } else {
      assert t.rows[id].state == Dead && !Head(t.streams, t.rows[id].ev);
    }
  }

  // ---------------------------------------------------------------- what is left

  /** Nothing is on its way and nothing could be sent, however long one waits. */
  ghost predicate Quiescent(s: Store) {
    forall id | id in s.rows ::
      s.rows[id].state != InFlight && !(s.rows[id].state == Pending && Head(s.streams, s.rows[id].ev))
  }

  /** The row waits for a position of its call that only a dead row holds, or no row at all. */
  ghost predicate Behind(s: Store, r: Row) {
    && r.ev.Ordered() && r.ev.Cid() in s.streams && r.ev.seqNo.Some?
    && var st := s.streams[r.ev.Cid()];
       && st.nextSeq < r.ev.seqNo.value
       && (forall id | id in s.rows && s.rows[id].ev.Cid() == r.ev.Cid()
                       && s.rows[id].ev.seqNo == Some(st.nextSeq) :: s.rows[id].state == Dead)
       && (st.mode == Admission ==>
             exists id :: id in s.rows && s.rows[id].ev.Cid() == r.ev.Cid()
                          && s.rows[id].ev.seqNo == Some(st.nextSeq) && s.rows[id].state == Dead)
  }

  /** Main result.  When the pipeline can send nothing more, every row is dead or waits behind a
      dead head or a gap in a caller-numbered call; a call that numbers itself is only ever
      blocked by a dead head. */
  lemma QuiescentIsBlocked(s: Store, id: EventId)
    requires StoreInv(s) && Quiescent(s) && id in s.rows
    ensures s.rows[id].state == Dead || (s.rows[id].state == Pending && Behind(s, s.rows[id]))
  {
    var r := s.rows[id];
    assert RowOk(s.streams, r);
    if r.state != Dead {
      var c := r.ev.Cid();
      var n := s.streams[c].nextSeq;
      forall k | k in s.rows && s.rows[k].ev.Cid() == c && s.rows[k].ev.seqNo == Some(n)
        ensures s.rows[k].state == Dead
      {
        assert Head(s.streams, s.rows[k].ev);
      }
      if s.streams[c].mode == Admission { assert Occupied(s.rows, c, n); }
    }
  }

  /** A fetch comes back empty exactly when no row is due; so a worker with a row it could send gets
      one to send once that row's retry time has come, and a quiescent store never yields any. */
  lemma FetchFindsWork(s: Store, now: int, out: seq<Row>)
    requires IsFetch(s, now, BATCH, out)
    ensures out == [] <==> forall id | id in s.rows :: !Due(s.streams, s.rows[id], now)
    ensures Quiescent(s) ==> out == []
  {
    assert forall i | 0 <= i < |out| :: Stored(s, out[i]);
    if out != [] { assert Due(s.streams, s.rows[out[0].ev.id], now); }
  }

  /** The row right behind an acknowledged head becomes deliverable at once, pending, its age
      starting now. */
  lemma AckExposesNext(s: Store, id: EventId, wall: int, h: EventId)
    requires RowsOk(s) && DeadAreHeads(s) && MarkAcked(s, id, wall).Some? && s.rows[id].ev.Ordered()
    requires var c := s.rows[id].ev.Cid();
             h in s.rows && s.rows[h].ev.Cid() == c
             && s.rows[h].ev.seqNo == Some(s.streams[c].nextSeq + 1)
    ensures var t := MarkAcked(s, id, wall).value;
            && h in t.rows && t.rows[h].ev == s.rows[h].ev && Head(t.streams, t.rows[h].ev)
            && t.rows[h].state == Pending && t.rows[h].eligible == Some(wall)
  {
    assert RowOk(s.streams, s.rows[id]) && RowOk(s.streams, s.rows[h]);
    assert s.rows[h].state == Dead ==> Head(s.streams, s.rows[h].ev);
  }

  /** In admission mode there is such a row whenever the call has any other row. */
  lemma SuccessorExists(s: Store, id: EventId, k: EventId)
    requires StoreInv(s) && id in s.rows && k in s.rows && id != k
    requires s.rows[id].ev.Ordered() && s.rows[id].state == InFlight
    requires s.rows[k].ev.Cid() == s.rows[id].ev.Cid()
    requires s.streams[s.rows[id].ev.Cid()].mode == Admission
    ensures Occupied(s.rows, s.rows[id].ev.Cid(), s.streams[s.rows[id].ev.Cid()].nextSeq + 1)
  {
    assert RowOk(s.streams, s.rows[id]) && RowOk(s.streams, s.rows[k]);
    assert !SamePosition(s.rows[k].ev, s.rows[id].ev);
  }

  /** Acknowledging a head, also one an operator revived, exposes a live successor whenever a call
      that numbers itself has one. */
  lemma AckExposesSuccessor(s: Store, id: EventId, wall: int, k: EventId)
    requires StoreInv(s) && DeadAreHeads(s) && MarkAcked(s, id, wall).Some?
    requires s.rows[id].ev.Ordered() && s.streams[s.rows[id].ev.Cid()].mode == Admission
    requires k in s.rows && k != id && s.rows[k].ev.Cid() == s.rows[id].ev.Cid()
    ensures var t := MarkAcked(s, id, wall).value;
            exists h :: h in t.rows && t.rows[h].ev.Cid() == s.rows[id].ev.Cid()
                        && Head(t.streams, t.rows[h].ev)
                        && t.rows[h].state == Pending && t.rows[h].eligible == Some(wall)
  {
    var c := s.rows[id].ev.Cid();
    SuccessorExists(s, id, k);
    var h :| h in s.rows && s.rows[h].ev.Cid() == c && s.rows[h].ev.seqNo == Some(s.streams[c].nextSeq + 1);
    AckExposesNext(s, id, wall, h);
  }
}

/** Further properties of whole runs: ordinals, identities of calls, error branches, limits. */
module PipelineRuns {
  import opened OutboxModel
  import opened OutboxInvariant
  import opened OutboxCapacity
  import opened OutboxRetire
  import opened PipelineProtocol
  import opened PipelineHistory
  import opened PipelineSafety

  // ---------------------------------------------------------------- what a step does to a call

  /** The step admitted an event of call `c` asking for an admission ordinal. */
  predicate AdmitsTo(s: World, l: Label, t: World, c: CallId) {
    l.Enqueue? && l.a.Ordered() && l.a.Cid() == c && l.a.seqNo < 0 && l.a.id in t.h.admitted
  }

  /** The call takes admission ordinals, if it has begun at all. */
  predicate NumbersItself(s: World, c: CallId) {
    c in s.store.streams ==> s.store.streams[c].mode == Admission
  }

  /** In admission mode the row took the next ordinal of its call; other windows stayed. */
  lemma InsertedTakesOrdinal(s: Store, t: Store, kept: Rows, row: Row, c: CallId)
    requires StoreInv(s) && Inserted(s, t, kept, row)
    ensures if row.ev.Ordered() && row.ev.Cid() == c
            then t.streams[c].mode == Admission ==>
                   row.ev.seqNo == Some(Admits(s, c)) && Admits(t, c) == Admits(s, c) + 1
            else Admits(t, c) == Admits(s, c)
  {
  }

  lemma EnqueueTakesOrdinal(cfg: Config, s: World, l: Label, t: World, c: CallId)
    requires StoreInv(s.store) && Step(cfg, s, l, t) && l.Enqueue?
    ensures AdmitsTo(s, l, t, c) ==>
              && t.h.admitted[l.a.id].seqNo == Some(Admits(s.store, c))
              && Admits(t.store, c) == Admits(s.store, c) + 1
    ensures !AdmitsTo(s, l, t, c) && NumbersItself(t, c) ==> Admits(t.store, c) == Admits(s.store, c)
    ensures l.a.id !in t.h.admitted ==> t.store == s.store
  {
    if l.a.id in t.h.admitted {
      AcceptedRow(cfg, s, l, t);
      InsertedTakesOrdinal(s.store, t.store, MakeRoom(s.store.rows, |l.a.payload|, cfg.limits),
                           t.store.rows[l.a.id], c);
    }
  }

  /** What an accepted admission put into the store. */
  lemma AcceptedRow(cfg: Config, s: World, l: Label, t: World)
    requires StoreInv(s.store) && Step(cfg, s, l, t) && l.Enqueue? && l.a.id in t.h.admitted
    ensures l.a.id in t.store.rows
    ensures var row := t.store.rows[l.a.id];
            && Inserted(s.store, t.store, MakeRoom(s.store.rows, |l.a.payload|, cfg.limits), row)
            && row.ev == t.h.admitted[l.a.id] && row.ev.Ordered() == l.a.Ordered() && row.ev.Cid() == l.a.Cid()
            && (l.a.Ordered() ==> t.store.streams[l.a.Cid()].mode == l.a.Mode())
  {
    InsertIs(s.store, l.a, l.a.created, cfg.limits);
    if l.a.Ordered() { PlaceIs(s.store, l.a, cfg.limits); }
  }

  lemma EnqueueKeepsIdentity(cfg: Config, s: World, l: Label, t: World, c: CallId)
    requires StoreInv(s.store) && Step(cfg, s, l, t) && l.Enqueue? && Known(s.store, c)
    ensures KeepsIdentity(s.store, t.store, c)
  {
    if t.h.rejected == s.h.rejected { InsertIs(s.store, l.a, l.a.created, cfg.limits); }
  }

  /** A known call keeps its key and, while it has a stream, its mode; a retired call stays retired. */
  predicate KeepsIdentity(s: Store, t: Store, c: CallId)
    requires Known(s, c)
  {
    && Known(t, c) && KeyOf(t, c) == KeyOf(s, c)
    && (c in s.streams && c in t.streams ==> t.streams[c].mode == s.streams[c].mode)
    && (c in s.fences ==> c in t.fences && c !in t.streams && t.fences[c] == s.fences[c])
    && Cursor(s, c) <= Cursor(t, c) && Admits(s, c) <= Admits(t, c)
  }

  lemma DeliveredKeepsIdentity(cfg: Config, s: World, l: Label, t: World, c: CallId)
    requires StoreInv(s.store) && Step(cfg, s, l, t) && l.Delivered?
    ensures Known(s.store, c) ==> KeepsIdentity(s.store, t.store, c)
    ensures Admits(t.store, c) == Admits(s.store, c)
  {
    if t.store != s.store { AckedKeepsView(s.store, l.id, l.wall, c); }
  }

  lemma RetireKeepsIdentity(s: Store, d: CallId, at: int, reason: string, maxRows: int, c: CallId)
    requires StoreInv(s) && Retire(s, d, at, reason, maxRows).Some?
    ensures var t := Retire(s, d, at, reason, maxRows).value;
            && (Known(s, c) ==> KeepsIdentity(s, t, c))
            && Admits(t, c) == Admits(s, c)
  {
  }

  /** A step changes a call's ordinals only by admitting to it, and never its key or mode. */
  lemma StepKeepsIdentity(cfg: Config, s: World, l: Label, t: World, c: CallId)
    requires StoreInv(s.store) && Step(cfg, s, l, t)
    ensures Known(s.store, c) ==> KeepsIdentity(s.store, t.store, c)
    ensures !l.Enqueue? ==> Admits(t.store, c) == Admits(s.store, c)
  {
    if l.Enqueue? {
      if Known(s.store, c) { EnqueueKeepsIdentity(cfg, s, l, t, c); }
    } else if l.Delivered? {
      DeliveredKeepsIdentity(cfg, s, l, t, c);
    } else if l.OperatorRetire? {
      RetireKeepsIdentity(s.store, l.c, l.at, l.reason, l.maxRows, c);
    } else if !l.HandOver? && !l.Append? {
      QuietStep(cfg, s, l, t);
    }
  }

  lemma StepAtKeepsIdentity(run: Run, i: nat, c: CallId)
    requires i < |run.labels|
    requires Known(run.worlds[i].store, c)
    ensures KeepsIdentity(run.worlds[i].store, run.worlds[i + 1].store, c)
  {
    StoreHolds(run, i);
    assert StepAt(run, i);
    StepKeepsIdentity(run.cfg, run.worlds[i], run.labels[i], run.worlds[i + 1], c);
  }

  lemma {:induction false} CallsKeepIdentity(run: Run, i: nat, j: nat, c: CallId)
    requires i <= j < |run.worlds|
    requires Known(run.worlds[i].store, c)
    ensures KeepsIdentity(run.worlds[i].store, run.worlds[j].store, c)
  {
    StreamOrFence(run, i, c);
    if i < j {
      CallsKeepIdentity(run, i, j - 1, c);
      StepAtKeepsIdentity(run, j - 1, c);
    }
  }

  lemma StreamOrFence(run: Run, i: nat, c: CallId)
    requires i < |run.worlds|
    ensures !(c in run.worlds[i].store.streams && c in run.worlds[i].store.fences)
  {
    StoreHolds(run, i);
  }

  /** Once retired, a call admits nothing in any continuation. */
  lemma RetiredStaysShut(run: Run, i: nat, j: nat, c: CallId)
    requires i <= j < |run.labels|
    requires c in run.worlds[i].store.fences
    requires run.labels[j].Enqueue? && run.labels[j].a.Ordered() && run.labels[j].a.Cid() == c
    ensures run.labels[j].a.id !in run.worlds[j + 1].h.admitted && run.worlds[j + 1].store == run.worlds[j].store
  {
    CallsKeepIdentity(run, i, j, c);
    assert StepAt(run, j);
    FencedStaysOut(run.worlds[j].store, run.labels[j].a, run.labels[j].a.created, run.cfg.limits);
  }

  // ---------------------------------------------------------------- admission ordinals

  /** How many of the first `n` steps admitted to call `c` in admission mode. */
  ghost function Admissions(run: Run, n: nat, c: CallId): nat
    requires n <= |run.labels|
  {
    if n == 0 then 0
    else Admissions(run, n - 1, c)
         + if AdmitsTo(run.worlds[n - 1], run.labels[n - 1], run.worlds[n], c) then 1 else 0
  }

  lemma StepOrdinals(cfg: Config, s: World, l: Label, t: World, c: CallId)
    requires StoreInv(s.store) && Step(cfg, s, l, t) && NumbersItself(t, c)
    ensures Admits(t.store, c) == Admits(s.store, c) + if AdmitsTo(s, l, t, c) then 1 else 0
    ensures AdmitsTo(s, l, t, c) ==> t.h.admitted[l.a.id].seqNo == Some(Admits(s.store, c))
  {
    if l.Enqueue? { EnqueueTakesOrdinal(cfg, s, l, t, c); } else { StepKeepsIdentity(cfg, s, l, t, c); }
  }

  lemma StepAtOrdinals(run: Run, i: nat, c: CallId)
    requires i < |run.labels|
    requires NumbersItself(run.worlds[i + 1], c)
    ensures var s, t := run.worlds[i], run.worlds[i + 1];
            && Admits(t.store, c) == Admits(s.store, c) + (if AdmitsTo(s, run.labels[i], t, c) then 1 else 0)
            && (AdmitsTo(s, run.labels[i], t, c) ==>
                  t.h.admitted[run.labels[i].a.id].seqNo == Some(Admits(s.store, c)))
  {
    StoreHolds(run, i);
    assert StepAt(run, i);
    StepOrdinals(run.cfg, run.worlds[i], run.labels[i], run.worlds[i + 1], c);
  }

  /** Main result.  However a call's admissions are interleaved with everything else, fail, or are
      cut by restarts, its n-th success receives ordinal n, counted from what the store started
      with. */
  lemma {:induction false} OrdinalsAreConsecutive(run: Run, n: nat, c: CallId)
    requires n <= |run.labels|
    requires forall i | 0 <= i < |run.worlds| :: NumbersItself(run.worlds[i], c)
    ensures Admits(run.worlds[n].store, c) == Admits(run.worlds[0].store, c) + Admissions(run, n, c)
    ensures n < |run.labels| && AdmitsTo(run.worlds[n], run.labels[n], run.worlds[n + 1], c) ==>
              run.worlds[n + 1].h.admitted[run.labels[n].a.id].seqNo
              == Some(Admits(run.worlds[0].store, c) + Admissions(run, n, c))
  {
    if n > 0 {
      OrdinalsAreConsecutive(run, n - 1, c);
      StepAtOrdinals(run, n - 1, c);
    }
    if n < |run.labels| {
      StepAtOrdinals(run, n, c);
    }
  }

  /** An admission that fails, for whatever reason, changes nothing in the store. */
  lemma RefusalChangesNothing(cfg: Config, s: World, l: Label, t: World)
    requires Step(cfg, s, l, t) && l.Enqueue? && l.a.id !in t.h.admitted
    ensures t.store == s.store && t.w == s.w && t.h == s.h.(rejected := s.h.rejected + {l.a.id})
  {
  }

  // ---------------------------------------------------------------- error branches

  /** Main result.  While the process is up and neither storage nor client creation has failed, the
      rows in flight are exactly the messages the producer owes a report for and the row just
      marked; so every report and every refused hand-over settles its row, every mark succeeds, and
      the branches that stop the pipeline over a violated guard are reached only with the scheduler's
      2^63 turns used up. */
  lemma GuardsHold(run: Run, i: nat)
    requires i < |run.worlds|
    ensures var s := run.worlds[i];
            && (s.w.guardFailed ==> s.store.turn == INT64_MAX)
            && Held(s.w) <= InFlightIds(s.store.rows)
            && (s.w.up && !s.w.faulted && !s.w.guardFailed ==> Held(s.w) == InFlightIds(s.store.rows))
    ensures i < |run.labels| && run.labels[i].Delivered? ==>
              run.labels[i].id in run.worlds[i + 1].h.acked && run.labels[i].id !in run.worlds[i + 1].store.rows
              && run.worlds[i + 1].w.running == run.worlds[i].w.running
    ensures i < |run.labels| && run.labels[i].Mark? && run.worlds[i].store.turn < INT64_MAX ==>
              run.worlds[i + 1].w.marked.Some? && run.worlds[i + 1].w.running
    ensures i < |run.labels| && (run.labels[i].SendFailed? || run.labels[i].HandOverFailed?) ==>
              run.worlds[i + 1].w.guardFailed == run.worlds[i].w.guardFailed
              && run.worlds[i + 1].w.running == run.worlds[i].w.running
  {
    RunKeeps(run, i);
    if i < |run.labels| {
      assert StepAt(run, i);
      GuardHolds(run.cfg, run.worlds[i], run.labels[i], run.worlds[i + 1]);
    }
  }

  lemma GuardHolds(cfg: Config, s: World, l: Label, t: World)
    requires StoreInv(s.store) && WorkerInv(s.store, s.w) && Step(cfg, s, l, t)
    ensures l.Delivered? ==>
              l.id in t.h.acked && l.id !in t.store.rows && t.w.running == s.w.running
    ensures l.Mark? && s.store.turn < INT64_MAX ==> t.w.marked.Some? && t.w.running
    ensures l.SendFailed? || l.HandOverFailed? ==> t.w.guardFailed == s.w.guardFailed && t.w.running == s.w.running
  {
    if l.Delivered? {
      assert l.id in InFlightIds(s.store.rows);
      ReportFindsItsRow(s.store, l.id, l.wall);
    } else if l.Mark? {
      assert Serviceable(s.store, s.w.batch[0]);
      ServiceableIsMarked(s.store, s.w.batch[0], l.wall);
    } else if l.SendFailed? {
      assert l.id in InFlightIds(s.store.rows);
    } else if l.HandOverFailed? {
      assert s.w.marked.value.ev.id in InFlightIds(s.store.rows);
    }
  }

  // ---------------------------------------------------------------- limits

  lemma StepKeepsLimits(cfg: Config, s: World, l: Label, t: World)
    requires StoreInv(s.store) && WithinLimits(s.store, cfg.limits) && Step(cfg, s, l, t)
    ensures WithinLimits(t.store, cfg.limits)
  {
    match l
    case Enqueue(a, _) =>
      if t.store != s.store { InsertWithinLimits(s.store, a, a.created, cfg.limits); }
    case Delivered(_, _) =>
      if t.store != s.store { DeliveredKeepsLimits(cfg, s, l, t); }
    case OperatorRetire(c, at, reason, max) => RetireKeepsLimits(s.store, c, at, reason, max, cfg.limits);
    case HandOver =>
    case Append(_, _) =>
    case _ =>
      QuietStep(cfg, s, l, t);
      MovesKeepLimits(s.store, t.store, cfg.limits);
  }

  lemma AckKeepsLimits(s: Store, id: EventId, wall: int, lim: Limits)
    requires WithinLimits(s, lim) && MarkAcked(s, id, wall).Some?
    ensures WithinLimits(MarkAcked(s, id, wall).value, lim)
  {
    var t := MarkAcked(s, id, wall).value;
    assert t.streams.Keys == s.streams.Keys && t.rows.Keys == s.rows.Keys - {id};
    MovesKeepLimits(s, t, lim);
  }

  lemma DeliveredKeepsLimits(cfg: Config, s: World, l: Label, t: World)
    requires WithinLimits(s.store, cfg.limits) && Step(cfg, s, l, t) && l.Delivered?
    ensures WithinLimits(t.store, cfg.limits)
  {
    if t.store != s.store { AckKeepsLimits(s.store, l.id, l.wall, cfg.limits); }
  }

  lemma RetireKeepsLimits(s: Store, c: CallId, at: int, reason: string, maxRows: int, lim: Limits)
    requires WithinLimits(s, lim) && Retire(s, c, at, reason, maxRows).Some?
    ensures WithinLimits(Retire(s, c, at, reason, maxRows).value, lim)
  {
    var t := Retire(s, c, at, reason, maxRows).value;
    assert t.streams.Keys == s.streams.Keys - {c};
    assert |t.streams| == |t.streams.Keys| <= |s.streams.Keys| == |s.streams|;
  }

  /** A run that begins within its limits. */
  type LimitedRun = run: Run | WithinLimits(run.worlds[0].store, run.cfg.limits)
    ghost witness Trace(Config("", Limits(0, 0), 0, 0, false, (key: string) => 0), [EMPTY_WORLD], [])

  lemma StepAtKeepsLimits(run: Run, i: nat)
    requires i < |run.labels| && WithinLimits(run.worlds[i].store, run.cfg.limits)
    ensures WithinLimits(run.worlds[i + 1].store, run.cfg.limits)
  {
    StoreHolds(run, i);
    assert StepAt(run, i);
    StepKeepsLimits(run.cfg, run.worlds[i], run.labels[i], run.worlds[i + 1]);
  }

  /** From a store within the limits, every run stays within them. */
  lemma {:induction false} LimitsHold(run: LimitedRun, i: nat)
    requires i < |run.worlds|
    ensures WithinLimits(run.worlds[i].store, run.cfg.limits)
  {
    if i > 0 {
      LimitsHold(run, i - 1);
      StepAtKeepsLimits(run, i - 1);
    }
  }
}

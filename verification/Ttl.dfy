/** What TTL expiry means for whole runs under a nondecreasing clock. */
module PipelineTtl {
  import opened OutboxModel
  import opened OutboxInvariant
  import opened OutboxFetch
  import opened PipelineProtocol
  import opened PipelineHistory
  import opened PipelineSafety
  import opened PipelineOrdering

  /** Every clock reading of the step lies in the step's interval.  An admission's creation stamp is
      read before its transaction, so it only has an upper bound; a retry is at least 200 ms off. */
  predicate TimesIn(l: Label, lo: int, hi: int) {
    match l
    case Start(next, wall, _) => lo <= next <= hi && lo <= wall <= hi
    case Rebuild(next, wall, _) => lo <= next <= hi && lo <= wall <= hi
    case OperatorRetry(_, next, wall) => lo <= next <= hi && lo <= wall <= hi
    case Enqueue(a, _) => a.created <= hi
    case Scan(now) => lo <= now <= hi
    case Mark(wall) => lo <= wall <= hi
    case Delivered(_, wall) => lo <= wall <= hi
    case HandOverFailed(f) => lo <= f.wall <= hi && f.wall + 200 <= f.next
    case SendFailed(_, f) => lo <= f.wall <= hi && f.wall + 200 <= f.next
    case _ => true
  }

  ghost predicate Timely(run: Run, clock: seq<int>) {
    && |clock| == |run.worlds|
    && forall i | 0 <= i < |run.labels| ::
         clock[i] <= clock[i + 1] && TimesIn(run.labels[i], clock[i], clock[i + 1])
  }

  /** Admissions commit within the step that read the clock for them. */
  ghost predicate Prompt(run: Run, clock: seq<int>)
    requires |clock| == |run.worlds|
  {
    forall i | 0 <= i < |run.labels| && run.labels[i].Enqueue? :: clock[i] <= run.labels[i].a.created
  }

  lemma {:induction false} ClockGrows(run: Run, clock: seq<int>, i: nat, j: nat)
    requires Timely(run, clock) && i <= j < |clock|
    ensures clock[i] <= clock[j]
  {
    if i < j {
      ClockGrows(run, clock, i, j - 1);
      assert TimesIn(run.labels[j - 1], clock[j - 1], clock[j]);
    }
  }

  // ---------------------------------------------------------------- the stamps of a row

  /** A row was created before it was last touched, both in the past; its age counts from its
      creation or later; and if expiry killed it, it did so more than the TTL after creation. */
  predicate StampsOk(ttl: int, clock: int, r: Row) {
    && r.created <= r.updated <= clock
    && (r.eligible.Some? ==> r.created <= r.eligible.value <= clock)
    && (r.state == Dead && r.lastError == EXPIRED ==> 0 < ttl < r.updated - r.created)
  }

  ghost predicate AllStamps(ttl: int, clock: int, s: Store) {
    forall id | id in s.rows :: StampsOk(ttl, clock, s.rows[id])
  }

  lemma SettleStamps(ttl: int, lo: int, hi: int, s: Store, id: EventId, maxAttempts: int, f: Failure)
    requires AllStamps(ttl, lo, s) && lo <= f.wall <= hi && BrokerText(f.error)
    requires Settle(s, id, maxAttempts, f.permanent, f.error, f.next, f.wall).Some?
    ensures AllStamps(ttl, hi, Settle(s, id, maxAttempts, f.permanent, f.error, f.next, f.wall).value.0)
  {
  }

  lemma InsertStamps(ttl: int, lo: int, hi: int, s: Store, a: Request, lim: Limits)
    requires AllStamps(ttl, lo, s) && lo <= hi && a.created <= hi && a.created != 0
    requires Insert(s, a, a.created, lim).Admitted?
    ensures AllStamps(ttl, hi, Insert(s, a, a.created, lim).store)
  {
    var t := Insert(s, a, a.created, lim).store;
    forall id | id in t.rows ensures StampsOk(ttl, hi, t.rows[id]) {
      if id != a.id { assert StampsOk(ttl, lo, s.rows[id]); }
    }
  }

  lemma AckStamps(ttl: int, lo: int, hi: int, s: Store, id: EventId, wall: int)
    requires AllStamps(ttl, lo, s) && lo <= wall <= hi && MarkAcked(s, id, wall).Some?
    ensures AllStamps(ttl, hi, MarkAcked(s, id, wall).value)
  {
    var t := MarkAcked(s, id, wall).value;
    forall k | k in t.rows ensures StampsOk(ttl, hi, t.rows[k]) { assert StampsOk(ttl, lo, s.rows[k]); }
  }

  lemma ExpireStamps(ttl: int, lo: int, hi: int, s: Store, now: int)
    requires AllStamps(ttl, lo, s) && lo <= now <= hi
    ensures AllStamps(ttl, hi, Expire(s, now, ttl))
  {
    var t := Expire(s, now, ttl);
    forall k | k in t.rows ensures StampsOk(ttl, hi, t.rows[k]) { assert StampsOk(ttl, lo, s.rows[k]); }
  }

  lemma StepStamps(cfg: Config, lo: int, hi: int, s: World, l: Label, t: World)
    requires AllStamps(cfg.ttl, lo, s.store) && lo <= hi && TimesIn(l, lo, hi) && Step(cfg, s, l, t)
    ensures AllStamps(cfg.ttl, hi, t.store)
  {
    match l
    case Scan(now) => ExpireStamps(cfg.ttl, lo, hi, s.store, now);
    case Enqueue(a, _) =>
      if t.store != s.store { InsertStamps(cfg.ttl, lo, hi, s.store, a, cfg.limits); }
    case Delivered(id, wall) =>
      if t.store != s.store { AckStamps(cfg.ttl, lo, hi, s.store, id, wall); }
    case HandOverFailed(f) =>
      if t.store != s.store {
        SettleStamps(cfg.ttl, lo, hi, s.store, s.w.marked.value.ev.id, cfg.maxAttempts, f);
      }
    case SendFailed(id, f) =>
      if t.store != s.store { SettleStamps(cfg.ttl, lo, hi, s.store, id, cfg.maxAttempts, f); }
    case _ =>
  }

  lemma StepAtStamps(run: Run, clock: seq<int>, i: nat)
    requires Timely(run, clock) && i < |run.labels|
    requires AllStamps(run.cfg.ttl, clock[i], run.worlds[i].store)
    ensures AllStamps(run.cfg.ttl, clock[i + 1], run.worlds[i + 1].store)
  {
    assert StepAt(run, i);
    assert TimesIn(run.labels[i], clock[i], clock[i + 1]);
    StepStamps(run.cfg, clock[i], clock[i + 1], run.worlds[i], run.labels[i], run.worlds[i + 1]);
  }

  /** Main result.  In every world of every run under a nondecreasing clock, each row that TTL expiry
      killed carries the evidence: it was last updated more than the TTL after its creation. */
  lemma {:induction false} StampsHold(run: Run, clock: seq<int>, i: nat)
    requires Timely(run, clock) && i < |run.worlds|
    requires AllStamps(run.cfg.ttl, clock[0], run.worlds[0].store)
    ensures AllStamps(run.cfg.ttl, clock[i], run.worlds[i].store)
  {
    if i > 0 {
      StampsHold(run, clock, i - 1);
      StepAtStamps(run, clock, i - 1);
    }
  }

  // ---------------------------------------------------------------- expiry only of long deliverable rows

  predicate Deliverable(s: Store, id: EventId) {
    id in s.rows && Head(s.streams, s.rows[id].ev)
  }

  /** A row gets its age when it is admitted as deliverable or becomes its call's head, and keeps it. */
  lemma AckAges(s: Store, id: EventId, wall: int, k: EventId)
    requires MarkAcked(s, id, wall).Some? && k in MarkAcked(s, id, wall).value.rows
    ensures var r := MarkAcked(s, id, wall).value.rows[k];
            k in s.rows && (r.eligible == s.rows[k].eligible || r.eligible == Some(wall))
  {
  }

  lemma StepAges(cfg: Config, s: World, l: Label, t: World, id: EventId)
    requires StoreInv(s.store) && Step(cfg, s, l, t) && id in t.store.rows
    ensures var e := t.store.rows[id].eligible;
            || (id in s.store.rows && e == s.store.rows[id].eligible)
            || (l.Delivered? && e == Some(l.wall))
            || (l.Enqueue? && id == l.a.id && (e == None || e == Some(l.a.created)))
  {
    if l.Delivered? {
      if t.store != s.store { AckAges(s.store, l.id, l.wall, id); }
    } else if l.Enqueue? {
      EnqueueAges(cfg, s, l, t, id);
    } else {
      OthersKeepAges(cfg, s, l, t, id);
    }
  }

  lemma OthersKeepAges(cfg: Config, s: World, l: Label, t: World, id: EventId)
    requires Step(cfg, s, l, t) && id in t.store.rows && !l.Delivered? && !l.Enqueue?
    ensures id in s.store.rows && t.store.rows[id].eligible == s.store.rows[id].eligible
  {
    if Moving(l) { MovingStep(cfg, s, l, t); }
  }

  lemma EnqueueAges(cfg: Config, s: World, l: Label, t: World, id: EventId)
    requires Step(cfg, s, l, t) && l.Enqueue? && id in t.store.rows
    ensures || (id in s.store.rows && t.store.rows[id] == s.store.rows[id])
            || (id == l.a.id && (t.store.rows[id].eligible in {None, Some(l.a.created)}))
  {
  }

  /** Since a clock reading past its age, the row has been deliverable in every world that had it. */
  ghost predicate DeliverableSince(run: Run, clock: seq<int>, i: nat, id: EventId)
    requires |clock| == |run.worlds| && i < |run.worlds|
  {
    id in run.worlds[i].store.rows && run.worlds[i].store.rows[id].eligible.Some? ==>
      forall k | 0 <= k <= i && run.worlds[i].store.rows[id].eligible.value < clock[k]
                 && id in run.worlds[k].store.rows ::
        Deliverable(run.worlds[k].store, id)
  }

  lemma AgeMeansDeliverable(run: Run, i: nat, id: EventId)
    requires i < |run.worlds| && id in run.worlds[i].store.rows
    ensures run.worlds[i].store.rows[id].eligible.Some? <==> Deliverable(run.worlds[i].store, id)
  {
    StoreHolds(run, i);
    assert RowOk(run.worlds[i].store.streams, run.worlds[i].store.rows[id]);
  }

  lemma StepAtAges(run: Run, clock: seq<int>, i: nat, id: EventId)
    requires Timely(run, clock) && i < |run.labels|
    requires id in run.worlds[i + 1].store.rows && run.worlds[i + 1].store.rows[id].eligible.Some?
    ensures var e, l := run.worlds[i + 1].store.rows[id].eligible, run.labels[i];
            || (id in run.worlds[i].store.rows && e == run.worlds[i].store.rows[id].eligible)
            || clock[i] <= e.value
            || (l.Enqueue? && l.a.id == id && e.value == l.a.created && id !in run.worlds[i].h.admitted)
  {
    StoreHolds(run, i);
    assert StepAt(run, i);
    assert TimesIn(run.labels[i], clock[i], clock[i + 1]);
    StepAges(run.cfg, run.worlds[i], run.labels[i], run.worlds[i + 1], id);
  }

  /** A row not yet admitted was in no earlier world. */
  lemma NotThereBefore(run: Run, k: nat, i: nat, id: EventId)
    requires k <= i < |run.worlds| && id !in run.worlds[i].h.admitted
    ensures id !in run.worlds[k].store.rows
  {
    RunKeeps(run, k);
    if id in run.worlds[k].h.admitted { AdmittedStays(run, k, i, id); }
  }

  lemma {:induction false} RowsAreDeliverableSince(run: Run, clock: seq<int>, i: nat, id: EventId)
    requires Timely(run, clock) && i < |run.worlds|
    ensures DeliverableSince(run, clock, i, id)
  {
    var rows := run.worlds[i].store.rows;
    if id in rows && rows[id].eligible.Some? {
      AgeMeansDeliverable(run, i, id);
      if i > 0 {
        RowsAreDeliverableSince(run, clock, i - 1, id);
        StepAtAges(run, clock, i - 1, id);
      }
      forall k | 0 <= k <= i && rows[id].eligible.value < clock[k] && id in run.worlds[k].store.rows
        ensures Deliverable(run.worlds[k].store, id)
      {
        if k < i {
          ClockGrows(run, clock, k, i - 1);
          if id !in run.worlds[i - 1].h.admitted { NotThereBefore(run, k, i - 1, id); }
        }
      }
    }
  }

  /** Main result.  A row is expired only if it is pending, and was deliverable in every world that had
      it since the clock read `now - ttl`: waiting behind an earlier event never counts. */
  lemma ExpiryMeansDeliverable(run: Run, clock: seq<int>, j: nat, id: EventId, k: nat)
    requires Timely(run, clock) && j < |run.labels| && run.labels[j].Scan?
    requires id in run.worlds[j].store.rows && run.worlds[j].store.rows[id].state != Dead
    requires id in run.worlds[j + 1].store.rows && run.worlds[j + 1].store.rows[id].state == Dead
    requires k <= j && run.labels[j].now - run.cfg.ttl <= clock[k] && id in run.worlds[k].store.rows
    ensures run.worlds[j].store.rows[id].state == Pending && Deliverable(run.worlds[k].store, id)
  {
    RowsAreDeliverableSince(run, clock, j, id);
    assert StepAt(run, j);
  }

  /** When admissions commit within the step that read the clock for them, a row with an age was there
      in every world since a clock reading past it. */
  lemma {:induction false} PromptRowsWereThere(run: Run, clock: seq<int>, i: nat, id: EventId, k: nat)
    requires Timely(run, clock) && Prompt(run, clock) && k <= i < |run.worlds|
    requires id in run.worlds[i].store.rows && run.worlds[i].store.rows[id].eligible.Some?
    requires run.worlds[i].store.rows[id].eligible.value < clock[k]
    ensures id in run.worlds[k].store.rows
  {
    if k < i {
      StepAtAges(run, clock, i - 1, id);
      ClockGrows(run, clock, k, i - 1);
      PromptRowsWereThere(run, clock, i - 1, id, k);
    }
  }

  /** With prompt admissions an expired row was deliverable, and there, all that time. */
  lemma PromptExpiry(run: Run, clock: seq<int>, j: nat, id: EventId, k: nat)
    requires Timely(run, clock) && Prompt(run, clock) && j < |run.labels| && run.labels[j].Scan?
    requires id in run.worlds[j].store.rows && run.worlds[j].store.rows[id].state != Dead
    requires id in run.worlds[j + 1].store.rows && run.worlds[j + 1].store.rows[id].state == Dead
    requires k <= j && run.labels[j].now - run.cfg.ttl <= clock[k]
    ensures Deliverable(run.worlds[k].store, id)
  {
    assert StepAt(run, j);
    PromptRowsWereThere(run, clock, j, id, k);
    ExpiryMeansDeliverable(run, clock, j, id, k);
  }

  /** Waiting rows are never expired, whatever the clock does. */
  lemma WaitersNeverExpire(s: Store, now: int, ttl: int, id: EventId)
    requires id in s.rows && !Head(s.streams, s.rows[id].ev)
    ensures Expire(s, now, ttl).rows[id] == s.rows[id]
  {
  }

  // ---------------------------------------------------------------- nothing stale is fetched

  predicate Fresh(s: Store, r: Row, now: int, ttl: int) {
    Due(s.streams, r, now) ==> r.eligible.Some? && now - r.eligible.value <= ttl
  }

  ghost predicate AllFresh(s: Store, now: int, ttl: int) {
    forall id | id in s.rows :: Fresh(s, s.rows[id], now, ttl)
  }

  /** Between the scan and the fetch of an iteration, no row the fetch may return is past its age. */
  ghost predicate FreshScan(cfg: Config, s: World) {
    s.w.stage == Scanned && 0 < cfg.ttl ==> AllFresh(s.store, s.w.now, cfg.ttl)
  }

  /** The admission committed between scan and fetch an already overdue, deliverable event. */
  predicate Overdue(cfg: Config, s: World, l: Label, t: World) {
    && s.w.stage == Scanned && 0 < cfg.ttl && l.Enqueue? && l.a.id in t.store.rows
    && Head(t.store.streams, t.store.rows[l.a.id].ev)
    && s.w.now - l.a.created > cfg.ttl
  }

  lemma ExpireFreshens(s: Store, now: int, ttl: int)
    requires StoreInv(s) && 0 < ttl
    ensures AllFresh(Expire(s, now, ttl), now, ttl)
  {
    var t := Expire(s, now, ttl);
    forall id | id in t.rows ensures Fresh(t, t.rows[id], now, ttl) {
      assert RowOk(s.streams, s.rows[id]);
    }
  }

  /** Rows that were there stay as fresh as they were, so it is up to the new one. */
  lemma InsertedFresh(s: Store, t: Store, kept: Rows, row: Row, now: int, ttl: int)
    requires RowsOk(s) && Inserted(s, t, kept, row) && AllFresh(s, now, ttl)
    ensures AllFresh(t, now, ttl) <==> Fresh(t, row, now, ttl)
  {
    forall id | id in t.rows && id != row.ev.id ensures Fresh(t, t.rows[id], now, ttl) {
      assert Fresh(s, s.rows[id], now, ttl) && RowOk(s.streams, s.rows[id]);
    }
    assert t.rows[row.ev.id] == row;
  }

  /** An admission keeps the scan fresh exactly if it does not bring in an overdue event. */
  lemma EnqueueKeepsFresh(cfg: Config, s: World, l: Label, t: World)
    requires StoreInv(s.store) && Recorded(s.store, s.h) && FreshScan(cfg, s)
    requires Step(cfg, s, l, t) && l.Enqueue?
    ensures FreshScan(cfg, t) <==> !Overdue(cfg, s, l, t)
  {
    if t.store != s.store && s.w.stage == Scanned && 0 < cfg.ttl {
      EnqueuedRow(cfg, s, l, t);
      InsertedFresh(s.store, t.store, MakeRoom(s.store.rows, |l.a.payload|, cfg.limits),
                    t.store.rows[l.a.id], s.w.now, cfg.ttl);
    }
  }

  lemma EnqueuedRow(cfg: Config, s: World, l: Label, t: World)
    requires StoreInv(s.store) && Step(cfg, s, l, t) && l.Enqueue? && t.store != s.store
    ensures l.a.id in t.store.rows && t.w == s.w
    ensures var r := t.store.rows[l.a.id];
            && Inserted(s.store, t.store, MakeRoom(s.store.rows, |l.a.payload|, cfg.limits), r)
            && r.state == Pending && r.nextAttempt == l.a.created
            && (Head(t.store.streams, r.ev) ==> r.eligible == Some(l.a.created))
  {
    InsertIs(s.store, l.a, l.a.created, cfg.limits);
  }

  lemma AckFresh(s: Store, id: EventId, wall: int, now: int, ttl: int)
    requires StoreInv(s) && AllFresh(s, now, ttl) && MarkAcked(s, id, wall).Some? && now <= wall && 0 < ttl
    ensures AllFresh(MarkAcked(s, id, wall).value, now, ttl)
  {
    var t := MarkAcked(s, id, wall).value;
    assert RowOk(s.streams, s.rows[id]);
    forall k | k in t.rows ensures Fresh(t, t.rows[k], now, ttl) {
      assert Fresh(s, s.rows[k], now, ttl) && RowOk(s.streams, s.rows[k]);
      assert !SamePosition(s.rows[k].ev, s.rows[id].ev);
    }
  }

  lemma SettleFresh(s: Store, id: EventId, maxAttempts: int, f: Failure, now: int, ttl: int)
    requires AllFresh(s, now, ttl) && now < f.next
    requires Settle(s, id, maxAttempts, f.permanent, f.error, f.next, f.wall).Some?
    ensures AllFresh(Settle(s, id, maxAttempts, f.permanent, f.error, f.next, f.wall).value.0, now, ttl)
  {
    var t := Settle(s, id, maxAttempts, f.permanent, f.error, f.next, f.wall).value.0;
    forall k | k in t.rows ensures Fresh(t, t.rows[k], now, ttl) { assert Fresh(s, s.rows[k], now, ttl); }
  }

  lemma DeliveredKeepsFresh(cfg: Config, s: World, l: Label, t: World)
    requires StoreInv(s.store) && AllFresh(s.store, s.w.now, cfg.ttl) && 0 < cfg.ttl
    requires Step(cfg, s, l, t) && l.Delivered? && s.w.now <= l.wall
    ensures AllFresh(t.store, s.w.now, cfg.ttl)
  {
    if t.store != s.store { AckFresh(s.store, l.id, l.wall, s.w.now, cfg.ttl); }
  }

  lemma SendFailedKeepsFresh(cfg: Config, s: World, l: Label, t: World)
    requires AllFresh(s.store, s.w.now, cfg.ttl)
    requires Step(cfg, s, l, t) && l.SendFailed? && s.w.now < l.failure.next
    ensures AllFresh(t.store, s.w.now, cfg.ttl)
  {
    if t.store != s.store { SettleFresh(s.store, l.id, cfg.maxAttempts, l.failure, s.w.now, cfg.ttl); }
  }

  lemma ScannedStep(cfg: Config, s: World, l: Label, t: World)
    requires Step(cfg, s, l, t) && s.w.up && s.w.marked == None
    requires s.w.stage == Scanned && t.w.stage == Scanned
    ensures t.w.now == s.w.now
    ensures !l.Enqueue? && !l.Delivered? && !l.SendFailed? ==> t.store == s.store
  {
  }

  /** Every step keeps the scan fresh, short of an overdue admission. */
  lemma StepKeepsFresh(cfg: Config, lo: int, hi: int, s: World, l: Label, t: World)
    requires StoreInv(s.store) && Recorded(s.store, s.h) && s.w.marked == None
    requires s.w.up && s.w.stage == Scanned && t.w.stage == Scanned
    requires 0 < cfg.ttl && AllFresh(s.store, s.w.now, cfg.ttl)
    requires s.w.now <= lo && TimesIn(l, lo, hi) && Step(cfg, s, l, t) && !Overdue(cfg, s, l, t)
    ensures FreshScan(cfg, t)
  {
    ScannedStep(cfg, s, l, t);
    if l.Enqueue? {
      EnqueueKeepsFresh(cfg, s, l, t);
    } else if l.Delivered? {
      DeliveredKeepsFresh(cfg, s, l, t);
    } else if l.SendFailed? {
      SendFailedKeepsFresh(cfg, s, l, t);
    }
  }

  lemma StepKeepsNow(cfg: Config, lo: int, hi: int, s: World, l: Label, t: World)
    requires s.w.stage == Scanned ==> s.w.now <= lo
    requires lo <= hi && TimesIn(l, lo, hi) && Step(cfg, s, l, t)
    ensures t.w.stage == Scanned ==> t.w.now <= hi
  {
    if !l.Scan? { OnlyScanReads(cfg, s, l, t); }
  }

  /** No other step enters the stage after a scan, or changes the worker's reading within it. */
  lemma OnlyScanReads(cfg: Config, s: World, l: Label, t: World)
    requires Step(cfg, s, l, t) && !l.Scan?
    ensures t.w.stage == Scanned ==> s.w.stage == Scanned && t.w.now == s.w.now
  {
    if l.HandOverFailed? {
      FailedKeepsReading(cfg, s, s.w.(marked := None), s.w.marked.value.ev.id, l.failure);
    } else if l.SendFailed? {
      FailedKeepsReading(cfg, s, s.w.(outstanding := s.w.outstanding - {l.id}), l.id, l.failure);
    } else if !l.Mark? && !l.Enqueue? && !l.Delivered? {
      PlainKeepsReading(cfg, s, l, t);
    }
  }

  lemma FailedKeepsReading(cfg: Config, s: World, w: Worker, id: EventId, f: Failure)
    ensures var v := Failed(cfg, s, w, id, f).w; v.stage == w.stage && v.now == w.now
  {
  }

  lemma PlainKeepsReading(cfg: Config, s: World, l: Label, t: World)
    requires Step(cfg, s, l, t) && !l.Scan? && !l.Mark? && !l.Enqueue? && !l.Delivered?
    requires !l.HandOverFailed? && !l.SendFailed?
    ensures t.w.stage == Scanned ==> s.w.stage == Scanned && t.w.now == s.w.now
  {
  }

  /** The worker's reading of the clock is in the past, and dies with the worker. */
  lemma {:induction false} WorkerNowIsPast(run: Run, clock: seq<int>, i: nat)
    requires Timely(run, clock) && i < |run.worlds|
    ensures run.worlds[i].w.stage == Scanned ==> run.worlds[i].w.now <= clock[i]
  {
    assert BeginsAt(run, 0);
    if i > 0 {
      WorkerNowIsPast(run, clock, i - 1);
      StepAtKeepsNow(run, clock, i - 1);
    }
  }

  lemma StepAtKeepsNow(run: Run, clock: seq<int>, i: nat)
    requires Timely(run, clock) && i < |run.labels|
    requires run.worlds[i].w.stage == Scanned ==> run.worlds[i].w.now <= clock[i]
    ensures run.worlds[i + 1].w.stage == Scanned ==> run.worlds[i + 1].w.now <= clock[i + 1]
  {
    assert StepAt(run, i);
    assert TimesIn(run.labels[i], clock[i], clock[i + 1]);
    StepKeepsNow(run.cfg, clock[i], clock[i + 1], run.worlds[i], run.labels[i], run.worlds[i + 1]);
  }

  lemma StepAtKeepsFresh(run: Run, clock: seq<int>, i: nat)
    requires Timely(run, clock) && i < |run.labels| && FreshScan(run.cfg, run.worlds[i])
    requires !Overdue(run.cfg, run.worlds[i], run.labels[i], run.worlds[i + 1])
    ensures FreshScan(run.cfg, run.worlds[i + 1])
  {
    RunKeeps(run, i);
    WorkerNowIsPast(run, clock, i);
    assert StepAt(run, i);
    assert TimesIn(run.labels[i], clock[i], clock[i + 1]);
    if run.worlds[i + 1].w.stage != Scanned || run.cfg.ttl <= 0 {
    } else if run.worlds[i].w.stage == Scanned {
      StepKeepsFresh(run.cfg, clock[i], clock[i + 1], run.worlds[i], run.labels[i], run.worlds[i + 1]);
    } else {
      StepBecomesFresh(run.cfg, run.worlds[i], run.labels[i], run.worlds[i + 1]);
    }
  }

  lemma StepBecomesFresh(cfg: Config, s: World, l: Label, t: World)
    requires StoreInv(s.store) && Step(cfg, s, l, t) && 0 < cfg.ttl
    requires s.w.stage != Scanned && t.w.stage == Scanned
    ensures FreshScan(cfg, t)
  {
    assert l.Scan?;
    ExpireFreshens(s.store, l.now, cfg.ttl);
  }

  // ---------------------------------------------------------------- from a scan to its fetch

  /** A row past its age that the fetch may return. */
  predicate Stale(s: Store, id: EventId, now: int, ttl: int) {
    id in s.rows && !Fresh(s, s.rows[id], now, ttl)
  }

  lemma AckStale(s: Store, id: EventId, wall: int, k: EventId, now: int, ttl: int)
    requires StoreInv(s) && MarkAcked(s, id, wall).Some? && Stale(s, k, now, ttl)
    ensures Stale(MarkAcked(s, id, wall).value, k, now, ttl)
  {
    assert RowOk(s.streams, s.rows[id]) && RowOk(s.streams, s.rows[k]);
    assert !SamePosition(s.rows[k].ev, s.rows[id].ev);
  }

  lemma InsertedStale(s: Store, t: Store, kept: Rows, row: Row, k: EventId, now: int, ttl: int)
    requires Inserted(s, t, kept, row) && row.ev.id !in s.rows && Stale(s, k, now, ttl)
    ensures Stale(t, k, now, ttl)
  {
  }

  lemma EnqueueStale(cfg: Config, s: World, l: Label, t: World, k: EventId)
    requires StoreInv(s.store) && Recorded(s.store, s.h) && Step(cfg, s, l, t) && l.Enqueue?
    requires Stale(s.store, k, s.w.now, cfg.ttl)
    ensures Stale(t.store, k, s.w.now, cfg.ttl)
  {
    if t.store != s.store {
      EnqueuedRow(cfg, s, l, t);
      assert t.store.rows[l.a.id].ev.id == l.a.id by { InsertIs(s.store, l.a, l.a.created, cfg.limits); }
      InsertedStale(s.store, t.store, MakeRoom(s.store.rows, |l.a.payload|, cfg.limits),
                    t.store.rows[l.a.id], k, s.w.now, cfg.ttl);
    }
  }

  /** A stale row stays one until the fetch: nothing but the worker could take it away. */
  lemma StepKeepsStale(cfg: Config, s: World, l: Label, t: World, k: EventId)
    requires StoreInv(s.store) && Recorded(s.store, s.h) && s.w.marked == None
    requires s.w.up && s.w.stage == Scanned && t.w.stage == Scanned && Step(cfg, s, l, t)
    requires Stale(s.store, k, s.w.now, cfg.ttl)
    ensures Stale(t.store, k, t.w.now, cfg.ttl)
  {
    ScannedStep(cfg, s, l, t);
    if l.Enqueue? {
      EnqueueStale(cfg, s, l, t, k);
    } else if l.Delivered? {
      if t.store != s.store { AckStale(s.store, l.id, l.wall, k, s.w.now, cfg.ttl); }
    } else if l.SendFailed? {
      FailureStale(cfg, s, s.w.(outstanding := s.w.outstanding - {l.id}), l.id, l.failure, k);
    }
  }

  lemma FailureStale(cfg: Config, s: World, w: Worker, id: EventId, f: Failure, k: EventId)
    requires Stale(s.store, k, s.w.now, cfg.ttl)
    ensures Stale(Failed(cfg, s, w, id, f).store, k, s.w.now, cfg.ttl)
  {
    if Settle(s.store, id, cfg.maxAttempts, f.permanent, f.error, f.next, f.wall).Some? {
      SettleMoves(s.store, id, cfg.maxAttempts, f.permanent, f.error, f.next, f.wall);
      assert k != id;
    }
  }

  /** One step between scan and fetch leaves no stale row exactly if there was none and it does not
      admit one. */
  lemma StepDecidesFresh(run: Run, clock: seq<int>, i: nat)
    requires Timely(run, clock) && i < |run.labels| && 0 < run.cfg.ttl
    requires run.worlds[i].w.stage == Scanned && run.worlds[i + 1].w.stage == Scanned
    ensures FreshScan(run.cfg, run.worlds[i + 1]) <==>
              FreshScan(run.cfg, run.worlds[i])
              && !Overdue(run.cfg, run.worlds[i], run.labels[i], run.worlds[i + 1])
  {
    RunKeeps(run, i);
    assert StepAt(run, i);
    var s, l, t := run.worlds[i], run.labels[i], run.worlds[i + 1];
    if FreshScan(run.cfg, s) {
      if Overdue(run.cfg, s, l, t) {
        EnqueueKeepsFresh(run.cfg, s, l, t);
      } else {
        StepAtKeepsFresh(run, clock, i);
      }
    } else {
      var k :| k in s.store.rows && !Fresh(s.store, s.store.rows[k], s.w.now, run.cfg.ttl);
      StepKeepsStale(run.cfg, s, l, t, k);
    }
  }

  /** The run's step `j` scanned, and the worker has not fetched or been lost since. */
  ghost predicate Window(run: Run, j: nat, i: nat)
    requires j < i <= |run.labels|
  {
    run.labels[j].Scan? && forall m | j < m <= i :: run.worlds[m].w.stage == Scanned
  }

  ghost predicate OverdueWithin(run: Run, j: nat, i: nat)
    requires j < i <= |run.labels|
  {
    exists m :: j < m < i && OverdueAt(run, m)
  }

  predicate OverdueAt(run: Run, m: nat)
    requires m < |run.labels|
  {
    m + 1 < |run.worlds| && Overdue(run.cfg, run.worlds[m], run.labels[m], run.worlds[m + 1])
  }

  /** Main result.  Between a scan and its fetch, no due row is past its age if and only if no admission
      since the scan slipped in an event already overdue. */
  lemma {:induction false} WindowIsFresh(run: Run, clock: seq<int>, j: nat, i: nat)
    requires Timely(run, clock) && j < i <= |run.labels| && Window(run, j, i) && 0 < run.cfg.ttl
    ensures AllFresh(run.worlds[i].store, run.worlds[i].w.now, run.cfg.ttl) <==> !OverdueWithin(run, j, i)
  {
    if i == j + 1 {
      StoreHolds(run, j);
      assert StepAt(run, j);
      ExpireFreshens(run.worlds[j].store, run.labels[j].now, run.cfg.ttl);
    } else {
      assert Window(run, j, i - 1);
      WindowIsFresh(run, clock, j, i - 1);
      StepDecidesFresh(run, clock, i - 1);
      assert OverdueWithin(run, j, i) <==> OverdueWithin(run, j, i - 1) || OverdueAt(run, i - 1);
    }
  }

  /** So, short of such an admission since its own scan, every record an iteration fetches is within its
      age by that iteration's clock; and after one, a stale record is fetched or the batch is full. */
  lemma FetchedAreFresh(run: Run, clock: seq<int>, j: nat, i: nat)
    requires Timely(run, clock) && j < i < |run.labels| && Window(run, j, i) && 0 < run.cfg.ttl
    requires run.labels[i].Fetch?
    ensures var now, batch := run.worlds[i].w.now, run.labels[i].batch;
            if !OverdueWithin(run, j, i)
            then forall r | r in batch :: r.eligible.Some? && now - r.eligible.value <= run.cfg.ttl
            else |batch| == BATCH || exists r :: r in batch && !Fresh(run.worlds[i].store, r, now, run.cfg.ttl)
  {
    WindowIsFresh(run, clock, j, i);
    assert StepAt(run, i);
    var s, now, batch := run.worlds[i].store, run.worlds[i].w.now, run.labels[i].batch;
    if OverdueWithin(run, j, i) {
      var id :| id in s.rows && !Fresh(s, s.rows[id], now, run.cfg.ttl);
      assert s.rows[id] in batch || |batch| == BATCH;
    } else {
      forall r | r in batch ensures r.eligible.Some? && now - r.eligible.value <= run.cfg.ttl {
        assert Stored(s, r) && Due(s.streams, r, now) && Fresh(s, s.rows[r.ev.id], now, run.cfg.ttl);
      }
    }
  }
}

/** What whole runs guarantee about the broker's log and about the events callers offered. */
module PipelineOrdering {
  import opened OutboxModel
  import opened OutboxInvariant
  import opened PipelineProtocol
  import opened PipelineHistory
  import opened PipelineSafety
  import opened PipelineRuns

  // ---------------------------------------------------------------- the log

  /** `i` is where position `q` of call `c` first appears in the log. */
  predicate FirstAt(log: seq<Event>, i: int, c: CallId, q: int) {
    0 <= i < |log| && At(log[i], c, q) && !Earlier(log, i, c, q)
  }

  /** In a prefix-closed log, first appearances come in the order of the positions. */
  lemma FirstsIncrease(log: seq<Event>, c: CallId, q: int, i: int, r: int, j: int)
    requires PrefixClosed(log) && FirstAt(log, i, c, q) && FirstAt(log, j, c, r) && 0 <= q && 0 <= r
    ensures q < r <==> i < j
  {
    if q < r {
      assert Earlier(log, j, log[j].Cid(), q);
    } else if r < q {
      assert Earlier(log, i, log[i].Cid(), r);
    }
  }

  /** The log holds of call `c` exactly the positions below `k`, all in one partition. */
  ghost predicate HoldsPrefix(logs: Logs, c: CallId, k: int) {
    && (forall q :: Logged(logs, c, q) <==> 0 <= q < k)
    && (forall p, p', i, i' | p in logs && p' in logs && 0 <= i < |logs[p]| && 0 <= i' < |logs[p']|
          && logs[p][i].Ordered() && logs[p][i].Cid() == c
          && logs[p'][i'].Ordered() && logs[p'][i'].Cid() == c ::
          p == p' && logs[p][i].key == logs[p'][i'].key)
  }

  lemma CopyPlaced(cfg: Config, s: World, p: int, i: int)
    requires WorldInv(s) && InPlace(cfg, s.h) && p in s.h.logs && 0 <= i < |s.h.logs[p]|
    ensures var ev := s.h.logs[p][i];
            CopyOf(s.h, ev) && (ev.Ordered() ==>
              && Known(s.store, ev.Cid()) && ev.key == KeyOf(s.store, ev.Cid()) && p == cfg.partition(ev.key)
              && ev.seqNo.Some? && 0 <= ev.seqNo.value < Admits(s.store, ev.Cid()))
  {
    var ev := s.h.logs[p][i];
    assert ev in s.h.network;
    if ev.Ordered() { OrderedIsKeyed(s.store, s.h, ev); }
  }

  lemma LoggedBelow(s: World, c: CallId, q: int)
    requires WorldInv(s) && Logged(s.h.logs, c, q)
    ensures 0 <= q < Admits(s.store, c)
    ensures exists ev :: ev in s.h.network && At(ev, c, q)
  {
    var p, i :| p in s.h.logs && 0 <= i < |s.h.logs[p]| && At(s.h.logs[p][i], c, q);
    assert s.h.logs[p][i] in s.h.network;
    OrderedIsKeyed(s.store, s.h, s.h.logs[p][i]);
  }

  /** In closed logs nothing is missing below a logged position. */
  lemma LoggedDown(s: World, c: CallId, q: int, m: int)
    requires LogsClosed(s.h) && Logged(s.h.logs, c, q) && 0 <= m < q
    ensures Logged(s.h.logs, c, m)
  {
    var p, i :| p in s.h.logs && 0 <= i < |s.h.logs[p]| && At(s.h.logs[p][i], c, q);
    assert PrefixClosed(s.h.logs[p]);
    assert Earlier(s.h.logs[p], i, c, m);
  }

  /** How far the call's copies reach, looking from `from` on. */
  ghost function Reach(logs: Logs, c: CallId, from: int, bound: int): (k: int)
    ensures from <= k && (k <= bound || k == from)
    ensures forall q | from <= q < k :: Logged(logs, c, q)
    ensures k < bound ==> !Logged(logs, c, k)
    decreases bound - from
  {
    if from < bound && Logged(logs, c, from) then Reach(logs, c, from + 1, bound) else from
  }

  lemma {:induction false} WorldHoldsPrefix(cfg: Config, s: World, c: CallId)
    requires WorldInv(s) && OrderedLogs(cfg, s.h)
    ensures var k := Reach(s.h.logs, c, 0, Admits(s.store, c));
            HoldsPrefix(s.h.logs, c, k) && Cursor(s.store, c) <= k
  {
    var logs := s.h.logs;
    var k := Reach(logs, c, 0, Admits(s.store, c));
    assert k < Cursor(s.store, c) ==> Logged(logs, c, k);
    forall q ensures Logged(logs, c, q) <==> 0 <= q < k {
      if Logged(logs, c, q) {
        LoggedBelow(s, c, q);
        if k < q { LoggedDown(s, c, q, k); }
      }
    }
    forall p, p', i, i' | p in logs && p' in logs && 0 <= i < |logs[p]| && 0 <= i' < |logs[p']|
      && logs[p][i].Ordered() && logs[p][i].Cid() == c
      && logs[p'][i'].Ordered() && logs[p'][i'].Cid() == c
      ensures p == p' && logs[p][i].key == logs[p'][i'].key
    {
      CopyPlaced(cfg, s, p, i);
      CopyPlaced(cfg, s, p', i');
    }
  }

  // ---------------------------------------------------------------- how far copies reach

  /** A copy past its call's cursor was already on its way when the run began. */
  ghost predicate Bounded(s: World, prior: set<Event>) {
    forall ev | ev in s.h.network && ev.Ordered() && ev.seqNo.Some? ::
      ev in prior || ev.seqNo.value <= Cursor(s.store, ev.Cid())
  }

  lemma StepKeepsBound(cfg: Config, s: World, l: Label, t: World, prior: set<Event>)
    requires StoreInv(s.store) && HistoryInv(s.store, s.h) && WorkerInv(s.store, s.w)
    requires Bounded(s, prior) && Step(cfg, s, l, t)
    ensures Bounded(t, prior)
  {
    forall ev | ev in t.h.network && ev.Ordered() && ev.seqNo.Some?
      ensures ev in prior || ev.seqNo.value <= Cursor(t.store, ev.Cid())
    {
      if ev in s.h.network {
        OrderedIsKeyed(s.store, s.h, ev);
        StepKeepsIdentity(cfg, s, l, t, ev.Cid());
      } else {
        NewCopy(cfg, s, l, t, ev);
      }
    }
  }

  lemma NewCopy(cfg: Config, s: World, l: Label, t: World, ev: Event)
    requires StoreInv(s.store) && WorkerInv(s.store, s.w) && Step(cfg, s, l, t)
    requires ev in t.h.network && ev !in s.h.network
    ensures t.store == s.store && (ev.Ordered() ==> ev.seqNo == Some(Cursor(s.store, ev.Cid())))
  {
    if !l.HandOver? { OthersKeepNetwork(cfg, s, l, t); }
    var id := s.w.marked.value.ev.id;
    assert id in InFlightIds(s.store.rows);
    assert RowOk(s.store.streams, s.store.rows[id]);
  }

  lemma OthersKeepNetwork(cfg: Config, s: World, l: Label, t: World)
    requires Step(cfg, s, l, t) && !l.HandOver?
    ensures t.h.network == s.h.network
  {
    if !l.Append? { OthersKeepLogs(cfg, s, l, t); }
  }

  lemma StepAtKeepsBound(run: Run, i: nat, prior: set<Event>)
    requires i < |run.labels| && Bounded(run.worlds[i], prior)
    ensures Bounded(run.worlds[i + 1], prior)
  {
    RunKeeps(run, i);
    assert StepAt(run, i);
    StepKeepsBound(run.cfg, run.worlds[i], run.labels[i], run.worlds[i + 1], prior);
  }

  lemma {:induction false} BoundHolds(run: Run, i: nat)
    requires i < |run.worlds|
    ensures Bounded(run.worlds[i], run.worlds[0].h.network)
  {
    if i > 0 {
      BoundHolds(run, i - 1);
      StepAtKeepsBound(run, i - 1, run.worlds[0].h.network);
    }
  }

  // ---------------------------------------------------------------- the main results

  /** Main result.  In every world of every run with an ordered beginning, whatever was lost, repeated,
      retried, rebuilt or crashed: a call's log is exactly the positions below some `k`, in one
      partition, first appearances in position order; and `k` is its cursor, or one more, or was
      reached by a copy that was already on its way when the run began. */
  lemma LogsAreOrdered(run: Run, i: nat, c: CallId)
    requires i < |run.worlds| && OrderInv(run.cfg, run.worlds[0].h)
    ensures var s := run.worlds[i];
            var n := Cursor(s.store, c);
            && (exists k :: n <= k && HoldsPrefix(s.h.logs, c, k)
                            && (k <= n + 1 || exists ev :: ev in run.worlds[0].h.network && At(ev, c, k - 1)))
            && (forall p | p in s.h.logs :: PrefixClosed(s.h.logs[p]))
  {
    RunKeeps(run, i);
    OrderHolds(run, i);
    var s := run.worlds[i];
    var k := Reach(s.h.logs, c, 0, Admits(s.store, c));
    WorldHoldsPrefix(run.cfg, s, c);
    CursorIsNat(s, c);
    if Cursor(s.store, c) + 1 < k { FarReach(run, i, c, k - 1); }
    assert HoldsPrefix(s.h.logs, c, k);
  }

  /** A position past the one after the cursor was on its way when the run began. */
  lemma {:induction false} FarReach(run: Run, i: nat, c: CallId, q: int)
    requires i < |run.worlds| && Cursor(run.worlds[i].store, c) < q && 0 <= q
    requires var s := run.worlds[i];
             LogsClosed(s.h) && q < Reach(s.h.logs, c, 0, Admits(s.store, c))
    ensures exists ev :: ev in run.worlds[0].h.network && At(ev, c, q)
  {
    RunKeeps(run, i);
    BoundHolds(run, i);
    assert Logged(run.worlds[i].h.logs, c, q);
    LoggedBelow(run.worlds[i], c, q);
  }

  lemma CursorIsNat(s: World, c: CallId)
    requires StoreInv(s.store)
    ensures 0 <= Cursor(s.store, c)
  {
    if c in s.store.streams { assert StreamOk(s.store, c); }
  }

  /** In every world of the run the logs are in order. */
  ghost predicate StaysOrdered(run: Run) {
    forall i | 0 <= i < |run.worlds| :: OrderedLogs(run.cfg, run.worlds[i].h)
  }

  /** Main result.  What has to be true of the copies sent before a run: all runs that begin there keep
      their logs in order if and only if those logs are in order and no copy still on its way lacks
      an earlier position of its call. */
  lemma BeginningDecidesOrder(cfg: Config, s: World)
    requires Initial(s)
    ensures OrderInv(cfg, s.h) <==>
              forall run: Run | run.cfg == cfg && run.worlds[0] == s :: StaysOrdered(run)
  {
    if OrderInv(cfg, s.h) {
      forall run: Run | run.cfg == cfg && run.worlds[0] == s ensures StaysOrdered(run) {
        forall i | 0 <= i < |run.worlds| ensures OrderedLogs(cfg, run.worlds[i].h) { OrderHolds(run, i); }
      }
    } else {
      DisorderFollows(cfg, s);
    }
  }

  /** The run that goes wrong: the beginning itself, or one harmful copy appended to it. */
  lemma DisorderFollows(cfg: Config, s: World)
    requires Initial(s) && !OrderInv(cfg, s.h)
    ensures exists run: Run :: run.cfg == cfg && run.worlds[0] == s && !StaysOrdered(run)
  {
    if OrderedLogs(cfg, s.h) {
      var ev :| ev in s.h.network && !Harmless(cfg, s.h, ev);
      var run := HarmArrives(cfg, s, ev);
      assert !OrderedLogs(cfg, run.worlds[1].h);
    } else {
      var run := JustBegun(cfg, s);
      assert !OrderedLogs(cfg, run.worlds[0].h);
    }
  }

  lemma JustBegun(cfg: Config, s: World) returns (run: Run)
    requires Initial(s)
    ensures run == Trace(cfg, [s], [])
  {
    run := Trace(cfg, [s], []);
  }

  lemma HarmArrives(cfg: Config, s: World, ev: Event) returns (run: Run)
    requires Initial(s) && OrderedLogs(cfg, s.h) && ev in s.h.network && !Harmless(cfg, s.h, ev)
    ensures run.cfg == cfg && |run.worlds| == 2 && run.worlds[0] == s && !OrderedLogs(cfg, run.worlds[1].h)
  {
    var p := cfg.partition(ev.key);
    var still := JustBegun(cfg, s);
    run := Extend(still, Append(p, ev));
    HarmShows(cfg, s.h, ev);
  }

  lemma HarmShows(cfg: Config, h: History, ev: Event)
    requires OrderedLogs(cfg, h) && !Harmless(cfg, h, ev)
    ensures !OrderedLogs(cfg, Appended(h, cfg.partition(ev.key), ev))
  {
    AppendCloses(cfg, h, ev);
    var p := cfg.partition(ev.key);
    assert p in Appended(h, p, ev).logs && !PrefixClosed(Appended(h, p, ev).logs[p]);
  }

  // ---------------------------------------------------------------- conservation

  datatype Whereabouts = InLogAcked | StillARow | WasReclaimed

  predicate Is(s: World, id: EventId, place: Whereabouts) {
    match place
    case InLogAcked => id in s.h.acked && id in s.h.admitted && InLogs(s.h.logs, s.h.admitted[id])
    case StillARow => id in s.store.rows && id in s.h.admitted && s.store.rows[id].ev == s.h.admitted[id]
    case WasReclaimed => id in s.h.reclaimed
  }

  lemma StepKeepsAdmitted(cfg: Config, s: World, l: Label, t: World, id: EventId)
    requires Step(cfg, s, l, t) && id in s.h.admitted
    ensures id in t.h.admitted && t.h.admitted[id] == s.h.admitted[id]
  {
    if !l.Enqueue? { OnlyEnqueueAdmits(cfg, s, l, t); }
  }

  lemma OnlyEnqueueAdmits(cfg: Config, s: World, l: Label, t: World)
    requires Step(cfg, s, l, t) && !l.Enqueue?
    ensures t.h.admitted == s.h.admitted
  {
  }

  lemma StepAtKeepsAdmitted(run: Run, i: nat, id: EventId)
    requires i < |run.labels| && id in run.worlds[i].h.admitted
    ensures id in run.worlds[i + 1].h.admitted && run.worlds[i + 1].h.admitted[id] == run.worlds[i].h.admitted[id]
  {
    assert StepAt(run, i);
    StepKeepsAdmitted(run.cfg, run.worlds[i], run.labels[i], run.worlds[i + 1], id);
  }

  /** An admission is never forgotten, nor the event changed. */
  lemma {:induction false} AdmittedStays(run: Run, k: nat, i: nat, id: EventId)
    requires k <= i < |run.worlds| && id in run.worlds[k].h.admitted
    ensures id in run.worlds[i].h.admitted && run.worlds[i].h.admitted[id] == run.worlds[k].h.admitted[id]
  {
    if k < i {
      AdmittedStays(run, k, i - 1, id);
      StepAtKeepsAdmitted(run, i - 1, id);
    }
  }

  /** Main result.  Every event whose admission succeeded is, unchanged, in exactly one place in every
      later world; and an ordered event is never reclaimed: it is a row, or acknowledged and in the
      log. */
  lemma EventsAreConserved(run: Run, k: nat, i: nat, id: EventId)
    requires k <= i < |run.worlds| && id in run.worlds[k].h.admitted
    ensures var s := run.worlds[i];
            && id in s.h.admitted && s.h.admitted[id] == run.worlds[k].h.admitted[id]
            && (exists place :: Is(s, id, place))
            && (forall place, place' :: Is(s, id, place) && Is(s, id, place') ==> place == place')
            && (s.h.admitted[id].Ordered() ==> !Is(s, id, WasReclaimed))
  {
    AdmittedStays(run, k, i, id);
    RunKeeps(run, i);
    WorldConserves(run.worlds[i], id);
  }

  lemma WorldConserves(s: World, id: EventId)
    requires WorldInv(s) && id in s.h.admitted
    ensures && (exists place :: Is(s, id, place))
            && (forall place, place' :: Is(s, id, place) && Is(s, id, place') ==> place == place')
            && (s.h.admitted[id].Ordered() ==> !Is(s, id, WasReclaimed))
  {
    assert Is(s, id, InLogAcked) <==> id in s.h.acked;
    assert Is(s, id, StillARow) <==> id in s.store.rows;
    assert Is(s, id, WasReclaimed) <==> id in s.h.reclaimed;
  }

  lemma EnqueueRemoves(cfg: Config, s: World, l: Label, t: World, id: EventId)
    requires Step(cfg, s, l, t) && l.Enqueue? && id in s.store.rows && id !in t.store.rows
    ensures id in t.h.reclaimed && Reclaimable(s.store.rows[id])
            && Full(s.store.rows, |l.a.payload|, cfg.limits)
  {
  }

  lemma DeliveredRemoves(cfg: Config, s: World, l: Label, t: World, id: EventId)
    requires Step(cfg, s, l, t) && l.Delivered? && id in s.store.rows && id !in t.store.rows
    ensures l.id == id && id in t.h.acked
  {
  }

  /** Rows leave the store in two ways only: the delivery of their own message, or reclaiming an
      ungrouped row that TTL expiry killed, for an insert that found the outbox full. */
  lemma RowsLeaveOnlyThus(run: Run, i: nat, id: EventId)
    requires i < |run.labels| && id in run.worlds[i].store.rows && id !in run.worlds[i + 1].store.rows
    ensures var s, l, t := run.worlds[i], run.labels[i], run.worlds[i + 1];
            || (l.Delivered? && l.id == id && id in t.h.acked)
            || (l.Enqueue? && id in t.h.reclaimed && Reclaimable(s.store.rows[id])
                && Full(s.store.rows, |l.a.payload|, run.cfg.limits))
  {
    StoreHolds(run, i);
    assert StepAt(run, i);
    StepRemoves(run.cfg, run.worlds[i], run.labels[i], run.worlds[i + 1], id);
  }

  lemma StepRemoves(cfg: Config, s: World, l: Label, t: World, id: EventId)
    requires StoreInv(s.store) && Step(cfg, s, l, t) && id in s.store.rows && id !in t.store.rows
    ensures || (l.Delivered? && l.id == id && id in t.h.acked)
            || (l.Enqueue? && id in t.h.reclaimed && Reclaimable(s.store.rows[id])
                && Full(s.store.rows, |l.a.payload|, cfg.limits))
  {
    if l.Enqueue? {
      EnqueueRemoves(cfg, s, l, t, id);
    } else if l.Delivered? {
      DeliveredRemoves(cfg, s, l, t, id);
    } else if l.OperatorRetire? {
    } else {
      OthersRemoveNothing(cfg, s, l, t);
    }
  }

  lemma OthersRemoveNothing(cfg: Config, s: World, l: Label, t: World)
    requires StoreInv(s.store) && Step(cfg, s, l, t)
    requires !l.Enqueue? && !l.Delivered? && !l.OperatorRetire?
    ensures t.store.rows.Keys == s.store.rows.Keys
  {
    if !l.HandOver? && !l.Append? { QuietStep(cfg, s, l, t); }
  }

  // ---------------------------------------------------------------- positions and ordinals

  /** Main result.  Over the whole history, across acknowledgement, restart and retirement, no
      (topic, call, position) is ever given to two events; and the events of a call share a key. */
  lemma PositionsAreNeverReused(run: Run, i: nat,
                                id: EventId, id': EventId)
    requires i < |run.worlds|
    requires id in run.worlds[i].h.admitted && id' in run.worlds[i].h.admitted
    ensures var e := run.worlds[i].h.admitted[id];
            var e' := run.worlds[i].h.admitted[id'];
            && (SamePosition(e, e') ==> id == id')
            && (e.Ordered() && e'.Ordered() && e.Cid() == e'.Cid() ==> e.key == e'.key)
  {
    RunKeeps(run, i);
    var e, e' := run.worlds[i].h.admitted[id], run.worlds[i].h.admitted[id'];
    if e.Ordered() && e'.Ordered() && e.Cid() == e'.Cid() {
      assert Placed(run.worlds[i].store, e, id in run.worlds[i].h.acked);
      assert Placed(run.worlds[i].store, e', id' in run.worlds[i].h.acked);
    }
  }
}

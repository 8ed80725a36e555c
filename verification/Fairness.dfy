/** Fair service between calls: durable turns, bounded overtaking, and how fast a backlog is served. */
module PipelineFairness {
  import opened OutboxModel
  import opened OutboxInvariant
  import opened OutboxFetch
  import opened PipelineProtocol
  import opened PipelineHistory
  import opened PipelineSafety
  import opened PipelineRuns

  function LastServed(s: Store, c: CallId): int {
    if c in s.streams then s.streams[c].lastServed else 0
  }

  /** A run that begins with the scheduler at or past every call, served or yet to come. */
  type FairRun = run: Run | TurnsOk(run.worlds[0].store)
    ghost witness Trace(Config("", Limits(0, 0), 0, 0, false, (key: string) => 0), [EMPTY_WORLD], [])

  /** The step marked a row of the call in flight. */
  predicate Serves(l: Label, s: World, t: World, c: CallId) {
    l.Mark? && s.w.batch != [] && t.w.marked.Some? && s.w.batch[0].ev.Ordered() && s.w.batch[0].ev.Cid() == c
  }

  predicate ServesAt(run: Run, m: nat, c: CallId)
    requires m < |run.labels|
  {
    m + 1 < |run.worlds| && Serves(run.labels[m], run.worlds[m], run.worlds[m + 1], c)
  }

  // ---------------------------------------------------------------- turns

  /** Serving a call puts it strictly behind every other call, and no other step moves a call
      back; what is not served keeps its turn, or starts at 0. */
  lemma StepTurns(cfg: Config, s: World, l: Label, t: World, c: CallId)
    requires StoreInv(s.store) && WorkerInv(s.store, s.w) && Step(cfg, s, l, t)
    ensures if Serves(l, s, t, c) then c in t.store.streams && LastServed(t.store, c) == s.store.turn + 1
            else LastServed(t.store, c) == LastServed(s.store, c) || LastServed(t.store, c) == 0
    ensures c in s.store.streams && c in t.store.streams && !Serves(l, s, t, c) ==>
              LastServed(t.store, c) == LastServed(s.store, c)
    ensures s.store.turn <= t.store.turn
  {
    if l.Mark? {
      MarkTurns(cfg, s, l, t, c);
    } else if l.Enqueue? {
      EnqueueTurns(cfg, s, l, t, c);
    } else if l.Delivered? {
      if t.store != s.store { AckTurns(s.store, l.id, l.wall, c); }
    } else if l.OperatorRetire? || l.HandOver? || l.Append? {
    } else {
      MovesTurns(cfg, s, l, t);
    }
  }

  lemma AckTurns(s: Store, id: EventId, wall: int, c: CallId)
    requires MarkAcked(s, id, wall).Some?
    ensures LastServed(MarkAcked(s, id, wall).value, c) == LastServed(s, c)
    ensures MarkAcked(s, id, wall).value.turn == s.turn
  {
  }

  lemma MarkTurns(cfg: Config, s: World, l: Label, t: World, c: CallId)
    requires WorkerInv(s.store, s.w) && Step(cfg, s, l, t) && l.Mark?
    requires c in s.store.streams ==> StreamOk(s.store, c)
    ensures if Serves(l, s, t, c) then c in t.store.streams && LastServed(t.store, c) == s.store.turn + 1
            else LastServed(t.store, c) == LastServed(s.store, c)
    ensures s.store.turn <= t.store.turn
  {
    var r := s.w.batch[0];
    assert Serviceable(s.store, r);
    ServiceableIsMarked(s.store, r, l.wall);
  }

  lemma EnqueueTurns(cfg: Config, s: World, l: Label, t: World, c: CallId)
    requires StoreInv(s.store) && Step(cfg, s, l, t) && l.Enqueue?
    ensures LastServed(t.store, c) == LastServed(s.store, c) && t.store.turn == s.store.turn
  {
    if t.store != s.store { InsertIs(s.store, l.a, l.a.created, cfg.limits); }
  }

  lemma MovesTurns(cfg: Config, s: World, l: Label, t: World)
    requires Step(cfg, s, l, t)
    requires !l.Mark? && !l.Enqueue? && !l.Delivered? && !l.OperatorRetire? && !l.HandOver? && !l.Append?
    ensures t.store.streams == s.store.streams && t.store.turn == s.store.turn
  {
    if l.HandOverFailed? {
      if t.store != s.store {
        var f := l.failure;
        SettleMoves(s.store, s.w.marked.value.ev.id, cfg.maxAttempts, f.permanent, f.error, f.next, f.wall);
      }
    } else if l.SendFailed? {
      if t.store != s.store {
        var f := l.failure;
        SettleMoves(s.store, l.id, cfg.maxAttempts, f.permanent, f.error, f.next, f.wall);
      }
    }
  }

  lemma StepKeepsTurns(cfg: Config, s: World, l: Label, t: World)
    requires StoreInv(s.store) && WorkerInv(s.store, s.w) && TurnsOk(s.store)
    requires TurnInRange(t.store) && Step(cfg, s, l, t)
    ensures TurnsOk(t.store)
  {
    StepTurns(cfg, s, l, t, CallId("", ""));
    forall c | c in t.store.streams ensures t.store.streams[c].lastServed <= t.store.turn {
      StepTurns(cfg, s, l, t, c);
      if Serves(l, s, t, c) { ServingTicks(cfg, s, l, t, c); }
      assert c in s.store.streams ==> s.store.streams[c].lastServed <= s.store.turn;
    }
  }

  lemma ServingTicks(cfg: Config, s: World, l: Label, t: World, c: CallId)
    requires Step(cfg, s, l, t) && Serves(l, s, t, c)
    ensures t.store.turn == s.store.turn + 1
  {
  }

  lemma StepAtKeepsTurns(run: Run, i: nat)
    requires i < |run.labels| && TurnsOk(run.worlds[i].store)
    ensures TurnsOk(run.worlds[i + 1].store)
  {
    RunKeeps(run, i);
    StoreHolds(run, i + 1);
    assert StepAt(run, i);
    StepKeepsTurns(run.cfg, run.worlds[i], run.labels[i], run.worlds[i + 1]);
  }

  /** The scheduler stays at or past every call. */
  lemma {:induction false} TurnsHold(run: FairRun, i: nat)
    requires i < |run.worlds|
    ensures TurnsOk(run.worlds[i].store)
  {
    if i > 0 {
      TurnsHold(run, i - 1);
      StepAtKeepsTurns(run, i - 1);
    }
  }

  /** In such a run no call ever stands past the scheduler. */
  lemma AllStayBehind(run: FairRun, i: nat, c: CallId)
    requires i < |run.worlds|
    ensures LastServed(run.worlds[i].store, c) <= run.worlds[i].store.turn
  {
    TurnsHold(run, i);
  }

  lemma StepAtTurns(run: Run, m: nat, c: CallId)
    requires m < |run.labels|
    ensures var s, t := run.worlds[m], run.worlds[m + 1];
            && (if ServesAt(run, m, c) then c in t.store.streams && LastServed(t.store, c) == s.store.turn + 1
                else LastServed(t.store, c) == LastServed(s.store, c) || LastServed(t.store, c) == 0)
            && (c in s.store.streams && c in t.store.streams && !ServesAt(run, m, c) ==>
                  LastServed(t.store, c) == LastServed(s.store, c))
            && s.store.turn <= t.store.turn
  {
    RunKeeps(run, m);
    assert StepAt(run, m);
    StepTurns(run.cfg, run.worlds[m], run.labels[m], run.worlds[m + 1], c);
  }

  /** The call was served by one of the steps from `i` on, before `j`. */
  ghost predicate ServedWithin(run: Run, i: nat, j: nat, c: CallId)
    requires i <= j <= |run.labels|
  {
    exists m :: i <= m < j && ServesAt(run, m, c)
  }

  lemma WithinGrows(run: Run, i: nat, j: nat, c: CallId)
    requires i <= j < |run.labels|
    ensures ServedWithin(run, i, j + 1, c) <==> ServedWithin(run, i, j, c) || ServesAt(run, j, c)
  {
  }

  /** A call that has no stream stands at 0 for as long as it is not served. */
  lemma {:induction false} NewcomersStandAtZero(run: Run, i: nat, j: nat, c: CallId)
    requires i <= j <= |run.labels| && !ServedWithin(run, i, j, c) && c !in run.worlds[i].store.streams
    ensures LastServed(run.worlds[j].store, c) == 0
  {
    if i < j {
      WithinGrows(run, i, j - 1, c);
      NewcomersStandAtZero(run, i, j - 1, c);
      StepAtTurns(run, j - 1, c);
    }
  }

  /** A call that is not served keeps its turn as long as it has a stream. */
  lemma {:induction false} UnservedKeepsTurn(run: Run, i: nat, j: nat, c: CallId)
    requires i <= j <= |run.labels| && !ServedWithin(run, i, j, c) && c in run.worlds[j].store.streams
    ensures LastServed(run.worlds[j].store, c) == LastServed(run.worlds[i].store, c)
  {
    if c !in run.worlds[i].store.streams {
      NewcomersStandAtZero(run, i, j, c);
    } else if i < j {
      WithinGrows(run, i, j - 1, c);
      StreamsStay(run, i, j - 1, j, c);
      UnservedKeepsTurn(run, i, j - 1, c);
      StepAtTurns(run, j - 1, c);
    }
  }

  /** A call with a stream now and later has one in between: retirement is for good. */
  lemma StreamsStay(run: Run, i: nat, k: nat, j: nat, c: CallId)
    requires i <= k <= j < |run.worlds| && c in run.worlds[i].store.streams && c in run.worlds[j].store.streams
    ensures c in run.worlds[k].store.streams
  {
    CallsKeepIdentity(run, i, k, c);
    CallsKeepIdentity(run, k, j, c);
  }

  /** No later than the scheduler: whatever is served next goes behind the call. */
  predicate NotPast(s: Store, c: CallId) { LastServed(s, c) <= s.turn }

  /** Unless served since, a call stands where it stood. */
  lemma UnservedStaysLow(run: Run, i: nat, j: nat, c: CallId)
    requires i <= j <= |run.labels| && !ServedWithin(run, i, j, c)
    requires NotPast(run.worlds[i].store, c) && c in run.worlds[j].store.streams
    ensures LastServed(run.worlds[j].store, c) <= run.worlds[i].store.turn
  {
    UnservedKeepsTurn(run, i, j, c);
  }

  lemma {:induction false} TurnsGrow(run: Run, i: nat, j: nat)
    requires i <= j < |run.worlds|
    ensures run.worlds[i].store.turn <= run.worlds[j].store.turn
  {
    if i < j {
      TurnsGrow(run, i, j - 1);
      StepAtTurns(run, j - 1, CallId("", ""));
    }
  }

  /** Once served, a call that still has a stream keeps a turn later than every call unserved since. */
  lemma {:induction false} ServedStaysHigh(run: Run, i: nat, j: nat, c: CallId)
    requires i <= j <= |run.labels| && ServedWithin(run, i, j, c)
    requires c in run.worlds[j].store.streams
    ensures run.worlds[i].store.turn < LastServed(run.worlds[j].store, c)
  {
    WithinGrows(run, i, j - 1, c);
    StepAtTurns(run, j - 1, c);
    if ServesAt(run, j - 1, c) {
      TurnsGrow(run, i, j - 1);
    } else {
      StillStreaming(run, i, j - 1, j, c);
      ServedStaysHigh(run, i, j - 1, c);
    }
  }

  lemma StillStreaming(run: Run, i: nat, k: nat, j: nat, c: CallId)
    requires i <= k <= j <= |run.labels| && ServedWithin(run, i, k, c) && c in run.worlds[j].store.streams
    ensures c in run.worlds[k].store.streams
  {
    var m :| i <= m < k && ServesAt(run, m, c);
    StepAtTurns(run, m, c);
    StreamsStay(run, m + 1, k, j, c);
  }

  // ---------------------------------------------------------------- one batch

  /** The batch of the last fetch: a tail of it is left, and what is gone was marked, or it was
      dropped as a whole. */
  ghost predicate Progress(run: Run, f: nat, k: nat)
    requires f < k <= |run.labels| && run.labels[f].Fetch?
  {
    var batch := run.labels[f].batch;
    run.worlds[k].w.batch == []
    || exists d :: 0 <= d <= |batch| && run.worlds[k].w.batch == batch[d..] && MarkedUpTo(run, f, k, d)
  }

  /** The first `d` records of the batch were marked before `k`, one after the other. */
  ghost predicate MarkedUpTo(run: Run, f: nat, k: nat, d: nat)
    requires f < k <= |run.labels| && run.labels[f].Fetch? && d <= |run.labels[f].batch|
    decreases d
  {
    d > 0 ==> exists m :: f < m < k && MarksLast(run, f, m, d) && MarkedUpTo(run, f, m, d - 1)
  }

  /** Step `m` marked the last of the first `d` records. */
  predicate MarksLast(run: Run, f: nat, m: nat, d: nat)
    requires f < |run.labels| && run.labels[f].Fetch? && 0 < d <= |run.labels[f].batch|
  {
    m < |run.labels| && MarksAt(run, m, run.labels[f].batch[d - 1])
  }

  lemma {:induction false} EachWasMarked(run: Run, f: nat, k: nat, d: nat, e: nat)
    requires f < k <= |run.labels| && run.labels[f].Fetch? && e < d <= |run.labels[f].batch|
    requires MarkedUpTo(run, f, k, d)
    ensures MarkedWithin(run, f + 1, k, run.labels[f].batch[e])
  {
    var m :| f < m < k && MarksLast(run, f, m, d) && MarkedUpTo(run, f, m, d - 1);
    if e < d - 1 {
      EachWasMarked(run, f, m, d - 1, e);
      var n :| f + 1 <= n < m && MarksAt(run, n, run.labels[f].batch[e]);
    }
  }

  ghost predicate MarkedWithin(run: Run, i: nat, j: nat, r: Row)
    requires i <= j <= |run.labels|
  {
    exists m :: i <= m < j && MarksAt(run, m, r)
  }

  predicate MarksAt(run: Run, m: nat, r: Row)
    requires m < |run.labels|
  {
    m + 1 < |run.worlds| && run.labels[m].Mark? && run.worlds[m].w.batch != [] && run.worlds[m].w.batch[0] == r
    && run.worlds[m + 1].w.marked.Some?
  }

  predicate NoFetch(run: Run, i: nat, j: nat) {
    i <= j <= |run.labels| && forall m | i <= m < j :: !run.labels[m].Fetch?
  }

  lemma StepBatch(cfg: Config, s: World, l: Label, t: World)
    requires Step(cfg, s, l, t) && !l.Fetch?
    ensures t.w.batch == [] || t.w.batch == s.w.batch
            || (l.Mark? && s.w.batch != [] && t.w.marked.Some? && t.w.batch == s.w.batch[1..])
  {
    if l.Mark? {
    } else if l.HandOverFailed? {
    } else if l.SendFailed? {
    } else {
      MostKeepBatch(cfg, s, l, t);
    }
  }

  lemma MostKeepBatch(cfg: Config, s: World, l: Label, t: World)
    requires Step(cfg, s, l, t) && !l.Fetch? && !l.Mark? && !l.HandOverFailed? && !l.SendFailed?
    ensures t.w.batch == [] || t.w.batch == s.w.batch
  {
  }

  lemma {:induction false} BatchProgress(run: Run, f: nat, k: nat)
    requires f < k <= |run.labels| && run.labels[f].Fetch? && NoFetch(run, f + 1, k)
    ensures Progress(run, f, k)
  {
    assert StepAt(run, k - 1);
    if k == f + 1 {
      assert run.worlds[k].w.batch == run.labels[f].batch[0..] && MarkedUpTo(run, f, k, 0);
    } else {
      BatchProgress(run, f, k - 1);
      StepBatch(run.cfg, run.worlds[k - 1], run.labels[k - 1], run.worlds[k]);
      if run.worlds[k].w.batch != [] { BatchAdvances(run, f, k - 1); }
    }
  }

  lemma BatchAdvances(run: Run, f: nat, k: nat)
    requires f < k < |run.labels| && run.labels[f].Fetch? && Progress(run, f, k) && run.worlds[k].w.batch != []
    requires var was, now := run.worlds[k].w.batch, run.worlds[k + 1].w.batch;
             now == was || (run.labels[k].Mark? && run.worlds[k + 1].w.marked.Some? && now == was[1..])
    ensures Progress(run, f, k + 1)
  {
    var batch := run.labels[f].batch;
    var was, now := run.worlds[k].w.batch, run.worlds[k + 1].w.batch;
    var d :| 0 <= d <= |batch| && was == batch[d..] && MarkedUpTo(run, f, k, d);
    StillMarked(run, f, k, d);
    if now != was {
      assert MarksLast(run, f, k, d + 1);
      assert MarkedUpTo(run, f, k + 1, d + 1);
      assert now == batch[d + 1..];
    }
  }

  lemma StillMarked(run: Run, f: nat, k: nat, d: nat)
    requires f < k < |run.labels| && run.labels[f].Fetch? && d <= |run.labels[f].batch|
    requires MarkedUpTo(run, f, k, d)
    ensures MarkedUpTo(run, f, k + 1, d)
  {
  }

  // ---------------------------------------------------------------- overtaking

  /** A row of the call could be sent at the time. */
  predicate HasDue(s: Store, now: int, c: CallId, id: EventId) {
    id in s.rows && Due(s.streams, s.rows[id], now) && s.rows[id].ev.Ordered() && s.rows[id].ev.Cid() == c
  }

  /** In a batch, whoever is due and was served longer ago comes earlier. */
  lemma EarlierInBatch(s: Store, now: int, limit: int, out: seq<Row>, i: nat, id: EventId)
    requires IsFetch(s, now, limit, out) && i < |out|
    requires id in s.rows && Due(s.streams, s.rows[id], now)
    requires Served(s.streams, s.rows[id]) < Served(s.streams, out[i])
    ensures exists k :: 0 <= k < i && out[k] == s.rows[id]
  {
    var r := s.rows[id];
    assert !Before(s.streams, out[i], r);
    assert r in out;
    var k :| 0 <= k < |out| && out[k] == r;
    assert k != i && !(i < k);
  }

  /** The row marked now came with the last fetch, and so did, and was marked, whoever was due then and
      had been served longer ago. */
  lemma MarkedBefore(run: Run, f: nat, j: nat, a: CallId, waiting: EventId)
    requires f < j < |run.labels| && ServesAt(run, j, a) && run.labels[f].Fetch? && NoFetch(run, f + 1, j)
    requires var s, now := run.worlds[f].store, run.worlds[f].w.now;
             waiting in s.rows && Due(s.streams, s.rows[waiting], now)
             && Served(s.streams, s.rows[waiting]) < LastServed(s, a)
    ensures MarkedWithin(run, f + 1, j, run.worlds[f].store.rows[waiting])
  {
    BatchProgress(run, f, j);
    assert StepAt(run, f);
    var s, batch := run.worlds[f].store, run.labels[f].batch;
    var d :| 0 <= d <= |batch| && run.worlds[j].w.batch == batch[d..] && MarkedUpTo(run, f, j, d);
    assert batch[d].ev.Cid() == a;
    EarlierInBatch(s, run.worlds[f].w.now, BATCH, batch, d, waiting);
    var e :| 0 <= e < d && batch[e] == s.rows[waiting];
    EachWasMarked(run, f, j, d, e);
  }

  /** Main result.  Between two services of a call, every other call that was due when the second one was
      fetched has been served too, if at the first service it stood no later than the scheduler. */
  lemma OvertakenOnce(run: Run, i: nat, f: nat, j: nat, a: CallId, b: CallId, waiting: EventId)
    requires i < f < j < |run.labels|
    requires ServesAt(run, i, a) && ServesAt(run, j, a)
    requires run.labels[f].Fetch? && NoFetch(run, f + 1, j)
    requires HasDue(run.worlds[f].store, run.worlds[f].w.now, b, waiting) && a != b
    requires NotPast(run.worlds[i].store, b)
    ensures ServedWithin(run, i + 1, j, b)
  {
    if ServedWithin(run, i + 1, f, b) {
      var m :| i + 1 <= m < f && ServesAt(run, m, b);
    } else {
      assert !ServesAt(run, i, b);
      assert !ServedWithin(run, i, f, b) && ServedWithin(run, i, f, a);
      OrderedHasStream(run, f, waiting);
      UnservedStaysLow(run, i, f, b);
      MarkedHasStream(run, f, j, a);
      ServedStaysHigh(run, i, f, a);
      MarkedBefore(run, f, j, a, waiting);
      var m :| f + 1 <= m < j && MarksAt(run, m, run.worlds[f].store.rows[waiting]);
      assert ServesAt(run, m, b);
    }
  }

  /** A call served out of a batch had a stream when the batch was fetched. */
  lemma MarkedHasStream(run: Run, f: nat, j: nat, a: CallId)
    requires f < j < |run.labels| && ServesAt(run, j, a) && run.labels[f].Fetch? && NoFetch(run, f + 1, j)
    ensures a in run.worlds[f].store.streams
  {
    BatchProgress(run, f, j);
    assert StepAt(run, f);
    var s, batch := run.worlds[f].store, run.labels[f].batch;
    var d :| 0 <= d <= |batch| && run.worlds[j].w.batch == batch[d..] && MarkedUpTo(run, f, j, d);
    assert Stored(s, batch[d]);
    OrderedHasStream(run, f, batch[d].ev.id);
  }

  /** In a run whose scheduler begins at or past every call, nobody who waits is overtaken twice. */
  lemma NobodyIsOvertakenTwice(run: FairRun, i: nat, f: nat, j: nat, a: CallId, b: CallId, waiting: EventId)
    requires i < f < j < |run.labels|
    requires ServesAt(run, i, a) && ServesAt(run, j, a)
    requires run.labels[f].Fetch? && NoFetch(run, f + 1, j)
    requires HasDue(run.worlds[f].store, run.worlds[f].w.now, b, waiting) && a != b
    ensures ServedWithin(run, i + 1, j, b)
  {
    TurnsHold(run, i);
    OvertakenOnce(run, i, f, j, a, b, waiting);
  }

  predicate Older(r: Row, q: Row) {
    r.created < q.created || (r.created == q.created && r.rowid < q.rowid)
  }

  /** Main result.  Where a call served at `i` ranks at a later fetch, neither it nor the other having been
      served in between: ahead of the other exactly if the other stood past the turn it was given then,
      or at that turn with a younger row. */
  lemma RankAfterService(run: Run, i: nat, f: nat, a: CallId, b: CallId, x: EventId, y: EventId)
    requires i < f < |run.labels| && ServesAt(run, i, a) && a != b
    requires !ServedWithin(run, i + 1, f, a) && !ServedWithin(run, i + 1, f, b)
    requires HasDue(run.worlds[f].store, run.worlds[f].w.now, a, x)
    requires HasDue(run.worlds[f].store, run.worlds[f].w.now, b, y)
    ensures var s, t := run.worlds[i].store, run.worlds[f].store;
            Before(t.streams, t.rows[x], t.rows[y]) <==>
              s.turn + 1 < LastServed(s, b) || (s.turn + 1 == LastServed(s, b) && Older(t.rows[x], t.rows[y]))
  {
    OrderedHasStream(run, f, x);
    OrderedHasStream(run, f, y);
    StepAtTurns(run, i, a);
    UnservedKeepsTurn(run, i + 1, f, a);
    assert !ServesAt(run, i, b);
    assert !ServedWithin(run, i, f, b);
    UnservedKeepsTurn(run, i, f, b);
  }

  /** So a call that stood past that turn is overtaken again: the fetch that takes its row took the other's
      first. */
  lemma OvertakenAgain(run: Run, i: nat, f: nat, a: CallId, b: CallId, x: EventId, y: EventId, k: nat)
    requires i < f < |run.labels| && run.labels[f].Fetch? && ServesAt(run, i, a) && a != b
    requires !ServedWithin(run, i + 1, f, a) && !ServedWithin(run, i + 1, f, b)
    requires HasDue(run.worlds[f].store, run.worlds[f].w.now, a, x)
    requires HasDue(run.worlds[f].store, run.worlds[f].w.now, b, y)
    requires run.worlds[i].store.turn + 1 < LastServed(run.worlds[i].store, b)
    requires k < |run.labels[f].batch| && run.labels[f].batch[k] == run.worlds[f].store.rows[y]
    ensures exists e :: 0 <= e < k && run.labels[f].batch[e] == run.worlds[f].store.rows[x]
  {
    assert StepAt(run, f);
    OrderedHasStream(run, f, x);
    StepAtTurns(run, i, a);
    UnservedKeepsTurn(run, i + 1, f, a);
    OrderedHasStream(run, f, y);
    assert !ServesAt(run, i, b);
    assert !ServedWithin(run, i, f, b);
    UnservedKeepsTurn(run, i, f, b);
    EarlierInBatch(run.worlds[f].store, run.worlds[f].w.now, BATCH, run.labels[f].batch, k, x);
  }

  lemma OrderedHasStream(run: Run, i: nat, id: EventId)
    requires i < |run.worlds| && id in run.worlds[i].store.rows
    ensures var s := run.worlds[i].store; s.rows[id].ev.Ordered() ==> s.rows[id].ev.Cid() in s.streams
  {
    StoreHolds(run, i);
    assert RowOk(run.worlds[i].store.streams, run.worlds[i].store.rows[id]);
  }

  // ---------------------------------------------------------------- rounds

  /** A fetch and the marking of everything it fetched. */
  datatype Round = Round(fetch: nat, end: nat)

  ghost predicate IsRound(run: Run, r: Round) {
    && r.fetch < r.end <= |run.labels| && run.labels[r.fetch].Fetch?
    && MarkedUpTo(run, r.fetch, r.end, |run.labels[r.fetch].batch|)
  }

  ghost function ServedOf(run: Run, i: nat, j: nat, calls: set<CallId>): set<CallId>
    requires i <= j <= |run.labels|
  {
    set c | c in calls && ServedWithin(run, i, j, c)
  }

  /** At `i` no call of the set stands past the scheduler; at the fetch, every one of them not served since
      is due, and no call outside the set is. */
  ghost predicate Competing(run: Run, i: nat, f: nat, calls: set<CallId>)
    requires i <= f < |run.labels|
  {
    var s, now := run.worlds[f].store, run.worlds[f].w.now;
    && (forall c | c in calls :: NotPast(run.worlds[i].store, c))
    && (forall c | c in calls && !ServedWithin(run, i, f, c) :: exists id :: HasDue(s, now, c, id))
    && (forall id | id in s.rows && Due(s.streams, s.rows[id], now) && s.rows[id].ev.Ordered() ::
          s.rows[id].ev.Cid() in calls)
  }

  function CallsOf(batch: seq<Row>): set<CallId> {
    set k | 0 <= k < |batch| && batch[k].ev.Ordered() :: batch[k].ev.Cid()
  }

  /** How many records of the batch belong to no call. */
  function Ungrouped(batch: seq<Row>): (n: nat)
    ensures n <= |batch|
  {
    if batch == [] then 0
    else Ungrouped(batch[..|batch| - 1]) + if batch[|batch| - 1].ev.Ordered() then 0 else 1
  }

  lemma RoundServes(run: Run, i: nat, r: Round, calls: set<CallId>)
    requires i <= r.fetch < |run.labels| && IsRound(run, r) && Competing(run, i, r.fetch, calls)
    ensures CallsOf(run.labels[r.fetch].batch) <= ServedOf(run, i, r.end, calls)
  {
    var batch, s := run.labels[r.fetch].batch, run.worlds[r.fetch].store;
    assert StepAt(run, r.fetch);
    forall k | 0 <= k < |batch| && batch[k].ev.Ordered()
      ensures batch[k].ev.Cid() in ServedOf(run, i, r.end, calls)
    {
      assert Stored(s, batch[k]) && Due(s.streams, batch[k], run.worlds[r.fetch].w.now);
      EachWasMarked(run, r.fetch, r.end, |batch|, k);
      var m :| r.fetch + 1 <= m < r.end && MarksAt(run, m, batch[k]);
      assert ServesAt(run, m, batch[k].ev.Cid());
    }
  }

  /** A call left out of the batch while unserved means the batch is full, and its calls unserved. */
  lemma LeftOut(run: Run, i: nat, f: nat, calls: set<CallId>, c: CallId)
    requires i <= f < |run.labels| && run.labels[f].Fetch? && Competing(run, i, f, calls)
    requires c in calls && !ServedWithin(run, i, f, c) && c !in CallsOf(run.labels[f].batch)
    ensures |run.labels[f].batch| == BATCH
    ensures CallsOf(run.labels[f].batch) !! ServedOf(run, i, f, calls)
  {
    var batch, s, now := run.labels[f].batch, run.worlds[f].store, run.worlds[f].w.now;
    assert StepAt(run, f);
    var id :| HasDue(s, now, c, id);
    assert s.rows[id] !in batch;
    OrderedHasStream(run, f, id);
    UnservedStaysLow(run, i, f, c);
    forall k | 0 <= k < |batch| && batch[k].ev.Ordered()
      ensures batch[k].ev.Cid() !in ServedOf(run, i, f, calls)
    {
      var d := batch[k].ev.Cid();
      assert Stored(s, batch[k]) && Before(s.streams, batch[k], s.rows[id]);
      OrderedHasStream(run, f, batch[k].ev.id);
      if ServedWithin(run, i, f, d) { ServedStaysHigh(run, i, f, d); }
    }
  }

  lemma OneMoreCall(batch: seq<Row>, r: Row)
    requires r.ev.Ordered() ==> r.ev.Cid() !in CallsOf(batch)
    ensures |CallsOf(batch + [r])| == |CallsOf(batch)| + if r.ev.Ordered() then 1 else 0
  {
    var all := batch + [r];
    assert all[|batch|] == r && forall k | 0 <= k < |batch| :: all[k] == batch[k];
    if r.ev.Ordered() {
      assert CallsOf(all) == CallsOf(batch) + {r.ev.Cid()};
    } else {
      assert CallsOf(all) == CallsOf(batch);
    }
  }

  lemma {:induction false} DistinctCalls(batch: seq<Row>)
    requires forall k, j | 0 <= k < j < |batch| && batch[k].ev.Ordered() && batch[j].ev.Ordered() ::
               batch[k].ev.Cid() != batch[j].ev.Cid()
    ensures |CallsOf(batch)| + Ungrouped(batch) == |batch|
  {
    if batch != [] {
      var n := |batch| - 1;
      DistinctCalls(batch[..n]);
      OneMoreCall(batch[..n], batch[n]);
      assert batch == batch[..n] + [batch[n]];
    }
  }

  lemma BatchHasDistinctCalls(run: Run, f: nat)
    requires f < |run.labels| && run.labels[f].Fetch?
    ensures |CallsOf(run.labels[f].batch)| + Ungrouped(run.labels[f].batch) == |run.labels[f].batch|
  {
    var batch, s := run.labels[f].batch, run.worlds[f].store;
    StoreHolds(run, f);
    assert StepAt(run, f);
    forall k, j | 0 <= k < j < |batch| && batch[k].ev.Ordered() && batch[j].ev.Ordered()
      ensures batch[k].ev.Cid() != batch[j].ev.Cid()
    {
      FetchOnePerCall(s, run.worlds[f].w.now, BATCH, batch, k, j);
    }
    DistinctCalls(batch);
  }

  lemma ServedGrows(run: Run, i: nat, j: nat, k: nat, calls: set<CallId>)
    requires i <= j <= k <= |run.labels|
    ensures ServedOf(run, i, j, calls) <= ServedOf(run, i, k, calls)
  {
    forall c | c in ServedOf(run, i, j, calls) ensures ServedWithin(run, i, k, c) {
      var m :| i <= m < j && ServesAt(run, m, c);
    }
  }

  /** The places of a batch that are left to calls. */
  function Places(batch: seq<Row>): int { BATCH - Ungrouped(batch) }

  /** One round serves every call still unserved, or fills every place left to calls with one. */
  lemma RoundAdvances(run: Run, i: nat, r: Round, calls: set<CallId>)
    requires i <= r.fetch < |run.labels| && IsRound(run, r) && Competing(run, i, r.fetch, calls)
    ensures ServedOf(run, i, r.end, calls) == calls
            || |ServedOf(run, i, r.fetch, calls)| + Places(run.labels[r.fetch].batch)
               <= |ServedOf(run, i, r.end, calls)|
  {
    var batch := run.labels[r.fetch].batch;
    var was, now := ServedOf(run, i, r.fetch, calls), ServedOf(run, i, r.end, calls);
    RoundServes(run, i, r, calls);
    ServedGrows(run, i, r.fetch, r.end, calls);
    if now != calls {
      var c :| c in calls && c !in now;
      assert c !in was;
      LeftOut(run, i, r.fetch, calls, c);
      BatchHasDistinctCalls(run, r.fetch);
      Disjointly(was, CallsOf(batch), now);
    }
  }

  /** A round that leaves a competing call unserved serves no call that was served already. */
  lemma NobodyTwice(run: Run, i: nat, r: Round, calls: set<CallId>)
    requires i <= r.fetch < |run.labels| && IsRound(run, r) && Competing(run, i, r.fetch, calls)
    requires ServedOf(run, i, r.end, calls) != calls
    ensures CallsOf(run.labels[r.fetch].batch) !! ServedOf(run, i, r.fetch, calls)
  {
    RoundServes(run, i, r, calls);
    ServedGrows(run, i, r.fetch, r.end, calls);
    var c :| c in calls && c !in ServedOf(run, i, r.end, calls);
    assert c !in ServedOf(run, i, r.fetch, calls);
    LeftOut(run, i, r.fetch, calls, c);
  }

  lemma Disjointly(a: set<CallId>, b: set<CallId>, all: set<CallId>)
    requires a !! b && a <= all && b <= all
    ensures |a| + |b| <= |all|
  {
    assert |a + b| == |a| + |b|;
    Within(a + b, all);
  }

  ghost predicate Rounds(run: Run, i: nat, rounds: seq<Round>, calls: set<CallId>) {
    && (forall k | 0 <= k < |rounds| ::
          i <= rounds[k].fetch < |run.labels| && IsRound(run, rounds[k]) && Competing(run, i, rounds[k].fetch, calls))
    && (forall k | 0 < k < |rounds| :: rounds[k - 1].end <= rounds[k].fetch)
  }

  function EndOf(i: nat, rounds: seq<Round>): nat {
    if rounds == [] then i else rounds[|rounds| - 1].end
  }

  /** The places all rounds together leave to calls. */
  ghost function AllPlaces(run: Run, rounds: seq<Round>): int
    requires forall k | 0 <= k < |rounds| :: rounds[k].fetch < |run.labels| && run.labels[rounds[k].fetch].Fetch?
  {
    if rounds == [] then 0
    else
      var n := |rounds| - 1;
      AllPlaces(run, rounds[..n]) + Places(run.labels[rounds[n].fetch].batch)
  }

  /** One more round adds its places to what was served, or serves all. */
  lemma RoundAdds(run: Run, i: nat, before: nat, r: Round, calls: set<CallId>, places: int)
    requires i <= before <= r.fetch < |run.labels| && IsRound(run, r) && Competing(run, i, r.fetch, calls)
    requires ServedOf(run, i, before, calls) == calls || places <= |ServedOf(run, i, before, calls)|
    ensures ServedOf(run, i, r.end, calls) == calls
            || places + Places(run.labels[r.fetch].batch) <= |ServedOf(run, i, r.end, calls)|
  {
    ServedGrows(run, i, before, r.fetch, calls);
    ServedGrows(run, i, r.fetch, r.end, calls);
    Within(ServedOf(run, i, before, calls), ServedOf(run, i, r.fetch, calls));
    RoundAdvances(run, i, r, calls);
  }

  lemma FewerRounds(run: Run, i: nat, rounds: seq<Round>, calls: set<CallId>)
    requires Rounds(run, i, rounds, calls) && rounds != []
    ensures var n := |rounds| - 1;
            Rounds(run, i, rounds[..n], calls) && EndOf(i, rounds[..n]) <= rounds[n].fetch
  {
  }

  /** Main result.  While a fixed set of n calls competes, without newcomers, whole rounds serve at least
      as many of them as they have places for calls, or all: with no event outside calls fetched,
      every call once n/32 rounds, rounded up, are done. */
  lemma {:induction false} RoundsServeAll(run: Run, i: nat, rounds: seq<Round>, calls: set<CallId>)
    requires i <= |run.labels| && Rounds(run, i, rounds, calls)
    ensures i <= EndOf(i, rounds) <= |run.labels|
    ensures var served := ServedOf(run, i, EndOf(i, rounds), calls);
            served == calls || AllPlaces(run, rounds) <= |served|
  {
    if rounds != [] {
      var n := |rounds| - 1;
      FewerRounds(run, i, rounds, calls);
      RoundsServeAll(run, i, rounds[..n], calls);
      RoundAdds(run, i, EndOf(i, rounds[..n]), rounds[n], calls, AllPlaces(run, rounds[..n]));
    }
  }

  /** So they serve every call once they have had a place for each. */
  lemma {:induction false} EnoughPlacesServeAll(run: Run, i: nat, rounds: seq<Round>, calls: set<CallId>)
    requires i <= |run.labels| && Rounds(run, i, rounds, calls) && |calls| <= AllPlaces(run, rounds)
    ensures i <= EndOf(i, rounds) <= |run.labels| && ServedOf(run, i, EndOf(i, rounds), calls) == calls
  {
    RoundsServeAll(run, i, rounds, calls);
    Within(ServedOf(run, i, EndOf(i, rounds), calls), calls);
  }

  /** Without events outside calls, m rounds have 32 m places. */
  lemma {:induction false} AllPlacesAreOpen(run: Run, rounds: seq<Round>)
    requires forall k | 0 <= k < |rounds| :: rounds[k].fetch < |run.labels| && run.labels[rounds[k].fetch].Fetch?
    requires forall k | 0 <= k < |rounds| :: Ungrouped(run.labels[rounds[k].fetch].batch) == 0
    ensures AllPlaces(run, rounds) == 32 * |rounds|
  {
    if rounds != [] { AllPlacesAreOpen(run, rounds[..|rounds| - 1]); }
  }

  // ---------------------------------------------------------------- starvation

  ghost function DueUngrouped(s: Store, now: int): set<EventId> {
    set id | id in s.rows && Due(s.streams, s.rows[id], now) && !s.rows[id].ev.Ordered()
  }

  lemma UngroupedFirst(s: Store, now: int, out: seq<Row>, i: nat, id: EventId)
    requires (forall c | c in s.streams :: StreamOk(s, c)) && IsFetch(s, now, BATCH, out)
    requires i < |out| && 0 < Served(s.streams, out[i]) && id in DueUngrouped(s, now)
    ensures exists k :: 0 <= k < i && out[k] == s.rows[id]
  {
    assert s.rows[id].ev.Cid() !in s.streams;
    EarlierInBatch(s, now, BATCH, out, i, id);
  }

  lemma AllUngrouped(s: Store, now: int, out: seq<Row>)
    requires StoreInv(s) && IsFetch(s, now, BATCH, out)
    requires forall k | 0 <= k < |out| :: !out[k].ev.Ordered()
    ensures |out| <= |DueUngrouped(s, now)|
  {
    forall k, j | 0 <= k < j < |out| ensures out[k].ev.id != out[j].ev.id {
      FetchOnePerCall(s, now, BATCH, out, k, j);
    }
    IdsCount(out, |out|);
    forall k | 0 <= k < |out| ensures out[k].ev.id in DueUngrouped(s, now) { assert Stored(s, out[k]); }
    Within(IdsOfFirst(out, |out|), DueUngrouped(s, now));
  }

  lemma FewUngrouped(s: Store, now: int, out: seq<Row>, k: nat)
    requires StoreInv(s) && IsFetch(s, now, BATCH, out) && k < |out| && 0 < Served(s.streams, out[k])
    ensures |DueUngrouped(s, now)| < BATCH
  {
    forall id | id in DueUngrouped(s, now) ensures id in IdsOfFirst(out, k) {
      UngroupedFirst(s, now, out, k, id);
      var j :| 0 <= j < k && out[j] == s.rows[id];
      assert out[j].ev.id == id;
    }
    IdsCount(out, k);
    Within(DueUngrouped(s, now), IdsOfFirst(out, k));
  }

  /** Main result.  Events outside calls rank as never served, whatever was sent of them.  Once every
      due call has been served, a fetch starves them all exactly if at least a whole batch of
      events outside calls is due. */
  lemma CallsStarve(s: Store, now: int, out: seq<Row>, waiting: EventId)
    requires StoreInv(s) && IsFetch(s, now, BATCH, out)
    requires waiting in s.rows && Due(s.streams, s.rows[waiting], now) && s.rows[waiting].ev.Ordered()
    requires forall id | id in s.rows && Due(s.streams, s.rows[id], now) && s.rows[id].ev.Ordered() ::
               0 < Served(s.streams, s.rows[id])
    ensures CallsOf(out) == {} <==> |DueUngrouped(s, now)| >= BATCH
  {
    if k :| 0 <= k < |out| && out[k].ev.Ordered() {
      assert out[k].ev.Cid() in CallsOf(out);
      assert Stored(s, out[k]) && Due(s.streams, out[k], now);
      FewUngrouped(s, now, out, k);
    } else {
      assert s.rows[waiting] !in out;
      AllUngrouped(s, now, out);
    }
  }
}

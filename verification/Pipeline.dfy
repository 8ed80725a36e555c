/** The pipeline object over its outbox.  Each method runs its statements and shows, by extending the
    run it keeps as a ghost, which protocol steps they were: everything proved of runs holds of it.

    Between two of these steps other threads may take theirs; that is the state machine's business.
    The methods show that the code of one thread, undisturbed, takes no step the machine does not have. */
module PipelineDriver {
  import opened OutboxModel
  import opened OutboxInvariant
  import opened OutboxFetch
  import opened OutboxUpgrade
  import opened OutboxDatabase
  import opened PipelineProtocol
  import opened PipelineHistory
  import opened PipelineSafety
  import opened OutboxEffects
  import opened PipelineEffects

  // ---------------------------------------------------------------- errors and backoff

  datatype KafkaError =
    | TopicAuthorizationFailed | ClusterAuthorizationFailed | InvalidMsg | MsgSizeTooLarge
    | InvalidRecord | FatalError | OtherError

  predicate IsPermanent(e: KafkaError) {
    match e
    case TopicAuthorizationFailed => true
    case ClusterAuthorizationFailed => true
    case InvalidMsg => true
    case MsgSizeTooLarge => true
    case InvalidRecord => true
    case FatalError => false
    case OtherError => false
  }

  /** The remainder of a division that truncates toward zero. */
  function Rem(x: int, m: int): int
    requires m > 0
  {
    if x >= 0 then x % m else -((-x) % m)
  }

  function Doubled(times: nat): int { if times == 0 then 200 else 2 * Doubled(times - 1) }

  function Doublings(attempts: int): nat { if attempts <= 1 then 0 else if attempts >= 8 then 7 else attempts - 1 }

  function Backoff(attempts: int, wall: int): int { Doubled(Doublings(attempts)) + Rem(wall, 97) }

  /** A retry is at least 200 ms away, and less than 25.7 s, for clocks past the epoch. */
  lemma BackoffBounds(attempts: int, wall: int)
    ensures 0 <= wall ==> 200 <= Backoff(attempts, wall) < 25_700
  {
    assert Doubled(1) == 400 && Doubled(2) == 800 && Doubled(3) == 1600 && Doubled(4) == 3200;
    assert Doubled(5) == 6400 && Doubled(6) == 12800 && Doubled(7) == 25600;
  }

  /** Each failed attempt doubles the wait, from 200 ms for the first to 25.6 s for the eighth and later ones;
      the clock adds up to 96 ms. */
  lemma BackoffDoubles(attempts: int, wall: int)
    ensures attempts <= 1 ==> Backoff(attempts, 0) == 200
    ensures 1 <= attempts < 8 ==> Backoff(attempts + 1, 0) == 2 * Backoff(attempts, 0)
    ensures attempts >= 8 ==> Backoff(attempts, 0) == 25_600
    ensures Backoff(attempts, wall) == Backoff(attempts, 0) + if wall < 0 then -(-wall % 97) else wall % 97
  {
    BackoffBounds(8, 0);
    assert Doubled(7) == 25_600 by {
      assert Doubled(1) == 400 && Doubled(2) == 800 && Doubled(3) == 1600 && Doubled(4) == 3200;
      assert Doubled(5) == 6400 && Doubled(6) == 12800;
    }
  }

  method AttemptBackoff(attempts: int, wall: int) returns (ms: int)
    ensures ms == Backoff(attempts, wall)
  {
    var base, i := 200, 1;
    ghost var done: nat := 0;
    while i < attempts && i < 8
      invariant done == i - 1 && 1 <= i <= 8 && (i <= attempts || i == 1)
      invariant base == Doubled(done)
    {
      base := base * 2;
      i, done := i + 1, done + 1;
    }
    BackoffBounds(attempts, 0);
    if base > 30000 { base := 30000; }
    ms := base + Rem(wall, 97);
  }

  /** An error as the client reports it: its class and its text. */
  datatype ClientError = ClientError(kind: KafkaError, text: string)

  /** What one failed hand-over or delivery report does, given the row's attempts and the clock. */
  function FailureOf(s: Store, id: EventId, e: ClientError, wall: int): Failure {
    Failure(e.kind == FatalError, IsPermanent(e.kind), e.text,
            wall + Backoff(if id in s.rows then s.rows[id].attempts else 0, wall), wall)
  }

  // ---------------------------------------------------------------- the run so far

  ghost function Started(run: Run, next: int, wall: int, producerMade: bool): (more: Run)
    requires !Last(run).w.up
    ensures more.cfg == run.cfg && more.labels == run.labels + [Start(next, wall, producerMade)]
    ensures Last(more).store == Requeue(Last(run).store, next, wall)
    ensures Last(more).w == if producerMade then JUST_STARTED else DOWN
    ensures OutboxUpgrade.Open(Saved(Last(more).store)) == Opened(Last(more).store)
  {
    var more := Extend(run, Start(next, wall, producerMade));
    LastHolds(more);
    more
  }

  /** The pipeline passes the request on to the outbox. */
  predicate Offered(cfg: Config, w: Worker, a: Request) {
    w.accepting && -1 <= a.seqNo && !(cfg.requireSource && a.Ordered() && a.seqNo < 0)
  }

  ghost function Offer(run: Run, a: Request): (more: Run)
    requires Offered(run.cfg, Last(run).w, a) && a.topic == run.cfg.topic && a.created != 0 && a.nextAttempt == 0
    requires a.id !in Last(run).h.admitted && a.id !in Last(run).h.rejected
    ensures more.cfg == run.cfg && more.labels == run.labels + [Enqueue(a, true)]
    ensures Last(more).w == Last(run).w
    ensures match Insert(Last(run).store, a, a.created, run.cfg.limits)
            case Admitted(t, ev) =>
              Last(more).store == t && a.id in Last(more).h.admitted && Last(more).h.admitted[a.id] == ev
            case Refused(_) => Last(more).store == Last(run).store && a.id !in Last(more).h.admitted
  {
    Extend(run, Enqueue(a, true))
  }

  ghost function Rebuilt(run: Run, next: int, wall: int, producerMade: bool): (more: Run)
    requires Last(run).w.up && Last(run).w.running && Last(run).w.stage == AtTop && Last(run).w.rebuild
    ensures more.cfg == run.cfg && more.labels == run.labels + [Rebuild(next, wall, producerMade)]
    ensures Last(more).store == Requeue(Last(run).store, next, wall)
    ensures Last(more).w == if producerMade then Last(run).w.(rebuild := false, outstanding := {}) else DOWN
  {
    Extend(run, Rebuild(next, wall, producerMade))
  }

  ghost function Stopped(run: Run): (more: Run)
    ensures more.cfg == run.cfg && more.labels == run.labels + [Crash]
    ensures Last(more).store == Last(run).store && Last(more).w == DOWN
    ensures OutboxUpgrade.Open(Saved(Last(more).store)) == Opened(Last(more).store)
  {
    var more := Extend(run, Crash);
    LastHolds(more);
    more
  }

  lemma LastHolds(run: Run)
    ensures StoreInv(Last(run).store) && (!Last(run).w.up ==> Last(run).w == DOWN)
    ensures Last(run).w.stage != Sending ==> Last(run).w.batch == [] && Last(run).w.marked == None
    ensures OutboxUpgrade.Open(Saved(Last(run).store)) == Opened(Last(run).store)
  {
    RunKeeps(run, |run.worlds| - 1);
    SoundStoreReopens(Last(run).store);
  }

  // ---------------------------------------------------------------- sending a batch

  type Producer = Event -> Option<ClientError>

  ghost predicate Texts(produce: Producer) {
    forall ev :: produce(ev).Some? ==> BrokerText(produce(ev).value.text)
  }

  /** A mark leaves the worker holding the record, or stopped with the batch dropped. */
  ghost function Marked(run: Run, wall: int): (more: Run)
    requires Enabled(run.cfg, Last(run), Mark(wall))
    ensures more.cfg == run.cfg && more.labels == run.labels + [Mark(wall)]
    ensures var w, v := Last(run).w, Last(more).w;
            && v.up && v.stage == w.stage && |v.batch| < |w.batch|
            && (v.marked == None || (v.marked == Some(w.batch[0]) && v.batch == w.batch[1..]))
            && (v.marked == None ==> !v.running)
  {
    Extend(run, Mark(wall))
  }

  lemma MarkedIs(run: Run, wall: int)
    requires Enabled(run.cfg, Last(run), Mark(wall))
    ensures var s, t := Last(run), Last(Marked(run, wall));
            match MarkInFlight(s.store, s.w.batch[0].ev.id, wall)
            case Some(u) => t.store == u && t.w == s.w.(marked := Some(s.w.batch[0]), batch := s.w.batch[1..])
            case None => t.store == s.store && t.w == Halt(s.w)
  {
  }

  predicate Finds(s: Store, id: EventId) { id in s.rows && s.rows[id].state == InFlight }

  /** The store once the failure is settled; as it was, if there is no row to settle. */
  function AfterFailure(cfg: Config, s: Store, id: EventId, f: Failure): (t: Store)
    ensures var r := Settle(s, id, cfg.maxAttempts, f.permanent, f.error, f.next, f.wall);
            (r.Some? <==> Finds(s, id)) && t == if r.Some? then r.value.0 else s
  {
    match Settle(s, id, cfg.maxAttempts, f.permanent, f.error, f.next, f.wall)
    case Some(r) => r.0
    case None => s
  }

  /** A refused hand-over or a failed report settles the row it was about. */
  ghost predicate SettledAs(cfg: Config, s: World, w: Worker, id: EventId, f: Failure, t: World) {
    var v := w.(rebuild := w.rebuild || f.fatal);
    t.store == AfterFailure(cfg, s.store, id, f) && t.w == if Finds(s.store, id) then v else Halt(v)
  }

  predicate Answerable(answer: Option<ClientError>) { answer.Some? ==> BrokerText(answer.value.text) }

  /** The record held is handed to the producer. */
  ghost function HandedOver(run: Run): (more: Run)
    requires Last(run).w.up && Last(run).w.marked.Some?
    ensures more.cfg == run.cfg && more.labels == run.labels + [HandOver]
    ensures Last(more).store == Last(run).store
    ensures var w := Last(run).w;
            Last(more).w == w.(marked := None, outstanding := w.outstanding + {w.marked.value.ev.id})
  {
    Extend(run, HandOver)
  }

  /** The producer refuses the record held, and the refusal is settled. */
  ghost function TurnedDown(run: Run, e: ClientError, wall: int): (more: Run)
    requires Last(run).w.up && Last(run).w.marked.Some? && BrokerText(e.text)
    ensures more.cfg == run.cfg
    ensures var s, t := Last(run), Last(more);
            var id := s.w.marked.value.ev.id;
            var f := FailureOf(s.store, id, e, wall);
            more.labels == run.labels + [HandOverFailed(f)] && SettledAs(run.cfg, s, s.w.(marked := None), id, f, t)
  {
    Extend(run, HandOverFailed(FailureOf(Last(run).store, Last(run).w.marked.value.ev.id, e, wall)))
  }

  ghost function Resolved(run: Run, answer: Option<ClientError>, wall: int): (more: Run)
    requires Last(run).w.up && Last(run).w.marked.Some? && Answerable(answer)
    ensures more.cfg == run.cfg
    ensures var w, v := Last(run).w, Last(more).w;
            v.up && v.stage == w.stage && v.marked == None && |v.batch| <= |w.batch|
            && (v.running ==> v.batch == w.batch)
  {
    match answer case None => HandedOver(run) case Some(e) => TurnedDown(run, e, wall)
  }

  /** What the environment promises of a delivery report. */
  ghost predicate Reportable(s: World, id: EventId, error: Option<ClientError>) {
    && s.w.up && id in s.w.outstanding && Answerable(error)
    && (error == None ==> id in s.h.admitted && InLogs(s.h.logs, s.h.admitted[id]))
  }

  /** A delivery report about a message of the current producer. */
  ghost function Reported(run: Run, id: EventId, error: Option<ClientError>, wall: int): (more: Run)
    requires Reportable(Last(run), id, error)
    ensures more.cfg == run.cfg
    ensures more.labels == run.labels + [match error
                                         case None => Delivered(id, wall)
                                         case Some(e) => SendFailed(id, FailureOf(Last(run).store, id, e, wall))]
  {
    match error
    case None => Extend(run, Delivered(id, wall))
    case Some(e) => Extend(run, SendFailed(id, FailureOf(Last(run).store, id, e, wall)))
  }

  datatype Report = Report(id: EventId, error: Option<ClientError>, wall: int)

  /** The reports may come one after the other. */
  ghost predicate Pollable(run: Run, reports: seq<Report>)
    decreases |reports|
  {
    reports == []
    || (Reportable(Last(run), reports[0].id, reports[0].error)
        && Pollable(Reported(run, reports[0].id, reports[0].error, reports[0].wall), reports[1..]))
  }

  ghost function Polled(run: Run, reports: seq<Report>): Run
    requires Pollable(run, reports)
    decreases |reports|
  {
    if reports == [] then run
    else Polled(Reported(run, reports[0].id, reports[0].error, reports[0].wall), reports[1..])
  }

  lemma DeliveredIs(run: Run, id: EventId, wall: int)
    requires Reportable(Last(run), id, None)
    ensures var s, t := Last(run), Last(Reported(run, id, None, wall));
            var w := s.w.(outstanding := s.w.outstanding - {id});
            match MarkAcked(s.store, id, wall)
            case Some(u) => t.store == u && t.w == w
            case None => t.store == s.store && t.w == Halt(w)
  {
  }

  lemma SendFailedIs(run: Run, id: EventId, e: ClientError, wall: int)
    requires Reportable(Last(run), id, Some(e))
    ensures var s, t := Last(run), Last(Reported(run, id, Some(e), wall));
            SettledAs(run.cfg, s, s.w.(outstanding := s.w.outstanding - {id}), id, FailureOf(s.store, id, e, wall), t)
  {
  }

  /** Expires what is overdue and takes the next batch. */
  ghost function Fetched(run: Run, now: int, due: seq<Row>): (more: Run)
    requires Last(run).w.up && Last(run).w.running && Last(run).w.stage == AtTop
    requires IsFetch(Expire(Last(run).store, now, run.cfg.ttl), now, BATCH, due)
    ensures more.cfg == run.cfg && more.labels == run.labels + [Scan(now), Label.Fetch(due)]
    ensures Last(more).store == Expire(Last(run).store, now, run.cfg.ttl)
    ensures Last(more).w == Last(run).w.(stage := Sending, now := now, batch := due)
  {
    Extend(Extend(run, Scan(now)), Label.Fetch(due))
  }

  /** The errors no retry can mend. */
  lemma PermanentErrorsAre(kind: KafkaError)
    ensures IsPermanent(kind) <==>
              kind in {TopicAuthorizationFailed, ClusterAuthorizationFailed, InvalidMsg, MsgSizeTooLarge, InvalidRecord}
  {
  }

  lemma FailureOfIs(s: Store, id: EventId, e: ClientError, wall: int)
    requires id in s.rows
    ensures FailureOf(s, id, e, wall)
            == Failure(e.kind == FatalError, IsPermanent(e.kind), e.text,
                       wall + Backoff(s.rows[id].attempts, wall), wall)
  {
  }

  /** Main result.  A failed report kills its row if and only if the error is one that no retry can mend, or
      the row's attempts have reached the maximum; else the row waits as long as its attempts ask.  A fatal
      error, and no other, asks for a rebuild. */
  lemma ReportedFailureDoes(run: Run, id: EventId, e: ClientError, wall: int)
    requires Reportable(Last(run), id, Some(e))
    ensures var s, t := Last(run), Last(Reported(run, id, Some(e), wall));
            && id in s.store.rows && s.store.rows[id].state == InFlight && id in t.store.rows
            && var r := s.store.rows[id];
               && t.store.rows[id]
                  == SettledRow(r, IsPermanent(e.kind) || r.attempts >= run.cfg.maxAttempts, e.text,
                                wall + Backoff(r.attempts, wall), wall)
               && (t.w.rebuild <==> s.w.rebuild || e.kind == FatalError)
  {
    var more := Reported(run, id, Some(e), wall);
    LastStep(run, id, e, wall);
    FailuresSettle(more, |run.labels|);
    FailureOfIs(Last(run).store, id, e, wall);
  }

  lemma LastStep(run: Run, id: EventId, e: ClientError, wall: int)
    requires Reportable(Last(run), id, Some(e))
    ensures var more := Reported(run, id, Some(e), wall);
            && more.labels == run.labels + [SendFailed(id, FailureOf(Last(run).store, id, e, wall))]
            && more.worlds[|run.labels|] == Last(run) && more.worlds[|run.labels| + 1] == Last(more)
  {
  }

  ghost predicate MaySend(run: Run, produce: Producer) {
    Texts(produce) && Last(run).w.up && Last(run).w.stage == Sending && Last(run).w.marked == None
  }

  /** The batch goes on: something is left of it, and neither a stop nor a rebuild is asked for. */
  predicate GoesOn(w: Worker) { w.batch != [] && w.running && !w.rebuild }

  /** Marks the next record of the batch and hands it over, or settles the refusal. */
  ghost function SentNext(run: Run, produce: Producer, clock: Row -> int): (more: Run)
    requires MaySend(run, produce) && GoesOn(Last(run).w)
    ensures more.cfg == run.cfg && MaySend(more, produce) && |Last(more).w.batch| < |Last(run).w.batch|
    ensures Last(more).w.running ==> Last(more).w.batch == Last(run).w.batch[1..]
  {
    var r := Last(run).w.batch[0];
    var marked := Marked(run, clock(r));
    if Last(marked).w.marked == None then marked else Resolved(marked, produce(r.ev), clock(r))
  }

  /** The worker is back at the top of its loop. */
  ghost function Ended(run: Run): (more: Run)
    requires Last(run).w.up && Last(run).w.stage == Sending && Last(run).w.marked == None && !GoesOn(Last(run).w)
    ensures more.cfg == run.cfg && more.labels == run.labels + [EndBatch]
    ensures Last(more).store == Last(run).store && Last(more).w == Last(run).w.(stage := AtTop, batch := [])
  {
    Extend(run, EndBatch)
  }

  /** The run once the batch is dealt with: records are sent in turn until a stop or a rebuild request. */
  ghost function SentAll(run: Run, produce: Producer, clock: Row -> int): (more: Run)
    requires MaySend(run, produce)
    ensures more.cfg == run.cfg && Last(more).w.up && Last(more).w.stage == AtTop
    decreases |Last(run).w.batch|
  {
    if !GoesOn(Last(run).w) then Ended(run)
    else SentAll(SentNext(run, produce, clock), produce, clock)
  }

  // ---------------------------------------------------------------- the object

  /** The object's flags, and whether its database is open, as the run has them. */
  predicate Tied(w: Worker, running: bool, accepting: bool, rebuild: bool, joinable: bool, isOpen: bool) {
    && running == w.running && accepting == w.accepting
    && (if w.up then isOpen && rebuild == w.rebuild else w == DOWN)
    && (isOpen ==> joinable)
  }

  class KafkaPipeline {
    const cfg: Config
    const outbox: Outbox
    var running: bool
    var accepting: bool
    var rebuildRequested: bool
    var joinable: bool
    ghost var run: Run

    /** The database holds the run's store: as it is, or as the next opening will find it. */
    ghost predicate StoreTied()
      reads this, outbox
    {
      if outbox.isOpen then
        outbox.Db() == Last(run).store && outbox.version == SCHEMA && outbox.sequenced && outbox.hasScheduler
      else
        OutboxUpgrade.Open(outbox.File()) == Opened(Last(run).store)
    }

    ghost predicate Valid()
      reads this, outbox
    {
      && outbox.Valid() && outbox.limits == cfg.limits && run.cfg == cfg
      && Tied(Last(run).w, running, accepting, rebuildRequested, joinable, outbox.isOpen)
      && StoreTied()
    }

    /** A pipeline over a file as some earlier run, or an initial world, left it. */
    constructor (cfg: Config, outbox: Outbox, ghost past: Run)
      requires outbox.Valid() && !outbox.isOpen && outbox.limits == cfg.limits && past.cfg == cfg
      requires Last(past).w == DOWN && OutboxUpgrade.Open(outbox.File()) == Opened(Last(past).store)
      ensures Valid() && run == past && this.outbox == outbox && !joinable
    {
      this.cfg, this.outbox, this.run := cfg, outbox, past;
      running, accepting, rebuildRequested, joinable := false, false, false, false;
    }

    /** Opens the database and requeues what was in flight. */
    method Reopen(next: int, wall: int)
      requires Valid() && !outbox.isOpen
      modifies outbox
      ensures outbox.Valid() && outbox.isOpen && outbox.version == SCHEMA && outbox.sequenced && outbox.hasScheduler
      ensures outbox.Db() == Requeue(Last(run).store, next, wall)
    {
      var ready, error := outbox.Open();
      var requeued := outbox.RequeueInFlight(next, wall);
    }

    /** Opens, requeues and begins; nothing is left open when the client cannot be made. */
    method Start(next: int, wall: int, producerMade: bool) returns (ok: bool)
      requires Valid()
      modifies this, outbox
      ensures Valid()
      ensures if old(joinable) || old(running) then !ok && run == old(run)
              else ok == producerMade && run == Started(old(run), next, wall, producerMade)
                   && outbox.isOpen == producerMade
    {
      if joinable || running { return false; }
      Reopen(next, wall);
      run := Started(run, next, wall, producerMade);
      if producerMade {
        running, accepting, rebuildRequested, joinable := true, true, false, true;
      } else {
        outbox.Close();
      }
      ok := producerMade;
    }

    /** Whatever the worker was doing is lost with it; the store is not. */
    method Stop()
      requires Valid()
      modifies this, outbox
      ensures Valid() && run == Stopped(old(run)) && !joinable && !running && !accepting
    {
      accepting, running := false, false;
      joinable := false;
      outbox.Close();
      run := Stopped(run);
    }

    /** The broker appends a copy of something that was handed over, now or long ago. */
    ghost method BrokerAppends(partition: int, copy: Event)
      requires Valid() && Enabled(cfg, Last(run), Append(partition, copy))
      modifies this`run
      ensures Valid() && run == Extend(old(run), Append(partition, copy))
    {
      run := Extend(run, Append(partition, copy));
    }

    method RequestRebuild()
      requires Valid() && Last(run).w.up
      modifies this`rebuildRequested, this`run
      ensures Valid() && run == Extend(old(run), Label.RequestRebuild)
    {
      rebuildRequested := true;
      run := Extend(run, Label.RequestRebuild);
    }

    /** Success means the event and its call's cursor are durable before it is returned. */
    method Enqueue(payload: string, key: string, call: string, id: EventId, seqNo: int, wall: int)
      returns (ok: bool, ordinal: int)
      requires Valid() && wall != 0
      requires id !in Last(run).h.admitted && id !in Last(run).h.rejected
      modifies this`run, outbox
      ensures Valid()
      ensures var a := Request(id, cfg.topic, key, call, seqNo, payload, wall, 0);
              if !Offered(cfg, Last(old(run)).w, a) then !ok && ordinal == -1 && run == old(run)
              else run == Offer(old(run), a) && ok == (id in Last(run).h.admitted)
                   && (!ok ==> ordinal == -1)
                   && (ok ==> ordinal == if |call| > 0 then Last(run).h.admitted[id].seqNo.value else -1)
    {
      ordinal := -1;
      if !accepting { return false, -1; }
      if seqNo < -1 || (cfg.requireSource && |call| > 0 && seqNo < 0) { return false, -1; }
      var a := Request(id, cfg.topic, key, call, seqNo, payload, wall, 0);
      var error;
      ok, ordinal, error := outbox.InsertPending(a, wall);
      run := Offer(run, a);
    }

    /** Drops the client, requeues everything it still owed a report for, and makes a new one; if
        that fails the worker stops for good. */
    method RebuildProducer(next: int, wall: int, producerMade: bool) returns (ok: bool)
      requires Valid() && rebuildRequested && running && Last(run).w.up && Last(run).w.stage == AtTop
      modifies this, outbox
      ensures Valid() && run == Rebuilt(old(run), next, wall, producerMade) && ok == producerMade
    {
      rebuildRequested := false;
      var requeued := outbox.RequeueInFlight(next, wall);
      run := Rebuilt(run, next, wall, producerMade);
      if !producerMade { accepting, running := false, false; }
      ok := producerMade;
    }

    /** One policy for refused hand-overs and failed reports, on the durable attempt count. */
    method SettleSendFailure(id: EventId, e: ClientError, wall: int) returns (ok: bool)
      requires outbox.Valid() && outbox.isOpen
      modifies outbox`rows, outbox`table, outbox`streams, outbox`turn, outbox`nextRowid
      ensures outbox.Valid()
      ensures ok == Finds(old(outbox.Db()), id)
      ensures outbox.Db() == AfterFailure(cfg, old(outbox.Db()), id, FailureOf(old(outbox.Db()), id, e, wall))
    {
      var cur := outbox.Get(id);
      var wait := AttemptBackoff(if cur.Some? then cur.value.attempts else 0, wall);
      assert FailureOf(outbox.Db(), id, e, wall)
          == Failure(e.kind == FatalError, IsPermanent(e.kind), e.text, wall + wait, wall);
      var settled := outbox.SettleSendFailure(id, cfg.maxAttempts, IsPermanent(e.kind), e.text, wall + wait, wall);
      ok := settled.Some?;
    }

    /** A failure: a fatal one asks for a rebuild, one that finds no row to settle stops the pipeline. */
    method Fail(id: EventId, e: ClientError, wall: int)
      requires outbox.Valid() && outbox.isOpen
      modifies this`running, this`accepting, this`rebuildRequested
      modifies outbox`rows, outbox`table, outbox`streams, outbox`turn, outbox`nextRowid
      ensures outbox.Valid()
      ensures rebuildRequested == (old(rebuildRequested) || e.kind == FatalError)
      ensures running == (old(running) && Finds(old(outbox.Db()), id))
      ensures accepting == (old(accepting) && Finds(old(outbox.Db()), id))
      ensures outbox.Db() == AfterFailure(cfg, old(outbox.Db()), id, FailureOf(old(outbox.Db()), id, e, wall))
    {
      if e.kind == FatalError { rebuildRequested := true; }
      var ok := SettleSendFailure(id, e, wall);
      if !ok { accepting, running := false, false; }
    }

    method OnSuccess(id: EventId, wall: int)
      requires Valid() && Reportable(Last(run), id, None)
      modifies this`run, this`running, this`accepting
      modifies outbox`rows, outbox`table, outbox`streams
      ensures Valid() && run == Reported(old(run), id, None, wall)
    {
      var ok := outbox.MarkAcked(id, wall);
      if !ok { accepting, running := false, false; }
      DeliveredIs(run, id, wall);
      run := Reported(run, id, None, wall);
    }

    method OnFailure(id: EventId, e: ClientError, wall: int)
      requires Valid() && Reportable(Last(run), id, Some(e))
      modifies this`run, this`running, this`accepting, this`rebuildRequested
      modifies outbox`rows, outbox`table, outbox`streams, outbox`turn, outbox`nextRowid
      ensures Valid() && run == Reported(old(run), id, Some(e), wall)
    {
      Fail(id, e, wall);
      SendFailedIs(run, id, e, wall);
      run := Reported(run, id, Some(e), wall);
    }

    /** The delivery callback: settles the row its message was about, or stops the pipeline. */
    method OnDelivery(id: EventId, error: Option<ClientError>, wall: int)
      requires Valid() && Reportable(Last(run), id, error)
      modifies this`run, this`running, this`accepting, this`rebuildRequested
      modifies outbox`rows, outbox`table, outbox`streams, outbox`turn, outbox`nextRowid
      ensures Valid() && run == Reported(old(run), id, error, wall)
    {
      if error.Some? { OnFailure(id, error.value, wall); } else { OnSuccess(id, wall); }
    }

    /** What the client has to report, one callback after the other. */
    method Poll(reports: seq<Report>)
      requires Valid() && Pollable(run, reports)
      modifies this`run, this`running, this`accepting, this`rebuildRequested
      modifies outbox`rows, outbox`table, outbox`streams, outbox`turn, outbox`nextRowid
      ensures Valid() && run == Polled(old(run), reports)
    {
      var i := 0;
      while i < |reports|
        invariant 0 <= i <= |reports| && Valid() && Pollable(run, reports[i..])
        invariant Polled(run, reports[i..]) == Polled(old(run), reports)
      {
        assert reports[i..][0] == reports[i] && reports[i..][1..] == reports[i + 1..];
        OnDelivery(reports[i].id, reports[i].error, reports[i].wall);
        i := i + 1;
      }
    }

    method FetchBatch(now: int) returns (due: seq<Row>)
      requires Valid() && Last(run).w.up && running && Last(run).w.stage == AtTop
      modifies this`run
      modifies outbox`rows, outbox`table, outbox`streams, outbox`turn, outbox`nextRowid
      ensures Valid()
      ensures IsFetch(Expire(Last(old(run)).store, now, cfg.ttl), now, BATCH, due)
      ensures run == Fetched(old(run), now, due)
    {
      var expired := outbox.ExpireTtl(now, cfg.ttl);
      due := outbox.FetchDue(now, BATCH);
      run := Fetched(run, now, due);
    }

    /** Marks one record, hands it over, and settles what the producer refuses. */
    method Send(rec: Row, produce: Producer, clock: Row -> int)
      requires Valid() && MaySend(run, produce) && GoesOn(Last(run).w) && rec == Last(run).w.batch[0]
      modifies this`run, this`running, this`accepting, this`rebuildRequested
      modifies outbox`rows, outbox`table, outbox`streams, outbox`turn, outbox`nextRowid
      ensures Valid() && run == SentNext(old(run), produce, clock)
    {
      var ok := MarkNext(rec, clock(rec));
      if ok { Produce(rec, produce(rec.ev), clock(rec)); }
    }

    method MarkNext(rec: Row, wall: int) returns (ok: bool)
      requires Valid() && Enabled(cfg, Last(run), Mark(wall)) && rec == Last(run).w.batch[0]
      modifies this`run, this`running, this`accepting
      modifies outbox`rows, outbox`table, outbox`streams, outbox`turn, outbox`nextRowid
      ensures Valid() && run == Marked(old(run), wall)
      ensures Last(run).w.marked == if ok then Some(rec) else None
    {
      ok := outbox.MarkInFlight(rec.ev.id, wall);
      if !ok { accepting, running := false, false; }
      MarkedIs(run, wall);
      run := Marked(run, wall);
    }

    method Produce(rec: Row, answer: Option<ClientError>, wall: int)
      requires Valid() && Last(run).w.up && Last(run).w.marked == Some(rec) && Answerable(answer)
      modifies this`run, this`running, this`accepting, this`rebuildRequested
      modifies outbox`rows, outbox`table, outbox`streams, outbox`turn, outbox`nextRowid
      ensures Valid() && run == Resolved(old(run), answer, wall)
    {
      if answer.Some? { TurnDown(rec, answer.value, wall); } else { run := HandedOver(run); }
    }

    method TurnDown(rec: Row, e: ClientError, wall: int)
      requires Valid() && Last(run).w.up && Last(run).w.marked == Some(rec) && BrokerText(e.text)
      modifies this`run, this`running, this`accepting, this`rebuildRequested
      modifies outbox`rows, outbox`table, outbox`streams, outbox`turn, outbox`nextRowid
      ensures Valid() && run == TurnedDown(old(run), e, wall)
    {
      Fail(rec.ev.id, e, wall);
      run := TurnedDown(run, e, wall);
    }

    /** The records in turn, until the pipeline stops or a rebuild is asked for. */
    method SendBatch(due: seq<Row>, produce: Producer, clock: Row -> int)
      requires Valid() && MaySend(run, produce) && due == Last(run).w.batch
      modifies this`run, this`running, this`accepting, this`rebuildRequested
      modifies outbox`rows, outbox`table, outbox`streams, outbox`turn, outbox`nextRowid
      ensures Valid() && run == SentAll(old(run), produce, clock)
    {
      var i := 0;
      while i < |due| && running && !rebuildRequested
        invariant 0 <= i <= |due| && Valid() && MaySend(run, produce)
        invariant running ==> Last(run).w.batch == due[i..]
        invariant SentAll(run, produce, clock) == SentAll(old(run), produce, clock)
      {
        Send(due[i], produce, clock);
        i := i + 1;
      }
      EndOfBatch();
    }

    ghost method EndOfBatch()
      requires Valid() && Last(run).w.up && Last(run).w.stage == Sending && Last(run).w.marked == None
      requires !GoesOn(Last(run).w)
      modifies this`run
      ensures Valid() && run == Ended(old(run))
    {
      run := Ended(run);
    }

    /** One pass of the worker's loop: rebuild if asked to, expire, fetch a batch, send it. */
    method Iterate(now: int, next: int, wall: int, producerMade: bool, produce: Producer, clock: Row -> int)
      returns (due: seq<Row>)
      requires Valid() && Texts(produce) && running && Last(run).w.up && Last(run).w.stage == AtTop
      requires Last(run).w.marked == None
      modifies this, outbox
      ensures Valid()
      ensures var rebuilt := if old(rebuildRequested) then Rebuilt(old(run), next, wall, producerMade) else old(run);
              if old(rebuildRequested) && !producerMade then run == rebuilt else
                IsFetch(Expire(Last(rebuilt).store, now, cfg.ttl), now, BATCH, due)
                && run == SentAll(Fetched(rebuilt, now, due), produce, clock)
    {
      due := [];
      if rebuildRequested {
        var ok := RebuildProducer(next, wall, producerMade);
        if !ok { return; }
      }
      due := FetchBatch(now);
      SendBatch(due, produce, clock);
    }
  }
}

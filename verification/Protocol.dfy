/** The pipeline, its broker and its crashes as one state machine over labelled steps.

  The broker is an append-only log per partition.  Any copy ever handed to any producer may be
  appended at any later time, any number of times: after a failure report, after a rebuild, after
  a crash.  What is assumed of the environment is the guard of the step it concerns:
  a success report implies the copy is in the log (`acks=all`); a handed-over copy gets at most one
  report, and none once its producer is gone; a keyed copy goes to the partition of its key; event
  ids are fresh; broker error texts are not blank and not the TTL marker. */
module PipelineProtocol {
  import opened OutboxModel
  import opened OutboxFetch
  import opened OutboxText
  import opened OutboxRetire

  datatype Config = Config(topic: string, limits: Limits, maxAttempts: int, ttl: int,
                           requireSource: bool, partition: string -> int)

  const BATCH := 32

  datatype Stage = AtTop | Scanned | Sending

  /** What dies with the process, and the history flags of the current process. */
  datatype Worker = Worker(up: bool, running: bool, accepting: bool, rebuild: bool,
                           stage: Stage, now: int, batch: seq<Row>, marked: Option<Row>,
                           outstanding: set<EventId>, guardFailed: bool, faulted: bool)

  type Logs = map<int, seq<Event>>

  /** The broker, and what happened to every event a caller ever offered. */
  datatype History = History(network: set<Event>, logs: Logs, admitted: map<EventId, Event>,
                             rejected: set<EventId>, acked: set<EventId>, reclaimed: set<EventId>)

  datatype World = World(store: Store, w: Worker, h: History)

  const DOWN := Worker(false, false, false, false, AtTop, 0, [], None, {}, false, false)
  const JUST_STARTED := DOWN.(up := true, running := true, accepting := true)

  /** What a broker or client error carries. */
  datatype Failure = Failure(fatal: bool, permanent: bool, error: string, next: int, wall: int)

  datatype Label =
    | Start(next: int, wall: int, producerMade: bool)
    | Enqueue(a: Request, stored: bool)
    | RequestRebuild
    | Rebuild(next: int, wall: int, producerMade: bool)
    | Scan(now: int)
    | Fetch(batch: seq<Row>)
    | Mark(wall: int)
    | HandOver
    | HandOverFailed(failure: Failure)
    | EndBatch
    | Delivered(id: EventId, wall: int)
    | SendFailed(id: EventId, failure: Failure)
    | Append(partition: int, copy: Event)
    | Crash
    | StorageFault(lost: set<EventId>)
    | OperatorRetry(id: EventId, next: int, wall: int)
    | OperatorRetire(c: CallId, at: int, reason: string, maxRows: int)

  function LogOf(logs: Logs, p: int): seq<Event> { if p in logs then logs[p] else [] }

  predicate InLogs(logs: Logs, ev: Event) { exists p :: p in logs && ev in logs[p] }

  predicate BrokerText(error: string) { !Blank(error) && error != EXPIRED }

  predicate Enabled(cfg: Config, s: World, l: Label) {
    match l
    case Start(_, _, _) => !s.w.up
    case Enqueue(a, _) =>
      s.w.accepting && a.topic == cfg.topic && a.created != 0 && a.nextAttempt == 0
      && -1 <= a.seqNo && !(cfg.requireSource && a.Ordered() && a.seqNo < 0)
      && a.id !in s.h.admitted && a.id !in s.h.rejected
    case RequestRebuild => s.w.up
    case Rebuild(_, _, _) => s.w.up && s.w.running && s.w.stage == AtTop && s.w.rebuild
    case Scan(_) => s.w.up && s.w.running && s.w.stage == AtTop
    case Fetch(_) => s.w.up && s.w.stage == Scanned
    case Mark(_) =>
      s.w.up && s.w.running && !s.w.rebuild && s.w.stage == Sending
      && s.w.marked == None && s.w.batch != []
    case HandOver => s.w.up && s.w.marked.Some?
    case HandOverFailed(f) => s.w.up && s.w.marked.Some? && BrokerText(f.error)
    case EndBatch =>
      s.w.up && s.w.stage == Sending && s.w.marked == None
      && (s.w.batch == [] || s.w.rebuild || !s.w.running)
    case Delivered(id, _) =>
      s.w.up && id in s.w.outstanding && id in s.h.admitted && InLogs(s.h.logs, s.h.admitted[id])
    case SendFailed(id, f) => s.w.up && id in s.w.outstanding && BrokerText(f.error)
    case Append(p, copy) =>
      copy in s.h.network && (|copy.key| > 0 ==> p == cfg.partition(copy.key))
    case Crash => true
    case StorageFault(_) => s.w.up
    case OperatorRetry(id, next, wall) => !s.w.up && RetryDead(s.store, id, next, wall).Some?
    case OperatorRetire(c, at, reason, maxRows) =>
      !s.w.up && Retire(s.store, c, at, reason, maxRows).Some?
  }

  /** A durable transition that found its guard violated stops admission and sending. */
  function Halt(w: Worker): Worker {
    w.(running := false, accepting := false, marked := None, batch := [], guardFailed := true)
  }

  /** A failed hand-over or a failed delivery report, for a row taken out of the worker's books. */
  function Failed(cfg: Config, s: World, w: Worker, id: EventId, f: Failure): World {
    var w' := w.(rebuild := w.rebuild || f.fatal);
    match Settle(s.store, id, cfg.maxAttempts, f.permanent, f.error, f.next, f.wall)
    case Some((t, _)) => s.(store := t, w := w')
    case None => s.(w := Halt(w'))
  }

  ghost function Do(cfg: Config, s: World, l: Label): World
    requires Enabled(cfg, s, l)
  {
    match l
    case Start(next, wall, made) =>
      s.(store := Requeue(s.store, next, wall), w := if made then JUST_STARTED else DOWN)
    case Enqueue(a, stored) =>
      (match Insert(s.store, a, a.created, cfg.limits)
       case Admitted(t, ev) =>
         if !stored then s.(h := s.h.(rejected := s.h.rejected + {a.id}))
         else s.(store := t,
                 h := s.h.(admitted := s.h.admitted[a.id := ev],
                           reclaimed := s.h.reclaimed + (s.store.rows.Keys - t.rows.Keys)))
       case Refused(_) => s.(h := s.h.(rejected := s.h.rejected + {a.id})))
    case RequestRebuild => s.(w := s.w.(rebuild := true))
    case Rebuild(next, wall, made) =>
      s.(store := Requeue(s.store, next, wall),
         w := if made then s.w.(rebuild := false, outstanding := {}) else DOWN)
    case Scan(now) =>
      s.(store := Expire(s.store, now, cfg.ttl), w := s.w.(stage := Scanned, now := now))
    case Fetch(batch) =>
      s.(w := s.w.(stage := Sending, batch := batch))
    case Mark(wall) =>
      (match MarkInFlight(s.store, s.w.batch[0].ev.id, wall)
       case Some(t) => s.(store := t, w := s.w.(marked := Some(s.w.batch[0]), batch := s.w.batch[1..]))
       case None => s.(w := Halt(s.w)))
    case HandOver =>
      var r := s.w.marked.value;
      s.(w := s.w.(marked := None, outstanding := s.w.outstanding + {r.ev.id}),
         h := s.h.(network := s.h.network + {r.ev}))
    case HandOverFailed(f) =>
      Failed(cfg, s, s.w.(marked := None), s.w.marked.value.ev.id, f)
    case EndBatch => s.(w := s.w.(stage := AtTop, batch := []))
    case Delivered(id, wall) =>
      var w := s.w.(outstanding := s.w.outstanding - {id});
      (match MarkAcked(s.store, id, wall)
       case Some(t) => s.(store := t, w := w, h := s.h.(acked := s.h.acked + {id}))
       case None => s.(w := Halt(w)))
    case SendFailed(id, f) =>
      Failed(cfg, s, s.w.(outstanding := s.w.outstanding - {id}), id, f)
    case Append(p, copy) =>
      s.(h := s.h.(logs := s.h.logs[p := LogOf(s.h.logs, p) + [copy]]))
    case Crash => s.(w := DOWN)
    case StorageFault(lost) =>
      s.(w := s.w.(running := false, accepting := false, marked := None, batch := [],
                   outstanding := s.w.outstanding - lost, faulted := true))
    case OperatorRetry(id, next, wall) => s.(store := RetryDead(s.store, id, next, wall).value)
    case OperatorRetire(c, at, reason, maxRows) =>
      s.(store := Retire(s.store, c, at, reason, maxRows).value)
  }

  /** A fetch hands the worker the answer of its query; every other label carries no such choice. */
  ghost predicate Answered(s: World, l: Label) {
    l.Fetch? ==> IsFetch(s.store, s.w.now, BATCH, l.batch)
  }

  ghost predicate Step(cfg: Config, s: World, l: Label, t: World) {
    Enabled(cfg, s, l) && Answered(s, l) && t == Do(cfg, s, l)
  }
}

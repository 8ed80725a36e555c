/** Evidence taken from real runs: what the run verifier says about it. */
module PipelineEvidence {
  import opened OutboxModel
  import opened OutboxInvariant
  import opened PipelineProtocol
  import opened PipelineHistory
  import opened PipelineSafety
  import opened PipelineOrdering
  import opened PipelineTtl
  import opened EvidenceContract
  import opened EvidenceVerifier

  /** A record as a consumer receives it. */
  datatype Record = Record(partition: int, ev: Event)

  function Events(records: seq<Record>): (events: seq<Event>)
    ensures |events| == |records| && forall i | 0 <= i < |records| :: events[i] == records[i].ev
  {
    if records == [] then [] else Events(records[..|records| - 1]) + [records[|records| - 1].ev]
  }

  function FromPartition(records: seq<Record>, p: int): seq<Event> {
    if records == [] then []
    else
      var before := FromPartition(records[..|records| - 1], p);
      if records[|records| - 1].partition == p then before + [records[|records| - 1].ev] else before
  }

  /** The consumer has read each partition in order, up to wherever it is. */
  ghost predicate Consumes(logs: Logs, records: seq<Record>) {
    forall p :: FromPartition(records, p) <= LogOf(logs, p)
  }

  /** The consumer has read every partition to its end. */
  ghost predicate ConsumesAll(logs: Logs, records: seq<Record>) {
    forall p :: FromPartition(records, p) == LogOf(logs, p)
  }

  // ---------------------------------------------------------------- merging keeps the order

  lemma PrefixIsClosed(log: seq<Event>, n: nat)
    requires PrefixClosed(log) && n <= |log|
    ensures PrefixClosed(log[..n])
  {
    forall j, m: int | 0 <= j < n && log[j].Ordered() && log[j].seqNo.Some? && 0 <= m < log[j].seqNo.value
      ensures Earlier(log[..n], j, log[j].Cid(), m)
    {
      assert Earlier(log, j, log[j].Cid(), m);
      var i :| 0 <= i < j && At(log[i], log[j].Cid(), m);
      assert At(log[..n][i], log[j].Cid(), m);
    }
  }

  lemma {:induction false} FromSomewhere(records: seq<Record>, p: int, k: nat)
    requires k < |FromPartition(records, p)|
    ensures exists i :: 0 <= i < |records| && records[i].ev == FromPartition(records, p)[k]
  {
    var n := |records| - 1;
    if k < |FromPartition(records[..n], p)| {
      FromSomewhere(records[..n], p, k);
      var i :| 0 <= i < n && records[..n][i].ev == FromPartition(records[..n], p)[k];
      assert records[i].ev == FromPartition(records, p)[k];
    } else {
      assert records[n].ev == FromPartition(records, p)[k];
    }
  }

  /** Any order-preserving merge of prefix-closed partition logs is prefix-closed. */
  lemma {:induction false} MergeIsClosed(records: seq<Record>)
    requires forall p :: PrefixClosed(FromPartition(records, p))
    ensures PrefixClosed(Events(records))
  {
    if records != [] {
      var n := |records| - 1;
      var x := records[n];
      forall p ensures PrefixClosed(FromPartition(records[..n], p)) {
        PrefixIsClosed(FromPartition(records, p), |FromPartition(records[..n], p)|);
        assert FromPartition(records[..n], p) == FromPartition(records, p)[..|FromPartition(records[..n], p)|];
      }
      MergeIsClosed(records[..n]);
      if x.ev.Ordered() && x.ev.seqNo.Some? {
        forall m | 0 <= m < x.ev.seqNo.value ensures Earlier(Events(records[..n]), n, x.ev.Cid(), m) {
          LastIsAfter(records, m);
        }
      }
      ClosedGrows(Events(records[..n]), x.ev);
    }
  }

  lemma {:induction false} LastIsAfter(records: seq<Record>, m: int)
    requires records != [] && PrefixClosed(FromPartition(records, records[|records| - 1].partition))
    requires var ev := records[|records| - 1].ev; ev.Ordered() && ev.seqNo.Some? && 0 <= m < ev.seqNo.value
    ensures var n := |records| - 1; Earlier(Events(records[..n]), n, records[n].ev.Cid(), m)
  {
    var n := |records| - 1;
    var x := records[n];
    var before := FromPartition(records[..n], x.partition);
    var log := FromPartition(records, x.partition);
    assert log == before + [x.ev];
    assert Earlier(log, |before|, log[|before|].Cid(), m);
    var k :| 0 <= k < |before| && At(log[k], x.ev.Cid(), m);
    FromSomewhere(records[..n], x.partition, k);
    var i :| 0 <= i < n && records[..n][i].ev == before[k];
    assert At(Events(records[..n])[i], x.ev.Cid(), m);
  }

  // ---------------------------------------------------------------- one topic

  ghost predicate OneTopic(cfg: Config, h: History) {
    forall id | id in h.admitted :: h.admitted[id].topic == cfg.topic
  }

  lemma StepKeepsTopic(cfg: Config, s: World, l: Label, t: World)
    requires Step(cfg, s, l, t) && OneTopic(cfg, s.h)
    ensures OneTopic(cfg, t.h)
  {
    if l.Enqueue? { EnqueueKeepsTopic(cfg, s, l, t); } else { OnlyEnqueueAdmits(cfg, s, l, t); }
  }

  lemma EnqueueKeepsTopic(cfg: Config, s: World, l: Label, t: World)
    requires Step(cfg, s, l, t) && l.Enqueue? && OneTopic(cfg, s.h)
    ensures OneTopic(cfg, t.h)
  {
  }

  lemma StepAtKeepsTopic(run: Run, i: nat)
    requires i < |run.labels| && OneTopic(run.cfg, run.worlds[i].h)
    ensures OneTopic(run.cfg, run.worlds[i + 1].h)
  {
    assert StepAt(run, i);
    StepKeepsTopic(run.cfg, run.worlds[i], run.labels[i], run.worlds[i + 1]);
  }

  lemma {:induction false} TopicStays(run: Run, i: nat)
    requires i < |run.worlds| && OneTopic(run.cfg, run.worlds[0].h)
    ensures OneTopic(run.cfg, run.worlds[i].h)
  {
    if i > 0 {
      TopicStays(run, i - 1);
      StepAtKeepsTopic(run, i - 1);
    }
  }

  // ---------------------------------------------------------------- evidence of a run

  /** What the driver wrote down about admitted events agrees with them: their calls, and for each
      call an order that is the order of their positions. */
  ghost predicate Truthful(h: History, events: seq<InjectedEvent>) {
    && (forall r | r in events && r.id in h.admitted :: r.call == h.admitted[r.id].call)
    && (forall a, b | a in events && b in events && a.id in h.admitted && b.id in h.admitted
                      && a.call == b.call != "" && a.sequence < b.sequence ::
          && h.admitted[a.id].seqNo.Some? && h.admitted[b.id].seqNo.Some?
          && h.admitted[a.id].seqNo.value < h.admitted[b.id].seqNo.value)
  }

  predicate IdsOf(records: seq<Record>, ids: seq<string>) {
    |ids| == |records| && forall i | 0 <= i < |records| :: ids[i] == records[i].ev.id
  }

  lemma {:induction false} ConsumedFromLog(records: seq<Record>, i: nat)
    requires i < |records|
    ensures records[i].ev in FromPartition(records, records[i].partition)
  {
    var n := |records| - 1;
    if i < n { ConsumedFromLog(records[..n], i); }
  }

  /** Whatever a consumer has seen was sent by the run. */
  lemma ConsumedWasSent(s: World, records: seq<Record>, i: nat)
    requires HistoryInv(s.store, s.h) && Consumes(s.h.logs, records) && i < |records|
    ensures var ev := records[i].ev;
            && CopyOf(s.h, ev) && records[i].partition in s.h.logs
            && ev in s.h.logs[records[i].partition]
            && (ev.Ordered() ==> ev.seqNo.Some? && 0 <= ev.seqNo.value)
  {
    var ev, p := records[i].ev, records[i].partition;
    ConsumedFromLog(records, i);
    assert FromPartition(records, p) <= LogOf(s.h.logs, p);
    assert ev in LogOf(s.h.logs, p);
    assert ev in s.h.network;
    if ev.Ordered() { OrderedIsKeyed(s.store, s.h, ev); }
  }

  lemma {:induction false} ConsumptionIsClosed(s: World, records: seq<Record>)
    requires LogsClosed(s.h) && Consumes(s.h.logs, records)
    ensures PrefixClosed(Events(records))
  {
    forall p ensures PrefixClosed(FromPartition(records, p)) {
      var log := LogOf(s.h.logs, p);
      assert PrefixClosed(log);
      PrefixIsClosed(log, |FromPartition(records, p)|);
      assert FromPartition(records, p) == log[..|FromPartition(records, p)|];
    }
    MergeIsClosed(records);
  }

  /** The first observations of two events of a call are in the order of their positions. */
  lemma FirstsFollow(s: World, records: seq<Record>, ids: seq<string>, x: EventId, i: nat, y: EventId, j: nat)
    requires HistoryInv(s.store, s.h) && LogsClosed(s.h) && Consumes(s.h.logs, records) && IdsOf(records, ids)
    requires IsFirst(ids, x, i) && IsFirst(ids, y, j) && x in s.h.admitted && y in s.h.admitted
    requires s.h.admitted[x].Ordered() && s.h.admitted[x].Cid() == s.h.admitted[y].Cid()
    requires s.h.admitted[x].seqNo.Some? && s.h.admitted[y].seqNo.Some?
    requires s.h.admitted[x].seqNo.value < s.h.admitted[y].seqNo.value
    ensures i < j
  {
    ConsumptionIsClosed(s, records);
    ConsumedWasSent(s, records, i);
    ConsumedWasSent(s, records, j);
    var c, q := s.h.admitted[x].Cid(), s.h.admitted[x].seqNo.value;
    var events := Events(records);
    assert events[j] == s.h.admitted[y] && events[i] == s.h.admitted[x];
    assert Earlier(events, j, c, q);
    var k :| 0 <= k < j && At(events[k], c, q);
    ConsumedWasSent(s, records, k);
    assert SamePosition(s.h.admitted[events[k].id], s.h.admitted[x]);
    assert ids[k] == x;
  }

  lemma NoCallInverted(cfg: Config, s: World, records: seq<Record>, e: Evidence, c: string)
    requires HistoryInv(s.store, s.h) && LogsClosed(s.h) && OneTopic(cfg, s.h)
    requires Consumes(s.h.logs, records) && IdsOf(records, e.consumed) && Truthful(s.h, e.events)
    requires c != ""
    ensures !Inverted(e.events, e.consumed, c)
  {
    forall a, b, i, j | a in e.events && b in e.events && a.call == c && b.call == c
                        && a.sequence < b.sequence && IsFirst(e.consumed, a.id, i) && IsFirst(e.consumed, b.id, j)
      ensures i < j
    {
      ConsumedWasSent(s, records, i);
      ConsumedWasSent(s, records, j);
      assert Recorded(s.store, s.h);
      FirstsFollow(s, records, e.consumed, a.id, i, b.id, j);
    }
  }

  /** Main result.  At any moment of any run with an ordered beginning, whatever the consumers have read so far, in any
      interleaving of the partitions, the order check finds nothing to report. */
  lemma NoInversionsInRuns(run: Run, i: nat, records: seq<Record>, e: Evidence)
    requires i < |run.worlds| && OneTopic(run.cfg, run.worlds[0].h) && OrderInv(run.cfg, run.worlds[0].h)
    requires Consumes(run.worlds[i].h.logs, records) && IdsOf(records, e.consumed)
    requires Truthful(run.worlds[i].h, e.events)
    ensures InvertedCalls(e) == {}
  {
    RunKeeps(run, i);
    OrderHolds(run, i);
    TopicStays(run, i);
    forall c | c != "" ensures !Inverted(e.events, e.consumed, c) {
      NoCallInverted(run.cfg, run.worlds[i], records, e, c);
    }
  }

  // ---------------------------------------------------------------- passing

  function StateName(state: RowState): string {
    match state case Pending => "pending" case InFlight => "in_flight" case Dead => "dead"
  }

  function Snapshot(r: Row): FinalRow {
    FinalRow(r.ev.id, StateName(r.state), r.lastError, r.created, r.updated)
  }

  /** The evidence tells the outcome of the run as it was when it stopped. */
  ghost predicate Faithful(s: World, records: seq<Record>, e: Evidence) {
    && Elements(e.injected) == s.h.admitted.Keys + s.h.rejected
    && Elements(e.rejected) == s.h.rejected
    && ConsumesAll(s.h.logs, records) && IdsOf(records, e.consumed)
    && (forall f :: f in e.final <==> exists id :: id in s.store.rows && f == Snapshot(s.store.rows[id]))
    && Truthful(s.h, e.events)
  }

  ghost function DeadOf(s: Store): set<EventId> {
    set id | id in s.rows && s.rows[id].state == Dead && s.rows[id].lastError != EXPIRED
  }

  ghost function ExpiredOf(s: Store): set<EventId> {
    set id | id in s.rows && s.rows[id].state == Dead && s.rows[id].lastError == EXPIRED
  }

  ghost predicate Drained(s: Store) { forall id | id in s.rows :: s.rows[id].state == Dead }

  /** The rows of the snapshot that pass a test are the rows of the store whose snapshot does. */
  lemma FinalIds(s: Store, final: seq<FinalRow>, pick: FinalRow -> bool)
    requires forall id | id in s.rows :: s.rows[id].ev.id == id
    requires forall f :: f in final <==> exists id :: id in s.rows && f == Snapshot(s.rows[id])
    ensures Ids(final, pick) == set id | id in s.rows && pick(Snapshot(s.rows[id]))
  {
    forall id | id in s.rows ensures Snapshot(s.rows[id]) in final {}
  }

  lemma LivePicks(s: Store)
    requires forall id | id in s.rows :: s.rows[id].ev.id == id
    ensures Drained(s) <==> (set id | id in s.rows && Live(Snapshot(s.rows[id]))) == {}
  {
    var live := set id | id in s.rows && Live(Snapshot(s.rows[id]));
    assert forall id | id in s.rows :: s.rows[id].state != Dead <==> Live(Snapshot(s.rows[id]));
    if live == {} {
      forall id | id in s.rows ensures s.rows[id].state == Dead { assert id !in live; }
    }
  }

  lemma DeadPicks(s: Store)
    ensures ExpiredOf(s) == set id | id in s.rows && Expired(Snapshot(s.rows[id]))
    ensures DeadOf(s) == set id | id in s.rows && Poisoned(Snapshot(s.rows[id]))
  {
    assert forall id | id in s.rows :: s.rows[id].state == Dead <==> Snapshot(s.rows[id]).state == "dead";
  }

  lemma FinalSets(s: Store, final: seq<FinalRow>)
    requires forall id | id in s.rows :: s.rows[id].ev.id == id
    requires forall f :: f in final <==> exists id :: id in s.rows && f == Snapshot(s.rows[id])
    ensures Ids(final, Expired) == ExpiredOf(s) && Ids(final, Poisoned) == DeadOf(s)
    ensures Ids(final, Live) == {} <==> Drained(s)
  {
    FinalIds(s, final, Expired);
    FinalIds(s, final, Poisoned);
    FinalIds(s, final, Live);
    LivePicks(s);
    DeadPicks(s);
  }

  lemma DrainedSets(s: Store)
    requires Drained(s)
    ensures DeadOf(s) !! ExpiredOf(s) && ExpiredOf(s) + DeadOf(s) == s.rows.Keys
  {
  }

  lemma ConsumedSet(s: World, records: seq<Record>, e: Evidence)
    requires HistoryInv(s.store, s.h) && Faithful(s, records, e)
    ensures s.h.acked <= Elements(e.consumed) <= s.h.admitted.Keys
  {
    forall p ensures FromPartition(records, p) <= LogOf(s.h.logs, p) {
      assert FromPartition(records, p) == LogOf(s.h.logs, p);
    }
    forall x | x in Elements(e.consumed) ensures x in s.h.admitted.Keys {
      var i :| 0 <= i < |e.consumed| && e.consumed[i] == x;
      ConsumedWasSent(s, records, i);
    }
    forall x | x in s.h.acked ensures x in Elements(e.consumed) {
      var p :| p in s.h.logs && s.h.admitted[x] in s.h.logs[p];
      var k :| 0 <= k < |s.h.logs[p]| && s.h.logs[p][k] == s.h.admitted[x];
      assert FromPartition(records, p) == s.h.logs[p];
      FromSomewhere(records, p, k);
      var i :| 0 <= i < |records| && records[i].ev == s.h.admitted[x];
      assert e.consumed[i] == x;
    }
  }

  /** Each expired row of the snapshot carries the strict evidence asked of it. */
  lemma FinalTtl(s: World, clock: int, records: seq<Record>, e: Evidence, ttl: int)
    requires Faithful(s, records, e) && AllStamps(ttl, clock, s.store)
    ensures forall r | r in e.final && Expired(r) :: StrictTtl(r, ttl)
  {
    forall r | r in e.final && Expired(r) ensures StrictTtl(r, ttl) {
      var id :| id in s.store.rows && r == Snapshot(s.store.rows[id]);
      assert StampsOk(ttl, clock, s.store.rows[id]);
    }
  }

  /** What has to be true of a run for its evidence to pass: everything was settled, the dead are the
      expected ones, rejections are allowed or absent, no row still held reached the log, and
      every reclaimed row did. */
  ghost predicate Passes(s: World, e: Evidence, o: Options) {
    && Drained(s.store)
    && DeadOf(s.store) == Elements(e.expectedDead)
    && (s.h.rejected == {} || o.allowRejected)
    && Elements(e.consumed) !! s.store.rows.Keys
    && s.h.reclaimed <= Elements(e.consumed)
  }

  lemma OutcomesOfRun(s: World, clock: int, records: seq<Record>, e: Evidence, o: Options)
    requires StoreInv(s.store) && HistoryInv(s.store, s.h) && AllStamps(o.ttl, clock, s.store)
    requires Faithful(s, records, e)
    ensures OutcomesClean(e, o) <==> Passes(s, e, o)
  {
    FinalSets(s.store, e.final);
    ConsumedSet(s, records, e);
    FinalTtl(s, clock, records, e, o.ttl);
    var consumed := Elements(e.consumed);
    if Drained(s.store) {
      DrainedSets(s.store);
      Union(s.h.admitted.Keys, s.store.rows.Keys, s.h.acked, s.h.reclaimed, s.h.rejected,
            consumed, ExpiredOf(s.store), DeadOf(s.store));
    }
    CleanIs(s, e, o);
  }

  /** The verifier's outcome checks, said of the run's own sets. */
  lemma CleanIs(s: World, e: Evidence, o: Options)
    requires Elements(e.injected) == s.h.admitted.Keys + s.h.rejected && Elements(e.rejected) == s.h.rejected
    requires Ids(e.final, Expired) == ExpiredOf(s.store) && Ids(e.final, Poisoned) == DeadOf(s.store)
    requires Ids(e.final, Live) == {} <==> Drained(s.store)
    requires forall r | r in e.final && Expired(r) :: StrictTtl(r, o.ttl)
    ensures OutcomesClean(e, o) <==>
              && Drained(s.store) && DeadOf(s.store) == Elements(e.expectedDead)
              && (s.h.rejected == {} || o.allowRejected)
              && s.h.admitted.Keys + s.h.rejected
                 == Elements(e.consumed) + s.h.rejected + ExpiredOf(s.store) + DeadOf(s.store)
              && Elements(e.consumed) !! s.h.rejected !! ExpiredOf(s.store) !! DeadOf(s.store)
  {
  }

  lemma Union(admitted: set<EventId>, rows: set<EventId>, acked: set<EventId>, reclaimed: set<EventId>,
              rejected: set<EventId>, consumed: set<EventId>, expired: set<EventId>, dead: set<EventId>)
    requires admitted == rows + acked + reclaimed && rows !! acked !! reclaimed && rejected !! admitted
    requires acked <= consumed <= admitted && expired !! dead && expired + dead == rows
    ensures (admitted + rejected == consumed + rejected + expired + dead && consumed !! rejected !! expired !! dead)
            <==> consumed !! rows && reclaimed <= consumed
  {
  }

  /** Main result.  On evidence of a run, under the run's own TTL and a nondecreasing clock,
      the verifier passes exactly the runs it should, and never reports an order mismatch. */
  lemma VerdictOnRuns(run: Run, clock: seq<int>, i: nat, records: seq<Record>, e: Evidence, o: Options)
    requires i < |run.worlds| && OneTopic(run.cfg, run.worlds[0].h)
    requires o.checkOrder ==> OrderInv(run.cfg, run.worlds[0].h)
    requires Timely(run, clock) && AllStamps(run.cfg.ttl, clock[0], run.worlds[0].store)
    requires Faithful(run.worlds[i], records, e) && o.ttl == run.cfg.ttl
    ensures Verdict(e, o) == 0 <==>
              Readable(e, o) && Passes(run.worlds[i], e, o) && (o.requireRecovery ==> RecoveryClean(e))
    ensures Verdict(e, o) != 2
  {
    RunKeeps(run, i);
    StampsHold(run, clock, i);
    forall p ensures FromPartition(records, p) <= LogOf(run.worlds[i].h.logs, p) {
      assert FromPartition(records, p) == LogOf(run.worlds[i].h.logs, p);
    }
    if o.checkOrder { NoInversionsInRuns(run, i, records, e); }
    OutcomesOfRun(run.worlds[i], clock[i], records, e, o);
  }
}

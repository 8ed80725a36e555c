/** Inputs at which the code does less than one might expect. */
module PipelineWitnesses {
  import opened OutboxModel
  import opened OutboxInvariant
  import opened OutboxFetch
  import opened OutboxUpgrade
  import opened OutboxMigrate
  import opened PipelineProtocol
  import opened PipelineHistory
  import opened PipelineTtl
  import opened PipelineStartup
  import opened PipelineBlocking
  import opened PipelineDraining
  import opened PipelineFairness
  import opened EvidenceContract
  import opened EvidenceVerifier
  import opened PipelineEvidence

  const CALL := CallId("t", "c")
  const FIRST := Event("a", "t", "k", "c", Some(0), "")
  const SECOND := Event("b", "t", "k", "c", Some(1), "")

  // ---------------------------------------------------------------- a waiting row killed directly

  const WAITING := Store(
    map["a" := Row(FIRST, Pending, 0, 1, "", 1, 1, Some(1), 0),
        "b" := Row(SECOND, Pending, 0, 2, "", 2, 2, None, 1)],
    map[CALL := Stream("k", Admission, 0, 2, 0)], map[], 0, 2)

  lemma WaitingIsSound()
    ensures StoreInv(WAITING) && DeadAreHeads(WAITING)
  {
    assert WAITING.rows["a"].ev == FIRST && WAITING.rows["b"].ev == SECOND;
    assert FIRST.Cid() == CALL && SECOND.Cid() == CALL;
    assert Occupied(WAITING.rows, CALL, 0) && Occupied(WAITING.rows, CALL, 1);
  }

  /** A direct mark_dead of a row that waits behind its call's head. */
  lemma KilledBehindItsHead()
    ensures StoreInv(WAITING) && DeadAreHeads(WAITING)
    ensures MarkDead(WAITING, "b", "operator", 3).Some?
    ensures !DeadAreHeads(MarkDead(WAITING, "b", "operator", 3).value)
  {
    WaitingIsSound();
    assert WAITING.rows["b"].ev == SECOND && SECOND.Cid() == CALL;
    var t := MarkDead(WAITING, "b", "operator", 3).value;
    assert t.rows["b"].state == Dead && !Head(t.streams, t.rows["b"].ev);
  }

  // ---------------------------------------------------------------- a backlog sent out of order

  function LegacyRow(ev: Event, created: int, rowid: nat): Row {
    Row(ev.(seqNo := None), InFlight, 1, created, "", created, created, None, rowid)
  }

  const LEGACY_ROWS: Rows := map["a" := LegacyRow(FIRST, 1, 0), "b" := LegacyRow(SECOND, 2, 1)]
  const MIGRATED_ROWS: Rows :=
    map["a" := LegacyRow(FIRST, 1, 0).(ev := FIRST), "b" := LegacyRow(SECOND, 2, 1).(ev := SECOND)]
  const MIGRATED_STREAMS: Streams := map[CALL := Stream("k", Admission, 0, 2, 0)]
  const MIGRATED_FILE := Disk(4, true, MIGRATED_ROWS, MIGRATED_STREAMS, map[], Some(0), 2)

  lemma BacklogIsNumbered()
    ensures Numbered(MIGRATED_ROWS, MIGRATED_STREAMS, CALL)
  {
    assert MIGRATED_ROWS["a"].ev == FIRST && MIGRATED_ROWS["b"].ev == SECOND;
    assert Occupied(MIGRATED_ROWS, CALL, 0) && Occupied(MIGRATED_ROWS, CALL, 1);
    assert Precedes(MIGRATED_ROWS["a"], MIGRATED_ROWS["b"]) && !Precedes(MIGRATED_ROWS["b"], MIGRATED_ROWS["a"]);
  }

  lemma BacklogGroups()
    ensures Legacy(LEGACY_ROWS) && Groups(LEGACY_ROWS) == {CALL} && Fields(MIGRATED_ROWS) == LEGACY_ROWS
  {
    assert LEGACY_ROWS["a"].ev.Ordered() && LEGACY_ROWS["a"].ev.Cid() == CALL && LEGACY_ROWS["b"].ev.Cid() == CALL;
    assert forall id | id in LEGACY_ROWS :: id == "a" || id == "b";
  }

  lemma BacklogMigrates()
    ensures Legacy(LEGACY_ROWS) && IsMigration(LEGACY_ROWS, MIGRATED_ROWS, MIGRATED_STREAMS)
  {
    BacklogGroups();
    BacklogIsNumbered();
    assert forall id | id in MIGRATED_ROWS :: MIGRATED_ROWS[id].ev.Ordered();
  }

  const BOTH_SENT := {FIRST, SECOND}
  const REORDERED: Logs := map[0 := [SECOND, FIRST]]
  const AS_READ := [Record(0, SECOND), Record(0, FIRST)]
  const AS_WRITTEN := [InjectedEvent("a", "c", 0, "baseline"), InjectedEvent("b", "c", 1, "baseline")]

  lemma MigrationOpens()
    ensures Open(MIGRATED_FILE).Opened?
  {
    assert MIGRATED_ROWS["a"].ev == FIRST && MIGRATED_ROWS["b"].ev == SECOND;
  }

  lemma BacklogRows(next: int, wall: int)
    requires Open(MIGRATED_FILE).Opened?
    ensures var s := Requeue(Open(MIGRATED_FILE).store, next, wall);
            s.rows.Keys == {"a", "b"} && s.rows["a"].ev == FIRST && s.rows["b"].ev == SECOND
  {
    assert MIGRATED_ROWS["a"].ev == FIRST && MIGRATED_ROWS["b"].ev == SECOND;
  }

  lemma BothWereSent(s: Store)
    requires s.rows.Keys == {"a", "b"} && s.rows["a"].ev == FIRST && s.rows["b"].ev == SECOND
    ensures SentBefore(s, BOTH_SENT, REORDERED)
  {
  }

  /** Such a past is not in order. */
  lemma SecondCameFirst(cfg: Config, h: History)
    requires h.logs == REORDERED
    ensures !OrderInv(cfg, h)
  {
    var log := REORDERED[0];
    assert 0 in h.logs && log[0].Ordered() && log[0].seqNo == Some(1);
    assert !Earlier(log, 0, log[0].Cid(), 0);
    assert !PrefixClosed(log);
  }

  lemma BacklogFits()
    ensures forall id | id in LEGACY_ROWS :: LEGACY_ROWS[id].rowid < MIGRATED_FILE.nextRowid
    ensures forall c | c in MIGRATED_FILE.streams :: MIGRATED_FILE.streams[c].admitSeq <= INT64_MAX
  {
  }

  /** Two rows in flight when the old program stopped, both handed to the client: they migrate, and
      runs begin with them and a log that has the second before the first. */
  lemma BacklogBegins(next: int, wall: int)
    ensures Legacy(LEGACY_ROWS) && IsMigration(LEGACY_ROWS, MIGRATED_FILE.rows, MIGRATED_FILE.streams)
    ensures Open(MIGRATED_FILE).Opened?
    ensures var s := Requeue(Open(MIGRATED_FILE).store, next, wall);
            Initial(World(s, DOWN, Past(s, BOTH_SENT, REORDERED)))
  {
    BacklogMigrates();
    MigrationOpens();
    BacklogFits();
    BacklogRows(next, wall);
    BothWereSent(Requeue(Open(MIGRATED_FILE).store, next, wall));
    MigratedBegins(LEGACY_ROWS, MIGRATED_FILE, next, wall, BOTH_SENT, REORDERED);
  }

  /** The order check reports that call. */
  lemma ReorderedIsReported(s: Store, e: Evidence)
    requires s.rows.Keys == {"a", "b"} && s.rows["a"].ev == FIRST && s.rows["b"].ev == SECOND
    requires e.events == AS_WRITTEN && e.consumed == ["b", "a"]
    ensures ConsumesAll(REORDERED, AS_READ) && IdsOf(AS_READ, e.consumed)
    ensures Truthful(Past(s, BOTH_SENT, REORDERED), e.events)
    ensures "c" in InvertedCalls(e)
  {
    forall p ensures FromPartition(AS_READ, p) == LogOf(REORDERED, p) {
      assert AS_READ[..1] == [Record(0, SECOND)] && AS_READ[..1][..0] == [];
      assert FromPartition(AS_READ[..1], p) == if p == 0 then [SECOND] else [];
    }
    assert IsFirst(e.consumed, "a", 1) && IsFirst(e.consumed, "b", 0);
    assert SeenBefore(e.consumed, "b", "a");
    assert AS_WRITTEN[0] in e.events && AS_WRITTEN[1] in e.events;
    assert Inverted(e.events, e.consumed, "c");
  }

  // ---------------------------------------------------------------- a stale event fetched

  const IMPATIENT := Config("t", Limits(8, 64), 3, 10, false, (key: string) => 0)
  const LATE := Request("e", "t", "", "", -1, "", 50, 0)
  const LATE_ROW := Row(Event("e", "t", "", "", None, ""), Pending, 0, 50, "", 50, 50, Some(50), 0)

  lemma LateIsAdmitted()
    ensures Insert(EMPTY_STORE, LATE, 50, IMPATIENT.limits)
            == Admitted(Store(map["e" := LATE_ROW], map[], map[], 0, 1), LATE_ROW.ev)
  {
    assert MakeRoom(map[], 0, IMPATIENT.limits) == map[];
    assert |EMPTY_STORE.rows| == 0 && Bytes(EMPTY_STORE.rows) == 0;
  }

  const LATE_STORE := Store(map["e" := LATE_ROW], map[], map[], 0, 1)

  lemma LateIsFetched()
    ensures IsFetch(LATE_STORE, 100, BATCH, [LATE_ROW])
  {
    assert Stored(LATE_STORE, LATE_ROW) && Due(LATE_STORE.streams, LATE_ROW, 100);
  }

  lemma AfterScan(run: Run) returns (next: Run)
    requires run.cfg == IMPATIENT && Last(run).store == EMPTY_STORE
    requires Last(run).w == JUST_STARTED && Last(run).h == EMPTY_WORLD.h
    ensures next == Extend(run, Scan(100)) && Last(next).store == EMPTY_STORE && Last(next).h == EMPTY_WORLD.h
    ensures Last(next).w == JUST_STARTED.(stage := Stage.Scanned, now := 100)
  {
    next := Extend(run, Scan(100));
  }

  lemma AfterAdmission(run: Run) returns (next: Run)
    requires run.cfg == IMPATIENT && Last(run).store == EMPTY_STORE && Last(run).h == EMPTY_WORLD.h
    requires Last(run).w == JUST_STARTED.(stage := Stage.Scanned, now := 100)
    ensures Enabled(run.cfg, Last(run), Enqueue(LATE, true)) && next == Extend(run, Enqueue(LATE, true))
    ensures Last(next).store == LATE_STORE && Last(next).w == Last(run).w
  {
    LateIsAdmitted();
    next := Extend(run, Enqueue(LATE, true));
  }

  /** The clock reads 50 when an event is admitted, whose commit waits until after a scan at 100; and the
      fetch at 100 hands the worker an event 50 ms old under a TTL of 10 ms. */
  lemma StaleIsFetched() returns (run: Run, clock: seq<int>)
    ensures |run.labels| == 4 && Timely(run, clock) && Window(run, 1, 3) && OverdueWithin(run, 1, 3)
    ensures run.labels[3] == Label.Fetch([LATE_ROW]) && run.worlds[3].w.now - LATE_ROW.eligible.value > run.cfg.ttl
  {
    var r1 := Started();
    var r2 := AfterScan(r1);
    var r3 := AfterAdmission(r2);
    LateIsFetched();
    run := Extend(r3, Label.Fetch([LATE_ROW]));
    clock := [0, 0, 100, 100, 100];
    LateClock(run);
    assert run.worlds[2] == Last(r2) && run.worlds[3] == Last(r3);
    assert OverdueAt(run, 2);
  }

  lemma LateClock(run: Run)
    requires run.labels == [Start(0, 0, true), Scan(100), Enqueue(LATE, true), Label.Fetch([LATE_ROW])]
    ensures Timely(run, [0, 0, 100, 100, 100])
  {
  }

  lemma Started() returns (run: Run)
    ensures run.cfg == IMPATIENT && run.labels == [Start(0, 0, true)] && |run.worlds| == 2
    ensures Last(run).store == EMPTY_STORE && Last(run).w == JUST_STARTED && Last(run).h == EMPTY_WORLD.h
  {
    EmptyFileBegins(IMPATIENT);
    var e := Trace(IMPATIENT, [EMPTY_WORLD], []);
    assert BeginsAt(e, 0);
    run := Extend(e, Start(0, 0, true));
  }

  // ---------------------------------------------------------------- an upgraded file with progress

  const HALF_DONE := Disk(2, true, map["b" := Row(SECOND, InFlight, 1, 2, "", 2, 2, None, 1)],
                     map[CALL := Stream("k", Admission, 1, 2, 7)], map[], None, 2)
  const HALF_PAST := History({FIRST}, map[0 := [FIRST]], map["a" := FIRST, "b" := SECOND], {}, {"a"}, {})

  lemma HalfRecovers()
    ensures Recoverable(HALF_DONE) && TurnsInRange(HALF_DONE)
  {
    assert HALF_DONE.rows["b"].ev == SECOND && HALF_DONE.rows["b"].ev.Cid() == CALL;
    assert Occupied(HALF_DONE.rows, CALL, 1);
  }

  lemma DoneFits(s: Store)
    requires s.rows.Keys == {"b"} && s.rows["b"].ev == SECOND && s.streams == HALF_DONE.streams && s.fences == map[]
    ensures HistoryInv(s, HALF_PAST)
  {
    assert At(HALF_PAST.logs[0][0], CALL, 0) && Logged(HALF_PAST.logs, CALL, 0);
    assert Cursor(s, CALL) == 1 && forall c | c != CALL :: Cursor(s, c) == 0;
    assert FIRST in HALF_PAST.logs[0];
  }

  lemma HalfDoneRows(next: int, wall: int)
    requires Open(HALF_DONE).Opened?
    ensures var s := Requeue(Open(HALF_DONE).store, next, wall);
            s.rows.Keys == {"b"} && s.rows["b"].ev == SECOND && s.streams == HALF_DONE.streams && s.fences == map[]
  {
    assert HALF_DONE.rows["b"].ev == SECOND;
  }

  lemma HalfPastIsOrdered(cfg: Config)
    requires cfg.partition("k") == 0
    ensures OrderInv(cfg, HALF_PAST)
  {
  }

  /** A file of schema 2 whose call's first event was acknowledged and whose second was in flight. */
  lemma HalfDoneBegins(next: int, wall: int)
    ensures Open(HALF_DONE).Opened?
    ensures var s := Requeue(Open(HALF_DONE).store, next, wall); Initial(World(s, DOWN, HALF_PAST)) && TurnsOk(s)
  {
    HalfRecovers();
    RecoverableOpens(HALF_DONE);
    HalfDoneRows(next, wall);
    DoneFits(Requeue(Open(HALF_DONE).store, next, wall));
    UpgradedBegins(HALF_DONE, HALF_PAST, next, wall);
    assert CALL in HALF_DONE.streams && HALF_DONE.streams[CALL].lastServed == 7;
  }

  // ---------------------------------------------------------------- a crowd that starves a call

  function Name(k: nat): string { seq(k + 1, _ => 'x') }

  function Names(n: nat): set<EventId> { set k | 0 <= k < n :: Name(k) }

  lemma {:induction false} NamesCount(n: nat)
    ensures |Names(n)| == n && forall id | id in Names(n) :: 1 <= |id| <= n && id == Name(|id| - 1)
  {
    if n > 0 {
      NamesCount(n - 1);
      assert Names(n) == Names(n - 1) + {Name(n - 1)};
      assert |Name(n - 1)| == n;
    }
  }

  function OneOfMany(id: EventId): Row {
    Row(Event(id, "t", "", "", None, ""), Pending, 0, 1, "", 1, 1, Some(1), |id|)
  }

  const CROWD: Rows := map id | id in Names(BATCH) :: OneOfMany(id)
  const LONE := Row(FIRST, Pending, 0, 1, "", 1, 1, Some(1), 0)

  /** 32 events outside calls, and one call that was served before. */
  const CROWDED :=
    Store(CROWD["a" := LONE], map[CALL := Stream("k", Admission, 0, 1, 1)], map[], 1, BATCH + 1)

  lemma CrowdedRow(id: EventId)
    requires id in CROWDED.rows
    ensures CROWDED.rows[id].ev.id == id && CROWDED.rows[id].rowid <= BATCH
    ensures RowOk(CROWDED.streams, CROWDED.rows[id])
    ensures id != "a" ==> CROWDED.rows[id] == OneOfMany(id) && id == Name(|id| - 1) && 1 <= |id|
  {
    NamesCount(BATCH);
  }

  lemma CrowdedIsSound()
    ensures StoreInv(CROWDED)
  {
    forall id | id in CROWDED.rows
      ensures CROWDED.rows[id].ev.id == id && CROWDED.rows[id].rowid < CROWDED.nextRowid
      ensures RowOk(CROWDED.streams, CROWDED.rows[id])
    {
      CrowdedRow(id);
    }
    forall id, id' | id in CROWDED.rows && id' in CROWDED.rows && id != id'
      ensures CROWDED.rows[id].rowid != CROWDED.rows[id'].rowid
      ensures !SamePosition(CROWDED.rows[id].ev, CROWDED.rows[id'].ev)
    {
      CrowdedRow(id);
      CrowdedRow(id');
    }
    assert CROWDED.rows["a"] == LONE && Occupied(CROWDED.rows, CALL, 0);
  }

  lemma CrowdIsDue()
    ensures DueUngrouped(CROWDED, 100) == Names(BATCH)
  {
    NamesCount(BATCH);
    assert "a" !in Names(BATCH) by { assert Name(0)[0] == 'x'; }
  }

  /** Whatever is fetched is not of that call, though it is due. */
  lemma CrowdStarvesCall(out: seq<Row>)
    requires IsFetch(CROWDED, 100, BATCH, out)
    ensures StoreInv(CROWDED) && HasDue(CROWDED, 100, CALL, "a") && CallsOf(out) == {}
  {
    CrowdedIsSound();
    CrowdIsDue();
    NamesCount(BATCH);
    assert CROWDED.rows["a"] == LONE && FIRST.Cid() == CALL;
    forall id | id in CROWDED.rows && CROWDED.rows[id].ev.Ordered() ensures id == "a" { CrowdedRow(id); }
    CallsStarve(CROWDED, 100, out, "a");
  }

  // ---------------------------------------------------------------- a gap that keeps a store from draining

  /** A call numbered by its caller, whose event 0 never came. */
  const GAPPED := Store(map["b" := Row(SECOND, Pending, 0, 2, "", 2, 2, None, 0)],
                        map[CALL := Stream("k", Source, 0, 2, 0)], map[], 0, 1)

  lemma GapBlocksForever()
    ensures StoreInv(GAPPED) && NoneDead(GAPPED) && !GapFree(GAPPED)
    ensures Quiescent(GAPPED) && GAPPED.rows != map[]
  {
    assert GAPPED.rows["b"].ev == SECOND && SECOND.Cid() == CALL;
    assert !Occupied(GAPPED.rows, CALL, 0);
    assert !Gapless(GAPPED, GAPPED.rows["b"]);
  }
}

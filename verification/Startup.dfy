/** Where runs begin: an empty file, an upgraded one with its cursors, a migrated one with its past. */
module PipelineStartup {
  import opened OutboxModel
  import opened OutboxInvariant
  import opened OutboxUpgrade
  import opened OutboxMigrate
  import opened PipelineProtocol
  import opened PipelineHistory

  lemma EmptyFileBegins(cfg: Config)
    ensures Open(Disk(0, false, map[], map[], map[], None, 0)) == Opened(EMPTY_STORE)
    ensures Initial(EMPTY_WORLD) && TurnsOk(EMPTY_STORE) && OrderInv(cfg, EMPTY_WORLD.h)
  {
    assert Seed(map[]) == 0;
    assert Stamped(map[], map[]) == map[];
  }

  /** Service times and turns are 64-bit columns. */
  predicate TurnsInRange(d: Disk) {
    (d.scheduler.Some? ==> d.scheduler.value <= INT64_MAX)
    && forall c | c in d.streams :: d.streams[c].lastServed <= INT64_MAX
  }

  /** Main result.  Any recoverable file, at whatever version and with whatever progress, begins runs
      once it is opened and requeued, given a past that fits it.  A file that had no scheduler yet gets
      one at or past every call, served or yet to come, exactly if not every old service time is
      negative. */
  lemma UpgradedBegins(d: Disk, h: History, next: int, wall: int)
    requires Recoverable(d) && TurnsInRange(d)
    requires HistoryInv(Requeue(Open(d).store, next, wall), h)
    ensures Open(d).Opened? && Initial(World(Requeue(Open(d).store, next, wall), DOWN, h))
    ensures d.scheduler == None ==>
              (TurnsOk(Requeue(Open(d).store, next, wall)) <==>
                 d.streams == map[] || exists c :: c in d.streams && 0 <= d.streams[c].lastServed)
  {
    StartRecovers(d, next, wall);
    SeedDominates(d.streams);
    LatestTurn(d.streams);
  }

  lemma LatestTurn(streams: Streams)
    ensures streams == map[] || exists c :: c in streams && streams[c].lastServed == Seed(streams)
  {
    if streams != map[] {
      LatestExists(streams);
      assert Latest(streams, Seed(streams));
    }
  }

  lemma MigratedCursors(legacy: Rows, d: Disk, c: CallId)
    requires Legacy(legacy) && IsMigration(legacy, d.rows, d.streams) && c in d.streams
    ensures d.streams[c].nextSeq == 0 && d.streams[c].lastServed == 0
  {
    assert Numbered(d.rows, d.streams, c);
  }

  /** What an older version may have sent of the rows it left behind, in whatever order: copies on the
      network, some of them in the logs. */
  ghost predicate SentBefore(s: Store, network: set<Event>, logs: Logs) {
    && (forall ev | ev in network :: ev.id in s.rows && s.rows[ev.id].ev == ev)
    && (forall p, i | p in logs && 0 <= i < |logs[p]| :: logs[p][i] in network)
  }

  /** The history of a backlog none of which was acknowledged. */
  function Past(s: Store, network: set<Event>, logs: Logs): History {
    History(network, logs, map id | id in s.rows :: s.rows[id].ev, {}, {}, {})
  }

  /** A store whose cursors stand at 0 fits any such past. */
  lemma BacklogHasPast(s: Store, network: set<Event>, logs: Logs)
    requires StoreInv(s) && s.fences == map[] && SentBefore(s, network, logs)
    requires forall c | c in s.streams :: s.streams[c].nextSeq == 0
    ensures HistoryInv(s, Past(s, network, logs))
  {
    var h := Past(s, network, logs);
    forall id | id in h.admitted && h.admitted[id].Ordered() ensures Placed(s, h.admitted[id], id in h.acked) {
      assert RowOk(s.streams, s.rows[id]);
      assert StreamOk(s, h.admitted[id].Cid());
    }
  }

  /** Main result.  Migrate, open and requeue, and the pipeline is where runs begin, whatever copies of
      the backlog were sent before; the scheduler is at or past every call. */
  lemma MigratedBegins(legacy: Rows, d: Disk, next: int, wall: int, network: set<Event>, logs: Logs)
    requires Legacy(legacy) && IsMigration(legacy, d.rows, d.streams)
    requires d.sequenced && d.version <= SCHEMA && d.fences == map[] && d.scheduler == Some(0)
    requires forall id | id in legacy :: legacy[id].rowid < d.nextRowid
    requires forall c | c in d.streams :: d.streams[c].admitSeq <= INT64_MAX
    requires Open(d).Opened? ==> SentBefore(Requeue(Open(d).store, next, wall), network, logs)
    ensures Open(d).Opened?
    ensures var s := Requeue(Open(d).store, next, wall);
            Initial(World(s, DOWN, Past(s, network, logs))) && TurnsOk(s)
  {
    MigrationStarts(legacy, d, next, wall);
    var s := Requeue(Open(d).store, next, wall);
    forall c | c in s.streams ensures s.streams[c].nextSeq == 0 && s.streams[c].lastServed == 0 {
      MigratedCursors(legacy, d, c);
    }
    BacklogHasPast(s, network, logs);
  }
}

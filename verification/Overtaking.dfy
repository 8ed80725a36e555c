/** A call overtaken twice: a run from an old file whose service times are negative. */
module PipelineOvertaking {
  import opened OutboxModel
  import opened OutboxInvariant
  import opened OutboxCapacity
  import opened OutboxFetch
  import opened OutboxUpgrade
  import opened PipelineProtocol
  import opened PipelineHistory
  import opened PipelineStartup
  import opened PipelineFairness
  import opened PipelineWitnesses

  const NEWCOMER := CallId("t", "d")
  const OTHER := Event("n", "t", "k", "d", Some(0), "")

  const ROW_A := Row(FIRST, Pending, 0, 1, "", 1, 1, Some(1), 0)
  const ROW_B := Row(SECOND, Pending, 0, 2, "", 2, 2, None, 1)
  const ROW_N := Row(OTHER, Pending, 0, 20, "", 20, 20, Some(20), 2)
  const SENT_A := ROW_A.(state := InFlight, attempts := 1, updated := 10)
  const HEAD_B := ROW_B.(eligible := Some(25))
  const SENT_B := HEAD_B.(state := InFlight, attempts := 1, updated := 30)

  function ServedAt(next: int, last: int): Stream { Stream("k", Admission, next, 2, last) }

  /** Schema 2, before there was a scheduler. */
  const OLD_FILE := Disk(2, true, map["a" := ROW_A.(eligible := None), "b" := ROW_B],
                         map[CALL := ServedAt(0, -5)], map[], None, 2)

  const FOUND := Store(map["a" := ROW_A, "b" := ROW_B], map[CALL := ServedAt(0, -5)], map[], -5, 2)
  const SERVED := Store(map["a" := SENT_A, "b" := ROW_B], map[CALL := ServedAt(0, -4)], map[], -4, 2)
  const JOINED := Store(map["a" := SENT_A, "b" := ROW_B, "n" := ROW_N],
                        map[CALL := ServedAt(0, -4), NEWCOMER := Stream("k", Admission, 0, 1, 0)], map[], -4, 3)
  const ACKED := Store(map["b" := HEAD_B, "n" := ROW_N],
                       map[CALL := ServedAt(1, -4), NEWCOMER := Stream("k", Admission, 0, 1, 0)], map[], -4, 3)
  const AGAIN := Store(map["b" := SENT_B, "n" := ROW_N],
                       map[CALL := ServedAt(1, -3), NEWCOMER := Stream("k", Admission, 0, 1, 0)], map[], -3, 3)

  const NOTHING_SENT := History({}, map[], map["a" := FIRST, "b" := SECOND], {}, {}, {})
  const ON_ITS_WAY := NOTHING_SENT.(network := {FIRST})
  const ARRIVED := ON_ITS_WAY.(logs := map[0 := [FIRST]])
  const ADMITTED := ARRIVED.(admitted := map["a" := FIRST, "b" := SECOND, "n" := OTHER])
  const REPORTED := ADMITTED.(acked := {"a"})

  const ROUND_1 := JUST_STARTED.(now := 10)
  const WAITING_1 := ROUND_1.(outstanding := {"a"})
  const ROUND_2 := JUST_STARTED.(now := 30)

  const CONFIG := Config("t", Limits(8, 64), 3, 0, false, (key: string) => 0)
  const REQUEST := Request("n", "t", "k", "d", -1, "", 20, 0)

  const W0 := World(FOUND, DOWN, NOTHING_SENT)
  const W1 := World(FOUND, JUST_STARTED, NOTHING_SENT)
  const W2 := World(FOUND, ROUND_1.(stage := Scanned), NOTHING_SENT)
  const W3 := World(FOUND, ROUND_1.(stage := Sending, batch := [ROW_A]), NOTHING_SENT)
  const W4 := World(SERVED, ROUND_1.(stage := Sending, marked := Some(ROW_A)), NOTHING_SENT)
  const W5 := World(SERVED, WAITING_1.(stage := Sending), ON_ITS_WAY)
  const W6 := World(SERVED, WAITING_1, ON_ITS_WAY)
  const W7 := World(SERVED, WAITING_1, ARRIVED)
  const W8 := World(JOINED, WAITING_1, ADMITTED)
  const W9 := World(ACKED, ROUND_1, REPORTED)
  const W10 := World(ACKED, ROUND_2.(stage := Scanned), REPORTED)
  const W11 := World(ACKED, ROUND_2.(stage := Sending, batch := [HEAD_B, ROW_N]), REPORTED)
  const W12 := World(AGAIN, ROUND_2.(stage := Sending, marked := Some(HEAD_B), batch := [ROW_N]), REPORTED)

  ghost predicate Takes(s: World, l: Label, t: World) { Step(CONFIG, s, l, t) }

  lemma Begins()
    ensures Takes(W0, Start(0, 0, true), W1) && Takes(W1, Scan(10), W2)
  {
    assert Requeue(FOUND, 0, 0) == FOUND;
  }

  lemma FirstFetch()
    ensures Takes(W2, Label.Fetch([ROW_A]), W3)
  {
    assert Stored(FOUND, ROW_A) && Due(FOUND.streams, ROW_A, 10) && !Due(FOUND.streams, ROW_B, 10);
  }

  lemma FirstMark()
    ensures Takes(W3, Mark(10), W4)
  {
    assert FOUND.rows["a"] == ROW_A && FIRST.Cid() == CALL;
    assert FOUND.rows["a" := SENT_A] == SERVED.rows;
    assert FOUND.streams[CALL := ServedAt(0, -4)] == SERVED.streams;
  }

  lemma FirstSent()
    ensures Takes(W4, HandOver, W5) && Takes(W5, EndBatch, W6)
  {
  }

  lemma FirstArrives()
    ensures Takes(W6, Append(0, FIRST), W7)
  {
    assert LogOf(ON_ITS_WAY.logs, 0) + [FIRST] == [FIRST];
  }

  lemma NewcomerJoins()
    ensures Insert(SERVED, REQUEST, 20, CONFIG.limits) == Admitted(JOINED, OTHER)
  {
    assert |SERVED.rows| == 2 by { assert SERVED.rows.Keys == {"a", "b"}; }
    NoBytes(SERVED.rows);
    assert MakeRoom(SERVED.rows, 0, CONFIG.limits) == SERVED.rows;
  }

  /** None of these events has a payload. */
  lemma {:induction false} NoBytes(rows: Rows)
    requires forall id | id in rows :: rows[id].ev.payload == ""
    ensures Bytes(rows) == 0
    decreases |rows|
  {
    if rows != map[] {
      var id :| id in rows;
      TotalWithout(rows, PayloadSize, id);
      assert (rows - {id}).Keys == rows.Keys - {id} && |rows - {id}| == |(rows - {id}).Keys|;
      NoBytes(rows - {id});
    }
  }

  lemma FirstAcked()
    ensures Takes(W8, Delivered("a", 25), W9)
  {
    assert FIRST in ARRIVED.logs[0];
    AckOfFirst();
  }

  lemma AckPromotes()
    ensures Promote(JOINED.rows, CALL, 1, 25) - {"a"} == ACKED.rows
  {
    var t := Promote(JOINED.rows, CALL, 1, 25);
    assert JOINED.rows["b"] == ROW_B && JOINED.rows["n"] == ROW_N;
    assert t["b"] == HEAD_B && t["n"] == ROW_N;
    assert (t - {"a"}).Keys == {"b", "n"} && ACKED.rows.Keys == {"b", "n"};
  }

  lemma AckOfFirst()
    ensures MarkAcked(JOINED, "a", 25) == Some(ACKED)
  {
    assert JOINED.rows["a"] == SENT_A && FIRST.Cid() == CALL && CALL != NEWCOMER;
    AckPromotes();
    assert JOINED.streams[CALL := ServedAt(1, -4)] == ACKED.streams;
  }

  lemma SecondFetch()
    ensures Takes(W9, Scan(30), W10) && Takes(W10, Label.Fetch([HEAD_B, ROW_N]), W11)
  {
    assert Stored(ACKED, HEAD_B) && Due(ACKED.streams, HEAD_B, 30);
    assert Stored(ACKED, ROW_N) && Due(ACKED.streams, ROW_N, 30);
    assert Before(ACKED.streams, HEAD_B, ROW_N);
  }

  lemma SecondMark()
    ensures Takes(W11, Mark(30), W12)
  {
    assert ACKED.rows["b"] == HEAD_B && SECOND.Cid() == CALL && CALL != NEWCOMER;
    assert ACKED.rows["b" := SENT_B] == AGAIN.rows;
    assert ACKED.streams[CALL := ServedAt(1, -3)] == AGAIN.streams;
  }

  const LABELS := [
    Start(0, 0, true), Scan(10), Label.Fetch([ROW_A]), Mark(10), HandOver, EndBatch, Append(0, FIRST),
    Enqueue(REQUEST, true), Delivered("a", 25), Scan(30), Label.Fetch([HEAD_B, ROW_N]), Mark(30)]

  const WORLDS := [W0, W1, W2, W3, W4, W5, W6, W7, W8, W9, W10, W11, W12]

  ghost predicate TakesAt(i: nat)
    requires i < 12
  {
    Step(CONFIG, WORLDS[i], LABELS[i], WORLDS[i + 1])
  }

  lemma FirstRound()
    ensures TakesAt(0) && TakesAt(1) && TakesAt(2)
  {
    Begins();
    FirstFetch();
  }

  lemma FirstSend()
    ensures TakesAt(3) && TakesAt(4) && TakesAt(5)
  {
    FirstMark();
    FirstSent();
  }

  lemma FirstLogged()
    ensures TakesAt(6)
  {
    FirstArrives();
  }

  lemma NewcomerIn()
    ensures TakesAt(7)
  {
    NewcomerJoins();
    assert WORLDS[7] == W7 && LABELS[7] == Enqueue(REQUEST, true) && WORLDS[8] == W8;
  }

  lemma FirstSettled()
    ensures TakesAt(8)
  {
    FirstAcked();
  }

  lemma SecondRound()
    ensures TakesAt(9) && TakesAt(10) && TakesAt(11)
  {
    SecondFetch();
    SecondMark();
  }

  lemma AllTaken(i: nat)
    requires i < 12
    ensures TakesAt(i)
  {
    FirstRound();
    FirstSend();
    FirstLogged();
    NewcomerIn();
    FirstSettled();
    SecondRound();
    assert i in {0, 1, 2, 3, 4, 5, 6, 7, 8, 9, 10, 11};
  }

  lemma OldFileHasNoHole()
    ensures Occupied(OLD_FILE.rows, CALL, 0) && Occupied(OLD_FILE.rows, CALL, 1)
  {
    assert OLD_FILE.rows["a"].ev == FIRST && OLD_FILE.rows["b"].ev == SECOND;
    assert FIRST.Cid() == CALL && SECOND.Cid() == CALL;
  }

  lemma OldFileIsDistinct()
    ensures Distinct(OLD_FILE.rows)
  {
    assert OLD_FILE.rows["a"].ev == FIRST && OLD_FILE.rows["b"].ev == SECOND;
  }

  lemma OldFileRecovers()
    ensures Recoverable(OLD_FILE) && TurnsInRange(OLD_FILE)
  {
    OldFileHasNoHole();
    OldFileIsDistinct();
    assert OLD_FILE.rows["a"].ev == FIRST && OLD_FILE.rows["b"] == ROW_B;
    assert FIRST.Cid() == CALL && SECOND.Cid() == CALL;
  }

  lemma OldFileStamps()
    ensures Stamped(OLD_FILE.rows, OLD_FILE.streams) == FOUND.rows
  {
    assert FIRST.Cid() == CALL && SECOND.Cid() == CALL;
  }

  lemma OldFileSeeds()
    ensures Turn(OLD_FILE) == -5
  {
    LatestTurn(OLD_FILE.streams);
    assert CALL in OLD_FILE.streams && forall c | c in OLD_FILE.streams :: c == CALL;
  }

  lemma OldFileOpens()
    requires Recoverable(OLD_FILE)
    ensures Open(OLD_FILE) == Opened(FOUND)
  {
    RecoverableOpens(OLD_FILE);
    OldFileStamps();
    OldFileSeeds();
  }

  lemma FoundIsSound()
    ensures StoreInv(FOUND)
  {
    OldFileRecovers();
    OldFileOpens();
    StartRecovers(OLD_FILE, 0, 0);
    assert Requeue(FOUND, 0, 0) == FOUND;
  }

  lemma FoundHasPast()
    ensures HistoryInv(FOUND, NOTHING_SENT)
  {
    FoundIsSound();
    assert FOUND.rows["a"].ev == FIRST && FOUND.rows["b"].ev == SECOND;
    assert Past(FOUND, {}, map[]) == NOTHING_SENT;
    BacklogHasPast(FOUND, {}, map[]);
  }

  lemma TheRun() returns (run: Run)
    ensures run == Trace(CONFIG, WORLDS, LABELS)
  {
    var e := Trace(CONFIG, WORLDS, LABELS);
    FoundIsSound();
    FoundHasPast();
    assert BeginsAt(e, 0);
    forall i | 0 <= i < 12 ensures StepAt(e, i) {
      AllTaken(i);
    }
    run := e;
  }

  lemma NobodyServesNewcomer(run: Run)
    requires run == Trace(CONFIG, WORLDS, LABELS)
    ensures !ServedWithin(run, 0, 12, NEWCOMER)
  {
    assert forall m | 0 <= m < 12 && LABELS[m].Mark? :: m == 3 || m == 11;
    assert W3.w.batch[0].ev.Cid() == CALL && W11.w.batch[0].ev.Cid() == CALL;
  }

  lemma ServedTwice(run: Run)
    requires run == Trace(CONFIG, WORLDS, LABELS)
    ensures ServesAt(run, 3, CALL) && ServesAt(run, 11, CALL)
  {
  }

  lemma NewcomerIsDue()
    ensures HasDue(ACKED, 30, NEWCOMER, "n")
  {
    assert ACKED.rows["n"] == ROW_N && OTHER.Cid() == NEWCOMER;
  }

  /** An old file opens with a negative turn; a call is served, and served again out of the next batch,
      while a newcomer that was due when that batch was fetched has not been served at all. */
  lemma NewcomerIsOvertaken() returns (run: Run)
    ensures Recoverable(OLD_FILE) && Open(OLD_FILE) == Opened(run.worlds[0].store)
    ensures |run.labels| == 12 && ServesAt(run, 3, CALL) && ServesAt(run, 11, CALL)
    ensures run.labels[10].Fetch? && HasDue(run.worlds[10].store, run.worlds[10].w.now, NEWCOMER, "n")
    ensures !ServedWithin(run, 0, 12, NEWCOMER)
  {
    OldFileRecovers();
    OldFileOpens();
    run := TheRun();
    ServedTwice(run);
    NobodyServesNewcomer(run);
    NewcomerIsDue();
  }
}

/** When the worker runs out of work. */
module PipelineTermination {
  import opened OutboxModel
  import opened PipelineHistory
  import opened PipelineSafety
  import opened PipelineDraining
  import opened PipelineFairness
  import opened PipelineBlocking

  lemma MarkIsSend(run: Run, m: nat, r: Row)
    requires m < |run.labels| && MarksAt(run, m, r)
    ensures Sends(run.worlds[m], run.labels[m], run.worlds[m + 1])
  {
    assert StepAt(run, m);
  }

  lemma {:induction false} SendCountAdds(run: Run, i: nat, j: nat, k: nat)
    requires i <= j <= k < |run.worlds|
    ensures SendCount(run, i, k) == SendCount(run, i, j) + SendCount(run, j, k)
  {
    if j < k { SendCountAdds(run, i, j, k - 1); }
  }

  lemma {:induction false} OneSend(run: Run, i: nat, m: nat, j: nat, r: Row)
    requires i <= m < j < |run.worlds| && MarksAt(run, m, r)
    ensures 1 <= SendCount(run, i, j)
  {
    MarkIsSend(run, m, r);
    SendCountAdds(run, i, m, j);
    SendCountAdds(run, m, m + 1, j);
    assert SendCount(run, m, m) == 0;
  }

  /** Whole rounds one after the other, all between `i` and `j`. */
  ghost predicate RoundsWithin(run: Run, i: nat, j: nat, rounds: seq<Round>) {
    && i <= j < |run.worlds|
    && (forall k | 0 <= k < |rounds| :: i <= rounds[k].fetch && rounds[k].end <= j && IsRound(run, rounds[k]))
    && (forall k | 0 < k < |rounds| :: rounds[k - 1].end <= rounds[k].fetch)
  }

  /** Every round that fetched something sent something. */
  lemma {:induction false} RoundsCost(run: Run, i: nat, j: nat, rounds: seq<Round>)
    requires RoundsWithin(run, i, j, rounds)
    requires forall k | 0 <= k < |rounds| :: run.labels[rounds[k].fetch].batch != []
    ensures |rounds| <= SendCount(run, i, j)
  {
    if rounds != [] {
      var n := |rounds| - 1;
      var r := rounds[n];
      forall k | 0 <= k < n ensures rounds[k].end <= r.fetch { EndsBefore(run, i, j, rounds, k, n); }
      RoundsCost(run, i, r.fetch, rounds[..n]);
      var first := run.labels[r.fetch].batch[0];
      EachWasMarked(run, r.fetch, r.end, |run.labels[r.fetch].batch|, 0);
      var m :| r.fetch + 1 <= m < r.end && MarksAt(run, m, first);
      OneSend(run, r.fetch, m, j, first);
      SendCountAdds(run, i, r.fetch, j);
    }
  }

  lemma {:induction false} EndsBefore(run: Run, i: nat, j: nat, rounds: seq<Round>, k: nat, n: nat)
    requires RoundsWithin(run, i, j, rounds) && k < n < |rounds|
    ensures rounds[k].end <= rounds[n].fetch
  {
    if k < n - 1 {
      EndsBefore(run, i, j, rounds, k, n - 1);
      assert IsRound(run, rounds[n - 1]);
    }
  }

  /** The fetch came back empty, no row being due. */
  ghost predicate FindsNothing(run: Run, f: nat) {
    f < |run.labels| && run.labels[f].Fetch? && run.labels[f].batch == []
    && forall id | id in run.worlds[f].store.rows ::
         !Due(run.worlds[f].store.streams, run.worlds[f].store.rows[id], run.worlds[f].w.now)
  }

  lemma EmptyFetch(run: Run, f: nat)
    requires f < |run.labels| && run.labels[f].Fetch? && run.labels[f].batch == []
    ensures FindsNothing(run, f)
  {
    assert StepAt(run, f);
    FetchFindsWork(run.worlds[f].store, run.worlds[f].w.now, run.labels[f].batch);
  }

  /** No report is owed, and no row that could be sent is put off until later. */
  ghost predicate AtRest(s: Store, now: int) {
    forall id | id in s.rows ::
      s.rows[id].state != InFlight
      && (s.rows[id].state == Pending && Head(s.streams, s.rows[id].ev) ==> s.rows[id].nextAttempt <= now)
  }

  /** After an empty fetch nothing more can be sent, ever, exactly if the store is at rest. */
  lemma EmptyFetchIsQuiescent(run: Run, f: nat)
    requires FindsNothing(run, f)
    ensures Quiescent(run.worlds[f].store) <==> AtRest(run.worlds[f].store, run.worlds[f].w.now)
  {
    var s, now := run.worlds[f].store, run.worlds[f].w.now;
    assert forall id | id in s.rows :: !Due(s.streams, s.rows[id], now);
  }

  /** Every row is dead, or pending behind a dead head or a gap. */
  ghost predicate AllBlocked(s: Store) {
    forall id | id in s.rows ::
      s.rows[id].state == Dead || (s.rows[id].state == Pending && Behind(s, s.rows[id]))
  }

  lemma RestIsBlocked(run: Run, f: nat)
    requires FindsNothing(run, f)
    ensures AtRest(run.worlds[f].store, run.worlds[f].w.now) ==> AllBlocked(run.worlds[f].store)
  {
    StoreHolds(run, f);
    EmptyFetchIsQuiescent(run, f);
    var s := run.worlds[f].store;
    if AtRest(s, run.worlds[f].w.now) {
      forall id | id in s.rows
        ensures s.rows[id].state == Dead || (s.rows[id].state == Pending && Behind(s, s.rows[id]))
      {
        QuiescentIsBlocked(s, id);
      }
    }
  }

  /** Main result.  While nothing is admitted, requeued or revived, the worker runs out of work: of any
      more whole rounds than the rows' remaining attempts, one finds no row due; and if nothing is in
      flight then and no retry put off, every row left is dead, or behind a dead head or a gap. */
  lemma WorkRunsOut(run: Run, i: nat, j: nat, rounds: seq<Round>)
    requires RoundsWithin(run, i, j, rounds) && forall k | i <= k < j :: AddsNothing(run.labels[k])
    requires SendsLeft(run.cfg, run.worlds[i].store) < |rounds|
    ensures exists k | 0 <= k < |rounds| :: EndsWork(run, rounds[k].fetch)
  {
    SendsAreBounded(run, i, j);
    if forall k | 0 <= k < |rounds| :: run.labels[rounds[k].fetch].batch != [] {
      RoundsCost(run, i, j, rounds);
    } else {
      var k :| 0 <= k < |rounds| && run.labels[rounds[k].fetch].batch == [];
      EmptyFetch(run, rounds[k].fetch);
      RestIsBlocked(run, rounds[k].fetch);
      assert EndsWork(run, rounds[k].fetch);
    }
  }

  ghost predicate EndsWork(run: Run, f: nat) {
    FindsNothing(run, f)
    && (AtRest(run.worlds[f].store, run.worlds[f].w.now) ==> AllBlocked(run.worlds[f].store))
  }
}

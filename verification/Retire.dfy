/** The offline retirement of a finished call: its cursor becomes a permanent fence. */
module OutboxRetire {
  import opened OutboxModel
  import opened OutboxInvariant
  import opened OutboxText

  function Retire(s: Store, c: CallId, at: int, reason: string, maxRows: int): Option<Store> {
    if Blank(reason) || c !in s.streams || s.streams[c].nextSeq != s.streams[c].admitSeq then None
    else if exists id :: id in s.rows && s.rows[id].ev.Cid() == c then None
    else if |s.fences| >= maxRows || c in s.fences then None
    else if |s.streams| - 1 > maxRows || |s.rows| > maxRows then None
    else
      var st := s.streams[c];
      Some(s.(fences := s.fences[c := Fence(st.key, st.nextSeq, at, reason)],
              streams := s.streams - {c}))
  }

  /** The command succeeds exactly with a reason, for a call with a cursor at the end of its window, no rows
      and no fence yet, if there is room; and writes its key, its cursor, the time and the reason. */
  lemma RetireDoes(s: Store, c: CallId, at: int, reason: string, maxRows: int)
    ensures Retire(s, c, at, reason, maxRows).Some? <==>
              && (exists k | 0 <= k < |reason| ::
                    !(reason[k] == ' ' || 9 <= reason[k] as int <= 13 || 28 <= reason[k] as int <= 31))
              && c in s.streams && s.streams[c].nextSeq == s.streams[c].admitSeq
              && (forall id | id in s.rows :: s.rows[id].ev.topic != c.topic || s.rows[id].ev.call != c.call)
              && |s.fences| < maxRows && c !in s.fences && |s.streams| - 1 <= maxRows && |s.rows| <= maxRows
    ensures Retire(s, c, at, reason, maxRows).Some? ==>
              var t := Retire(s, c, at, reason, maxRows).value;
              && t == s.(fences := t.fences, streams := t.streams) && t.streams == s.streams - {c}
              && t.fences == s.fences[c := Fence(s.streams[c].key, s.streams[c].nextSeq, at, reason)]
  {
    ReasonSays(reason);
    NoRowsIs(s, c);
  }

  lemma ReasonSays(reason: string)
    ensures !Blank(reason) <==>
              exists k | 0 <= k < |reason| ::
                !(reason[k] == ' ' || 9 <= reason[k] as int <= 13 || 28 <= reason[k] as int <= 31)
  {
    if !Blank(reason) {
      var k :| 0 <= k < |reason| && !IsSpace(reason[k]);
      assert !(reason[k] == ' ' || 9 <= reason[k] as int <= 13 || 28 <= reason[k] as int <= 31);
    } else {
      assert forall k | 0 <= k < |reason| :: IsSpace(reason[k]);
    }
  }

  lemma NoRowsIs(s: Store, c: CallId)
    ensures !(exists id :: id in s.rows && s.rows[id].ev.Cid() == c) <==>
            forall id | id in s.rows :: s.rows[id].ev.topic != c.topic || s.rows[id].ev.call != c.call
  {
  }

  /** A call whose window is empty has no rows, so the tool's row check adds nothing. */
  lemma ClosedWindowHasNoRows(s: Store, c: CallId)
    requires StoreInv(s) && c in s.streams && s.streams[c].nextSeq == s.streams[c].admitSeq
    ensures forall id | id in s.rows :: s.rows[id].ev.Cid() != c
  {
    forall id | id in s.rows ensures s.rows[id].ev.Cid() != c {
      assert RowOk(s.streams, s.rows[id]);
      assert StreamOk(s, c);
    }
  }

  lemma RetireKeeps(s: Store, c: CallId, at: int, reason: string, maxRows: int)
    requires StoreInv(s) && Retire(s, c, at, reason, maxRows).Some?
    ensures StoreInv(Retire(s, c, at, reason, maxRows).value)
  {
    var t := Retire(s, c, at, reason, maxRows).value;
    forall id | id in t.rows ensures RowOk(t.streams, t.rows[id]) {
      assert RowOk(s.streams, s.rows[id]);
    }
    assert StreamOk(s, c);
    forall d | d in t.streams ensures StreamOk(t, d) { assert StreamOk(s, d); }
    forall d, q: int | d in t.streams && t.streams[d].mode == Admission
                       && t.streams[d].nextSeq <= q < t.streams[d].admitSeq
      ensures Occupied(t.rows, d, q)
    {
      assert Occupied(s.rows, d, q);
    }
  }

  /** What an insert finds out about its own call: the fence, or the stream. */
  lemma FencedStaysOut(s: Store, a: Request, wall: int, lim: Limits)
    requires a.Ordered() && a.Cid() in s.fences
    ensures Insert(s, a, wall, lim) == Refused(Retired)
  {
  }

  /** The store with the cursor of `c` turned into a fence. */
  ghost predicate Fenced(s: Store, t: Store, c: CallId) {
    c in s.streams && c in t.fences
    && t == s.(fences := s.fences[c := t.fences[c]], streams := s.streams - {c})
  }

  lemma FencingPlaces(s: Store, t: Store, c: CallId, a: Request, lim: Limits)
    requires Fenced(s, t, c) && a.Cid() != c
    ensures if Place(s.streams, a, lim) == Unplaced(StreamCapacity) && |s.streams| == lim.maxRows
            then Place(t.streams, a, lim) != Unplaced(StreamCapacity)
            else Place(t.streams, a, lim) == Place(s.streams, a, lim)
    ensures Place(s.streams, a, lim).Given? ==>
              s.streams[a.Cid() := Place(s.streams, a, lim).stream] - {c}
              == t.streams[a.Cid() := Place(s.streams, a, lim).stream]
  {
    assert t.streams.Keys == s.streams.Keys - {c};
    assert |t.streams| == |t.streams.Keys| == |s.streams| - 1;
  }

  ghost predicate SameAnswer(s: Store, t: Store, c: CallId, before: Admit, after: Admit, slotFreed: bool) {
    if before == Refused(StreamCapacity) && slotFreed then after != Refused(StreamCapacity)
    else if before.Refused? then after == before
    else
      after.Admitted? && after.ev == before.ev
      && after.store == before.store.(fences := t.fences, streams := before.store.streams - {c})
  }

  /** Other calls' admissions answer as before the retirement, except that the slot it frees lets
      in a first event the stream limit would have refused. */
  lemma RetireLeavesOthers(s: Store, c: CallId, at: int, reason: string, maxRows: int,
                           a: Request, wall: int, lim: Limits)
    requires Retire(s, c, at, reason, maxRows).Some? && (a.Ordered() ==> a.Cid() != c)
    ensures var t := Retire(s, c, at, reason, maxRows).value;
            SameAnswer(s, t, c, Insert(s, a, wall, lim), Insert(t, a, wall, lim),
                       |s.streams| == lim.maxRows)
  {
    var t := Retire(s, c, at, reason, maxRows).value;
    assert Fenced(s, t, c);
    if a.Ordered() {
      FencingAnswersOrdered(s, t, c, a, wall, lim);
    }
  }

  lemma FencingAnswersOrdered(s: Store, t: Store, c: CallId, a: Request, wall: int, lim: Limits)
    requires Fenced(s, t, c) && a.Ordered() && a.Cid() != c
    ensures SameAnswer(s, t, c, Insert(s, a, wall, lim), Insert(t, a, wall, lim),
                       |s.streams| == lim.maxRows)
  {
    FencingPlaces(s, t, c, a, lim);
    if Place(s.streams, a, lim).Given? { FencingInserts(s, t, c, a, wall, lim); }
  }

  /** A placed request is inserted alike, or refused alike. */
  lemma FencingInserts(s: Store, t: Store, c: CallId, a: Request, wall: int, lim: Limits)
    requires Fenced(s, t, c) && a.Ordered() && a.Cid() != c
    requires Place(s.streams, a, lim).Given? && Place(t.streams, a, lim) == Place(s.streams, a, lim)
    ensures SameAnswer(s, t, c, Insert(s, a, wall, lim), Insert(t, a, wall, lim), false)
  {
    var st := Place(s.streams, a, lim).stream;
    var q := Place(s.streams, a, lim).seqNo;
    var st' := st.(admitSeq := Max(st.admitSeq, q + 1));
    assert s.streams[a.Cid() := st'] - {c} == t.streams[a.Cid() := st'];
  }
}

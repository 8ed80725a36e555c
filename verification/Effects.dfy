/** What each outbox operation does, in the fields of the rows and cursors themselves: when it succeeds,
    what it writes, and that it writes nothing else. */
module OutboxEffects {
  import opened OutboxModel

  /** The event is outside calls, or it stands at its call's cursor. */
  predicate AtCursor(s: Store, ev: Event) {
    ev.call == ""
    || (CallId(ev.topic, ev.call) in s.streams
        && ev.seqNo == Some(s.streams[CallId(ev.topic, ev.call)].nextSeq))
  }

  /** No row but `id` is touched, and nothing outside the rows. */
  ghost predicate OnlyRow(s: Store, t: Store, id: EventId) {
    t.streams == s.streams && t.fences == s.fences && t.turn == s.turn && t.nextRowid == s.nextRowid
    && t.rows.Keys == s.rows.Keys && forall k | k in s.rows && k != id :: t.rows[k] == s.rows[k]
  }

  // ---------------------------------------------------------------- sending

  /** A mark succeeds exactly on a pending row that stands at its cursor, while the scheduler has a turn
      left; it counts the attempt, and gives the next turn to the row's call and to no other. */
  lemma MarkInFlightDoes(s: Store, id: EventId, wall: int)
    ensures MarkInFlight(s, id, wall).Some? <==>
              id in s.rows && s.rows[id].state == Pending && AtCursor(s, s.rows[id].ev)
              && s.turn < 9_223_372_036_854_775_807
    ensures MarkInFlight(s, id, wall).Some? ==>
              var t, r := MarkInFlight(s, id, wall).value, s.rows[id];
              && OnlyRow(s.(streams := t.streams, turn := s.turn + 1), t, id)
              && t.rows[id] == r.(state := InFlight, attempts := r.attempts + 1, updated := wall)
              && t.streams.Keys == s.streams.Keys
              && forall c | c in s.streams ::
                   t.streams[c] == if c == CallId(r.ev.topic, r.ev.call)
                                   then s.streams[c].(lastServed := s.turn + 1) else s.streams[c]
  {
  }

  /** An acknowledgement succeeds exactly on a row in flight that is outside calls or at its cursor; an
      absent sequence reads as 0. */
  lemma MarkAckedAccepts(s: Store, id: EventId, wall: int)
    ensures MarkAcked(s, id, wall).Some? <==>
              && id in s.rows && s.rows[id].state == InFlight
              && var e := s.rows[id].ev;
                 AtCursor(s, if e.seqNo == None then e.(seqNo := Some(0)) else e)
  {
  }

  /** It deletes that row, moves its call's cursor on by one, and gives the row at the new position, if it
      has no age yet, the present moment as its age. */
  lemma MarkAckedDoes(s: Store, id: EventId, wall: int)
    requires MarkAcked(s, id, wall).Some?
    ensures var t, e := MarkAcked(s, id, wall).value, s.rows[id].ev;
            var c := CallId(e.topic, e.call);
            && t == s.(rows := t.rows, streams := t.streams) && t.rows.Keys == s.rows.Keys - {id}
            && t.streams.Keys == s.streams.Keys
            && (forall d | d in s.streams ::
                  t.streams[d] == if e.call != "" && d == c
                                  then s.streams[d].(nextSeq := s.streams[d].nextSeq + 1) else s.streams[d])
            && forall k | k in s.rows && k != id ::
                 t.rows[k] == if e.call != "" && k in Successors(s, c) then s.rows[k].(eligible := Some(wall))
                              else s.rows[k]
  {
  }

  /** The rows of the call right past its cursor that have no age. */
  function Successors(s: Store, c: CallId): set<EventId> {
    set k | k in s.rows && s.rows[k].ev.topic == c.topic && s.rows[k].ev.call == c.call && c in s.streams
            && s.rows[k].ev.seqNo == Some(s.streams[c].nextSeq + 1) && s.rows[k].eligible == None
  }

  // ---------------------------------------------------------------- moves between states

  /** The row's retry data, and neither its attempts nor its age. */
  lemma MarkRetryDoes(s: Store, id: EventId, next: int, error: string, wall: int)
    ensures MarkRetry(s, id, next, error, wall).Some? <==> id in s.rows && s.rows[id].state == InFlight
    ensures MarkRetry(s, id, next, error, wall).Some? ==>
              var t := MarkRetry(s, id, next, error, wall).value;
              OnlyRow(s, t, id)
              && t.rows[id] == s.rows[id].(state := Pending, nextAttempt := next, lastError := error, updated := wall)
  {
  }

  /** Any row that is not dead yet, with the error it died of. */
  lemma MarkDeadDoes(s: Store, id: EventId, error: string, wall: int)
    ensures MarkDead(s, id, error, wall).Some? <==> id in s.rows && s.rows[id].state in {Pending, InFlight}
    ensures MarkDead(s, id, error, wall).Some? ==>
              var t := MarkDead(s, id, error, wall).value;
              OnlyRow(s, t, id) && t.rows[id] == s.rows[id].(state := Dead, lastError := error, updated := wall)
  {
  }

  /** The operator's retry: due at once, no error left, attempts and age as they were. */
  lemma RetryDeadDoes(s: Store, id: EventId, next: int, wall: int)
    ensures RetryDead(s, id, next, wall).Some? <==> id in s.rows && s.rows[id].state == Dead
    ensures RetryDead(s, id, next, wall).Some? ==>
              var t := RetryDead(s, id, next, wall).value;
              OnlyRow(s, t, id)
              && t.rows[id] == s.rows[id].(state := Pending, nextAttempt := next, lastError := "", updated := wall)
  {
  }

  /** Every row in flight, whatever its attempts, keeps everything but its state and due time. */
  lemma RequeueDoes(s: Store, next: int, wall: int)
    ensures var t := Requeue(s, next, wall);
            && t == s.(rows := t.rows) && t.rows.Keys == s.rows.Keys
            && forall id | id in s.rows ::
                 t.rows[id] == if s.rows[id].state == InFlight
                               then s.rows[id].(state := Pending, nextAttempt := next, updated := wall)
                               else s.rows[id]
  {
  }

  /** The row has been deliverable for longer than the TTL; when it may be tried next does not matter. */
  predicate Overage(s: Store, r: Row, now: int, ttl: int) {
    r.state == Pending && AtCursor(s, r.ev) && r.eligible.Some? && now - r.eligible.value > ttl
  }

  /** Main result.  An expiry with a TTL kills all the rows past it and no other, and without one does
      nothing. */
  lemma ExpireDoes(s: Store, now: int, ttl: int)
    ensures var t := Expire(s, now, ttl);
            && t == s.(rows := t.rows) && t.rows.Keys == s.rows.Keys
            && forall id | id in s.rows ::
                 t.rows[id] == if ttl > 0 && Overage(s, s.rows[id], now, ttl)
                               then s.rows[id].(state := Dead, lastError := "expired_ttl", updated := now)
                               else s.rows[id]
  {
  }

  /** So after it no deliverable row, due or put off, is past its age. */
  lemma NoneLeftOverage(s: Store, now: int, ttl: int, id: EventId)
    requires ttl > 0 && id in s.rows
    ensures var t := Expire(s, now, ttl); !Overage(t, t.rows[id], now, ttl)
  {
  }

  // ---------------------------------------------------------------- failures

  /** Main result.  A failure is settled exactly for a row in flight.  The row dies if and only if the
      error is permanent or its attempts have reached the maximum; else it is pending again, due at the
      time given.  Either way it keeps the error, its attempts and its age, and the answer tells which. */
  lemma SettleDoes(s: Store, id: EventId, maxAttempts: int, permanent: bool, error: string, next: int, wall: int)
    ensures var r := Settle(s, id, maxAttempts, permanent, error, next, wall);
            && (r.Some? <==> id in s.rows && s.rows[id].state == InFlight)
            && (r.Some? ==>
                  var t, was := r.value.0, s.rows[id];
                  var dies := permanent || was.attempts >= maxAttempts;
                  && OnlyRow(s, t, id) && t.rows[id] == SettledRow(was, dies, error, next, wall)
                  && r.value.1 == if dies then DeadLetter else Retry)
  {
  }

  function SettledRow(r: Row, dies: bool, error: string, next: int, wall: int): Row {
    if dies then r.(state := Dead, lastError := error, updated := wall)
    else r.(state := Pending, nextAttempt := next, lastError := error, updated := wall)
  }

  // ---------------------------------------------------------------- admission

  /** The rows, or their payloads with one more, are at their limit. */
  ghost predicate Crowded(rows: Rows, size: nat, lim: Limits) {
    |rows| >= lim.maxRows || Bytes(rows) + size > lim.maxBytes
  }

  /** The rows an admission leaves: all of them, or all but expired ones outside calls. */
  ghost function Kept(s: Store, size: nat, lim: Limits): Rows {
    map id | id in s.rows
             && !(Crowded(s.rows, size, lim)
                  && s.rows[id].state == Dead && s.rows[id].lastError == "expired_ttl" && s.rows[id].ev.call == "")
      :: s.rows[id]
  }

  lemma KeptIs(s: Store, size: nat, lim: Limits)
    ensures MakeRoom(s.rows, size, lim) == Kept(s, size, lim)
  {
  }

  /** There is a way in: the call is not retired, and there is room once expired rows are reclaimed. */
  ghost predicate WayIn(s: Store, a: Request, lim: Limits) {
    && !(a.call != "" && CallId(a.topic, a.call) in s.fences)
    && !Crowded(Kept(s, |a.payload|, lim), |a.payload|, lim)
  }

  /** The call is known under this key and this way of numbering. */
  predicate Agrees(st: Stream, a: Request) {
    st.key == a.key && (st.mode == Source <==> a.seqNo >= 0)
  }

  /** The position asked for; the next ordinal if none is. */
  function Position(s: Store, a: Request): int {
    var c := CallId(a.topic, a.call);
    if a.seqNo >= 0 then a.seqNo else if c in s.streams then s.streams[c].admitSeq else 0
  }

  /** The request fits the call it names, known or new. */
  ghost predicate FitsCall(s: Store, a: Request, lim: Limits) {
    var c := CallId(a.topic, a.call);
    && a.key != ""
    && (if c in s.streams then Agrees(s.streams[c], a) && (a.seqNo >= 0 ==> a.seqNo >= s.streams[c].nextSeq)
        else |s.streams| < lim.maxRows)
  }

  predicate InRange64(q: int) { 0 <= q < 9_223_372_036_854_775_807 }

  /** The request may be admitted, but for its id and position. */
  ghost predicate Acceptable(s: Store, a: Request, lim: Limits) {
    WayIn(s, a, lim)
    && if a.call == "" then a.seqNo < 0 else FitsCall(s, a, lim) && InRange64(Position(s, a))
  }

  /** Neither the id nor the position is held by a row that stays. */
  ghost predicate Free(s: Store, a: Request, lim: Limits) {
    var kept := Kept(s, |a.payload|, lim);
    && a.id !in kept
    && (a.call != "" ==> forall id | id in kept ::
          !(kept[id].ev.topic == a.topic && kept[id].ev.call == a.call && kept[id].ev.seqNo == Some(Position(s, a))))
  }

  /** Main result.  An admission succeeds exactly if the request is acceptable and free, and the event
      then has the position asked for, or the call's next ordinal. */
  lemma InsertAccepts(s: Store, a: Request, wall: int, lim: Limits)
    ensures Insert(s, a, wall, lim).Admitted? <==> Acceptable(s, a, lim) && Free(s, a, lim)
    ensures Insert(s, a, wall, lim).Admitted? ==>
              Insert(s, a, wall, lim).ev
              == Event(a.id, a.topic, a.key, a.call, if a.call == "" then None else Some(Position(s, a)), a.payload)
  {
    KeptIs(s, |a.payload|, lim);
  }

  /** Each error has its condition. */
  lemma RefusalsAre(s: Store, a: Request, wall: int, lim: Limits)
    ensures var r := Insert(s, a, wall, lim);
            var c := CallId(a.topic, a.call);
            var open := WayIn(s, a, lim);
            var placed := open && a.call != "" && a.key != "";
            && (r == Refused(Retired) <==> a.call != "" && c in s.fences)
            && (r == Refused(Capacity) <==> !open && !(a.call != "" && c in s.fences))
            && (r == Refused(SequenceWithoutCall) <==> open && a.call == "" && a.seqNo >= 0)
            && (r == Refused(MissingKey) <==> open && a.call != "" && a.key == "")
            && (r == Refused(KeyOrModeChanged) <==> placed && c in s.streams && !Agrees(s.streams[c], a))
            && (r == Refused(AlreadyAcked) <==>
                  placed && c in s.streams && Agrees(s.streams[c], a) && 0 <= a.seqNo < s.streams[c].nextSeq)
            && (r == Refused(StreamCapacity) <==> placed && c !in s.streams && |s.streams| >= lim.maxRows)
            && (r == Refused(SequenceRange) <==>
                  open && a.call != "" && FitsCall(s, a, lim) && !InRange64(Position(s, a)))
            && (r == Refused(Duplicate) <==> Acceptable(s, a, lim) && !Free(s, a, lim))
  {
    KeptIs(s, |a.payload|, lim);
  }

  /** What an admission writes: a pending row without attempts, created and due when the request says, with
      an age exactly if it stands at the cursor; and a window that reaches past it. */
  lemma InsertWrites(s: Store, a: Request, wall: int, lim: Limits)
    requires Insert(s, a, wall, lim).Admitted?
    ensures var t, ev := Insert(s, a, wall, lim).store, Insert(s, a, wall, lim).ev;
            var c, q := CallId(a.topic, a.call), Position(s, a);
            var was := if c in s.streams then s.streams[c]
                       else Stream(a.key, if a.seqNo < 0 then Admission else Source, 0, 0, 0);
            var now := if a.created == 0 then wall else a.created;
            var age := if a.call == "" || q == was.nextSeq then Some(now) else None;
            && t.rows == Kept(s, |a.payload|, lim)[a.id :=
                 Row(ev, Pending, 0, if a.nextAttempt == 0 then now else a.nextAttempt, "", now, now, age, s.nextRowid)]
            && t.streams == (if a.call == "" then s.streams else
                 s.streams[c := was.(admitSeq := if q < was.admitSeq then was.admitSeq else q + 1)])
            && t == s.(rows := t.rows, streams := t.streams, nextRowid := s.nextRowid + 1)
  {
    KeptIs(s, |a.payload|, lim);
  }

  /** An event of a call numbered by its caller that is next in turn is never refused as late. */
  lemma NextInTurnIsAdmitted(s: Store, a: Request, wall: int, lim: Limits)
    requires WayIn(s, a, lim) && Free(s, a, lim) && a.call != "" && CallId(a.topic, a.call) in s.streams
    requires Agrees(s.streams[CallId(a.topic, a.call)], a) && a.key != "" && InRange64(a.seqNo)
    requires a.seqNo == s.streams[CallId(a.topic, a.call)].nextSeq
    ensures Insert(s, a, wall, lim).Admitted?
  {
    InsertAccepts(s, a, wall, lim);
  }
}

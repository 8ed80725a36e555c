/** The values the outbox stores, and each outbox operation as a guarded atomic change of a store.

  A store is the committed content of the database: rows by event id, one cursor per (topic, call),
  retirement fences, and the scheduler turn.  `None` as a result is a thrown error: the
  transaction is rolled back, so the store is what it was. */
module OutboxModel {
  datatype Option<+T> = None | Some(value: T)

  type EventId = string

  datatype CallId = CallId(topic: string, call: string)

  /** The part of a record that never changes after admission; also what Kafka is handed. */
  datatype Event = Event(id: EventId, topic: string, key: string, call: string,
                         seqNo: Option<int>, payload: string) {
    predicate Ordered() { |call| > 0 }

    function Cid(): CallId { CallId(topic, call) }
  }

  datatype RowState = Pending | InFlight | Dead

  datatype Row = Row(ev: Event, state: RowState, attempts: int, nextAttempt: int,
                     lastError: string, created: int, updated: int,
                     eligible: Option<int>, rowid: nat)

  datatype Mode = Admission | Source

  datatype Stream = Stream(key: string, mode: Mode, nextSeq: int, admitSeq: int, lastServed: int)

  datatype Fence = Fence(key: string, nextSeq: int, retiredAt: int, reason: string)

  type Rows = map<EventId, Row>
  type Streams = map<CallId, Stream>

  datatype Store = Store(rows: Rows, streams: Streams, fences: map<CallId, Fence>,
                         turn: int, nextRowid: nat)

  datatype Limits = Limits(maxRows: int, maxBytes: int)

  const INT64_MAX := 0x7fff_ffff_ffff_ffff
  const EXPIRED := "expired_ttl"

  /** The row's event may be sent now: it is ungrouped, or it sits at its call's cursor. */
  predicate Head(streams: Streams, ev: Event) {
    !ev.Ordered() || (ev.Cid() in streams && ev.seqNo == Some(streams[ev.Cid()].nextSeq))
  }

  predicate Due(streams: Streams, r: Row, now: int) {
    r.state == Pending && r.nextAttempt <= now && Head(streams, r.ev)
  }

  function Served(streams: Streams, r: Row): int {
    if r.ev.Cid() in streams then streams[r.ev.Cid()].lastServed else 0
  }

  // ---------------------------------------------------------------- admission

  /** What a caller hands to insert_pending; `seqNo < 0` asks for an admission ordinal. */
  datatype Request = Request(id: EventId, topic: string, key: string, call: string, seqNo: int,
                             payload: string, created: int, nextAttempt: int) {
    predicate Ordered() { |call| > 0 }

    function Cid(): CallId { CallId(topic, call) }

    function Mode(): Mode { if seqNo < 0 then Admission else Source }
  }

  datatype AdmitError =
    | Retired | Capacity | MissingKey | KeyOrModeChanged | AlreadyAcked | StreamCapacity
    | SequenceRange | SequenceWithoutCall | Duplicate

  datatype Admit = Admitted(store: Store, ev: Event) | Refused(error: AdmitError)

  /** The sum of a weight over all rows. */
  ghost function Total(rows: Rows, weight: Row -> nat): nat {
    if rows == map[] then 0 else
      var id :| id in rows;
      weight(rows[id]) + Total(rows - {id}, weight)
  }

  function PayloadSize(r: Row): nat { |r.ev.payload| }

  ghost function Bytes(rows: Rows): nat { Total(rows, PayloadSize) }

  ghost predicate Full(rows: Rows, size: nat, lim: Limits) {
    |rows| >= lim.maxRows || Bytes(rows) + size > lim.maxBytes
  }

  predicate Reclaimable(r: Row) {
    r.state == Dead && r.lastError == EXPIRED && !r.ev.Ordered()
  }

  function Reclaimed(rows: Rows): (kept: Rows) {
    map id | id in rows && !Reclaimable(rows[id]) :: rows[id]
  }

  /** The rows left when an insert of `size` payload bytes has made the room it can. */
  ghost function MakeRoom(rows: Rows, size: nat, lim: Limits): Rows {
    if Full(rows, size, lim) then Reclaimed(rows) else rows
  }

  /** The position an ordered request is given, and the stream it belongs to with its cursor as
      it was; a new call starts a stream at 0. */
  datatype Placing = Given(seqNo: int, stream: Stream) | Unplaced(error: AdmitError)

  function Place(streams: Streams, a: Request, lim: Limits): Placing {
    if |a.key| == 0 then Unplaced(MissingKey)
    else if a.Cid() in streams then
      var st := streams[a.Cid()];
      if st.key != a.key || st.mode != a.Mode() then Unplaced(KeyOrModeChanged)
      else if 0 <= a.seqNo < st.nextSeq then Unplaced(AlreadyAcked)
      else InRange(if a.seqNo < 0 then st.admitSeq else a.seqNo, st)
    else if |streams| >= lim.maxRows then Unplaced(StreamCapacity)
    else InRange(if a.seqNo < 0 then 0 else a.seqNo, Stream(a.key, a.Mode(), 0, 0, 0))
  }

  /** Positions are 64-bit, so the largest is the only one past the range. */
  function InRange(q: int, st: Stream): Placing {
    if q < 0 || INT64_MAX <= q then Unplaced(SequenceRange) else Given(q, st)
  }

  function Max(x: int, y: int): int { if x < y then y else x }

  predicate SamePosition(e: Event, f: Event) {
    e.Ordered() && f.Ordered() && e.Cid() == f.Cid() && e.seqNo.Some? && e.seqNo == f.seqNo
  }

  /** The primary key and the unique (topic, call, seq) index admit the event. */
  predicate Unique(rows: Rows, ev: Event) {
    ev.id !in rows && forall id | id in rows :: !SamePosition(rows[id].ev, ev)
  }

  function NewRow(a: Request, ev: Event, eligible: bool, wall: int, rowid: nat): Row {
    var now := if a.created != 0 then a.created else wall;
    Row(ev, Pending, 0, if a.nextAttempt != 0 then a.nextAttempt else now, "", now, now,
        if eligible then Some(now) else None, rowid)
  }

  ghost function Insert(s: Store, a: Request, wall: int, lim: Limits): Admit {
    var rows := MakeRoom(s.rows, |a.payload|, lim);
    if a.Ordered() && a.Cid() in s.fences then Refused(Retired)
    else if Full(rows, |a.payload|, lim) then Refused(Capacity)
    else if !a.Ordered() then
      var ev := Event(a.id, a.topic, a.key, a.call, None, a.payload);
      if a.seqNo >= 0 then Refused(SequenceWithoutCall)
      else if !Unique(rows, ev) then Refused(Duplicate)
      else Admitted(s.(rows := rows[a.id := NewRow(a, ev, true, wall, s.nextRowid)],
                       nextRowid := s.nextRowid + 1), ev)
    else
      match Place(s.streams, a, lim)
      case Unplaced(error) => Refused(error)
      case Given(q, st) =>
        var ev := Event(a.id, a.topic, a.key, a.call, Some(q), a.payload);
        if !Unique(rows, ev) then Refused(Duplicate)
        else Admitted(s.(rows := rows[a.id := NewRow(a, ev, q == st.nextSeq, wall, s.nextRowid)],
                         streams := s.streams[a.Cid() := st.(admitSeq := Max(st.admitSeq, q + 1))],
                         nextRowid := s.nextRowid + 1), ev)
  }

  // ---------------------------------------------------------------- sending and settling

  function Serve(streams: Streams, c: CallId, turn: int): Streams {
    if c in streams then streams[c := streams[c].(lastServed := turn)] else streams
  }

  function MarkInFlight(s: Store, id: EventId, wall: int): Option<Store> {
    if id in s.rows && s.rows[id].state == Pending && Head(s.streams, s.rows[id].ev)
       && s.turn < INT64_MAX then
      var r := s.rows[id];
      Some(s.(rows := s.rows[id := r.(state := InFlight, attempts := r.attempts + 1, updated := wall)],
              turn := s.turn + 1,
              streams := Serve(s.streams, r.ev.Cid(), s.turn + 1)))
    else None
  }

  /** The row at position `q` of call `c` becomes deliverable at `wall`. */
  function Promote(rows: Rows, c: CallId, q: int, wall: int): Rows {
    map id | id in rows ::
      if rows[id].ev.Cid() == c && rows[id].ev.seqNo == Some(q) && rows[id].eligible == None
      then rows[id].(eligible := Some(wall)) else rows[id]
  }

  function MarkAcked(s: Store, id: EventId, wall: int): Option<Store> {
    if id !in s.rows || s.rows[id].state != InFlight then None
    else
      var ev := s.rows[id].ev;
      if !ev.Ordered() then Some(s.(rows := s.rows - {id}))
      else
        var c := ev.Cid();
        var q := if ev.seqNo.Some? then ev.seqNo.value else 0;
        if c !in s.streams || s.streams[c].nextSeq != q then None
        else Some(s.(rows := Promote(s.rows, c, q + 1, wall) - {id},
                     streams := s.streams[c := s.streams[c].(nextSeq := q + 1)]))
  }

  function MarkRetry(s: Store, id: EventId, next: int, error: string, wall: int): Option<Store> {
    if id in s.rows && s.rows[id].state == InFlight then
      Some(s.(rows := s.rows[id := s.rows[id].(state := Pending, nextAttempt := next,
                                               lastError := error, updated := wall)]))
    else None
  }

  function MarkDead(s: Store, id: EventId, error: string, wall: int): Option<Store> {
    if id in s.rows && s.rows[id].state != Dead then
      Some(s.(rows := s.rows[id := s.rows[id].(state := Dead, lastError := error, updated := wall)]))
    else None
  }

  /** The operator's retry reads the clock twice, and resets neither attempts nor eligibility. */
  function RetryDead(s: Store, id: EventId, next: int, wall: int): Option<Store> {
    if id in s.rows && s.rows[id].state == Dead then
      Some(s.(rows := s.rows[id := s.rows[id].(state := Pending, nextAttempt := next,
                                               updated := wall, lastError := "")]))
    else None
  }

  function Requeue(s: Store, next: int, wall: int): Store {
    s.(rows := map id | id in s.rows ::
         if s.rows[id].state == InFlight
         then s.rows[id].(state := Pending, nextAttempt := next, updated := wall) else s.rows[id])
  }

  predicate Expires(streams: Streams, r: Row, now: int, ttl: int) {
    r.state == Pending && r.eligible.Some? && now - r.eligible.value > ttl && Head(streams, r.ev)
  }

  function Expire(s: Store, now: int, ttl: int): Store {
    if ttl <= 0 then s else
      s.(rows := map id | id in s.rows ::
           if Expires(s.streams, s.rows[id], now, ttl)
           then s.rows[id].(state := Dead, lastError := EXPIRED, updated := now) else s.rows[id])
  }

  // ---------------------------------------------------------------- send failures

  datatype Settled = Retry | DeadLetter

  /** One policy for failed hand-overs and failed delivery reports. */
  function Settle(s: Store, id: EventId, maxAttempts: int, permanent: bool, error: string,
                  next: int, wall: int): Option<(Store, Settled)> {
    if id !in s.rows || s.rows[id].state != InFlight then None
    else if permanent || s.rows[id].attempts >= maxAttempts then
      Some((MarkDead(s, id, error, wall).value, DeadLetter))
    else
      Some((MarkRetry(s, id, next, error, wall).value, Retry))
  }
}

/** The offline migration of an unordered database: every backlog gets admission ordinals in a
  declared order, and nothing else changes. */
module OutboxMigrate {
  import opened OutboxModel
  import opened OutboxInvariant
  import opened OutboxUpgrade

  // ---------------------------------------------------------------- the declared order

  predicate TextBefore(a: string, b: string) {
    b != [] && (a == [] || a[0] < b[0] || (a[0] == b[0] && TextBefore(a[1..], b[1..])))
  }

  lemma {:induction false} TextOrder(a: string, b: string)
    ensures a == b || TextBefore(a, b) || TextBefore(b, a)
    ensures !(TextBefore(a, b) && TextBefore(b, a)) && !TextBefore(a, a)
  {
    if a != [] {
      TextOrder(a[1..], a[1..]);
      if b != [] && a[0] == b[0] {
        TextOrder(a[1..], b[1..]);
        assert a == [a[0]] + a[1..] && b == [b[0]] + b[1..];
      }
    }
  }

  lemma {:induction false} TextTransitive(a: string, b: string, c: string)
    requires TextBefore(a, b) && TextBefore(b, c)
    ensures TextBefore(a, c)
  {
    if a != [] && a[0] == b[0] == c[0] { TextTransitive(a[1..], b[1..], c[1..]); }
  }

  /** created_at_ms, then event_id. */
  predicate Precedes(a: Row, b: Row) {
    a.created < b.created || (a.created == b.created && TextBefore(a.ev.id, b.ev.id))
  }

  lemma PrecedesTransitive(a: Row, b: Row, c: Row)
    requires Precedes(a, b) && Precedes(b, c)
    ensures Precedes(a, c)
  {
    if a.created == b.created == c.created { TextTransitive(a.ev.id, b.ev.id, c.ev.id); }
  }

  predicate InOrder(rows: seq<Row>) {
    forall i, j | 0 <= i < j < |rows| :: Precedes(rows[i], rows[j])
  }

  // ---------------------------------------------------------------- what migration promises

  /** A database without order columns. */
  predicate Legacy(rows: Rows) {
    && (forall id | id in rows :: rows[id].ev.id == id && rows[id].ev.seqNo == None && rows[id].eligible == None)
    && (forall id, id' | id in rows && id' in rows && id != id' :: rows[id].rowid != rows[id'].rowid)
  }

  function Groups(rows: Rows): set<CallId> {
    set id | id in rows && rows[id].ev.Ordered() :: rows[id].ev.Cid()
  }

  /** Every field but the ordinal: what the tool's fingerprint covers. */
  function Fields(rows: Rows): Rows {
    map id | id in rows :: rows[id].(ev := rows[id].ev.(seqNo := None))
  }

  /** The group's rows stand at 0, 1, ..., n-1 in the declared order, under one nonempty key. */
  ghost predicate Numbered(rows: Rows, streams: Streams, c: CallId) {
    c in streams && var st := streams[c];
    && st == Stream(st.key, Admission, 0, st.admitSeq, 0) && |st.key| > 0
    && (forall q | 0 <= q < st.admitSeq :: Occupied(rows, c, q))
    && (forall id | id in rows && rows[id].ev.Cid() == c ::
          rows[id].ev.key == st.key && rows[id].ev.seqNo.Some? && 0 <= rows[id].ev.seqNo.value < st.admitSeq)
    && (forall id, id' {:trigger Precedes(rows[id], rows[id'])}
          | id in rows && id' in rows && rows[id].ev.Cid() == c && rows[id'].ev.Cid() == c ::
          (Precedes(rows[id], rows[id']) <==> rows[id].ev.seqNo.value < rows[id'].ev.seqNo.value))
  }

  ghost predicate IsMigration(legacy: Rows, rows: Rows, streams: Streams) {
    && Fields(rows) == legacy
    && streams.Keys == Groups(legacy)
    && (forall c | c in streams :: Numbered(rows, streams, c))
    && (forall id | id in rows && !rows[id].ev.Ordered() :: rows[id].ev.seqNo == None)
  }

  /** A row as the old database has it: its state is a text. */
  datatype RawRow = RawRow(state: string, row: Row)

  predicate KnownState(text: string) { text in {"pending", "in_flight", "dead"} }

  function StateOf(text: string): RowState {
    if text == "in_flight" then InFlight else if text == "dead" then Dead else Pending
  }

  function ReadIn(raw: map<EventId, RawRow>): Rows {
    map id | id in raw :: raw[id].row.(state := StateOf(raw[id].state))
  }

  datatype MigrateError = UnsupportedSchema | AlreadyOrdered | UnknownState | InconsistentKey | CapacityInsufficient

  datatype Migration = Migrated(disk: Disk) | NotMigrated(error: MigrateError)

  /** All rows of the call carry one nonempty key. */
  predicate KeyAgreed(rows: Rows, c: CallId) {
    forall id, id' | id in rows && id' in rows && rows[id].ev.Cid() == c && rows[id'].ev.Cid() == c ::
      rows[id].ev.key == rows[id'].ev.key && |rows[id].ev.key| > 0
  }

  /** Why a database is refused, if it is: the first condition, in this order, that fails. */
  predicate Refuses(version: int, sequenced: bool, raw: map<EventId, RawRow>, maxRows: int, e: MigrateError) {
    var rows := ReadIn(raw);
    if version > SCHEMA then e == UnsupportedSchema
    else if sequenced then e == AlreadyOrdered
    else if exists id :: id in raw && !KnownState(raw[id].state) then e == UnknownState
    else if exists c :: c in Groups(rows) && !KeyAgreed(rows, c) then e == InconsistentKey
    else e == CapacityInsufficient && (|Groups(rows)| > maxRows || |rows| > maxRows)
  }

  // ---------------------------------------------------------------- the tool's statements

  /** Puts one more row of a group where the declared order wants it. */
  method Sift(out: seq<Row>, r: Row) returns (next: seq<Row>)
    requires InOrder(out) && forall i | 0 <= i < |out| :: out[i].ev.id != r.ev.id
    ensures InOrder(next) && |next| == |out| + 1
    ensures forall x :: x in next <==> x in out || x == r
  {
    var k := |out|;
    while 0 < k && Precedes(r, out[k - 1])
      invariant 0 <= k <= |out|
      invariant forall i | k <= i < |out| :: Precedes(r, out[i])
    {
      k := k - 1;
    }
    forall i | 0 <= i < k ensures Precedes(out[i], r) {
      TextOrder(r.ev.id, out[k - 1].ev.id);
      if i < k - 1 { PrecedesTransitive(out[i], out[k - 1], r); }
    }
    next := out[..k] + [r] + out[k..];
    SiftedIn(out, k, r);
    assert out == out[..k] + out[k..];
  }

  lemma SiftedIn(out: seq<Row>, k: nat, r: Row)
    requires InOrder(out) && k <= |out|
    requires forall i | 0 <= i < k :: Precedes(out[i], r)
    requires forall i | k <= i < |out| :: Precedes(r, out[i])
    ensures InOrder(out[..k] + [r] + out[k..])
  {
    var next := out[..k] + [r] + out[k..];
    forall i, j | 0 <= i < j < |next| ensures Precedes(next[i], next[j]) {
      assert next[i] == if i < k then out[i] else if i == k then r else out[i - 1];
      assert next[j] == if j < k then out[j] else if j == k then r else out[j - 1];
    }
  }

  /** SELECT ... WHERE topic=? AND call_uuid=? ORDER BY created_at_ms,event_id. */
  method SelectGroup(rows: Rows, c: CallId) returns (members: seq<Row>)
    requires forall id | id in rows :: rows[id].ev.id == id
    ensures InOrder(members)
    ensures forall r | r in members :: r.ev.id in rows && rows[r.ev.id] == r && r.ev.Cid() == c
    ensures forall id | id in rows && rows[id].ev.Cid() == c :: rows[id] in members
  {
    members := [];
    var todo := rows.Keys;
    while todo != {}
      invariant todo <= rows.Keys
      invariant InOrder(members)
      invariant forall r | r in members :: r.ev.id in rows && rows[r.ev.id] == r && r.ev.Cid() == c
      invariant forall r | r in members :: r.ev.id !in todo
      invariant forall id | id in rows && id !in todo && rows[id].ev.Cid() == c :: rows[id] in members
    {
      var id :| id in todo;
      if rows[id].ev.Cid() == c {
        assert forall i | 0 <= i < |members| :: members[i] in members;
        members := Sift(members, rows[id]);
      }
      todo := todo - {id};
    }
  }

  function WithSeq(r: Row, q: int): Row { r.(ev := r.ev.(seqNo := Some(q))) }

  /** UPDATE outbox SET call_seq=seq WHERE event_id=event, for each row of the group in order. */
  method NumberGroup(rows: Rows, members: seq<Row>) returns (next: Rows)
    requires InOrder(members) && forall r | r in members :: r.ev.id in rows && rows[r.ev.id] == r
    ensures next.Keys == rows.Keys
    ensures forall q | 0 <= q < |members| :: next[members[q].ev.id] == WithSeq(members[q], q)
    ensures forall id | id in rows && rows[id] !in members :: next[id] == rows[id]
  {
    next := rows;
    var q := 0;
    while q < |members|
      invariant 0 <= q <= |members|
      invariant next.Keys == rows.Keys
      invariant forall k | 0 <= k < q :: next[members[k].ev.id] == WithSeq(members[k], k)
      invariant forall k | q <= k < |members| :: next[members[k].ev.id] == members[k]
      invariant forall id | id in rows && rows[id] !in members :: next[id] == rows[id]
    {
      var id := members[q].ev.id;
      assert members[q] in members;
      forall k | 0 <= k < |members| && k != q ensures members[k].ev.id != id {
        TextOrder(id, id);
        assert if k < q then Precedes(members[k], members[q]) else Precedes(members[q], members[k]);
      }
      next := next[id := WithSeq(next[id], q)];
      q := q + 1;
    }
  }

  method KeysAgree(members: seq<Row>) returns (agree: bool)
    requires members != []
    ensures agree <==> forall i | 0 <= i < |members| ::
                         members[i].ev.key == members[0].ev.key && |members[i].ev.key| > 0
  {
    agree := true;
    var i := 0;
    while i < |members|
      invariant 0 <= i <= |members|
      invariant agree <==> forall k | 0 <= k < i ::
                             members[k].ev.key == members[0].ev.key && |members[k].ev.key| > 0
    {
      agree := agree && members[i].ev.key == members[0].ev.key && |members[i].ev.key| > 0;
      i := i + 1;
    }
  }

  // ---------------------------------------------------------------- the whole run

  /** The rows of a call are the group just numbered. */
  ghost predicate JustNumbered(rows: Rows, members: seq<Row>, c: CallId) {
    && (forall q | 0 <= q < |members| ::
          members[q].ev.id in rows && rows[members[q].ev.id] == WithSeq(members[q], q)
          && members[q].ev.Cid() == c)
    && (forall id | id in rows && rows[id].ev.Cid() == c ::
          exists q :: 0 <= q < |members| && members[q].ev.id == id)
  }

  lemma GroupIsNumbered(rows: Rows, streams: Streams, members: seq<Row>, c: CallId)
    requires InOrder(members) && members != [] && JustNumbered(rows, members, c)
    requires forall q | 0 <= q < |members| :: members[q].ev.key == members[0].ev.key && |members[q].ev.key| > 0
    requires c in streams && streams[c] == Stream(members[0].ev.key, Admission, 0, |members|, 0)
    ensures Numbered(rows, streams, c)
  {
    forall q | 0 <= q < |members| ensures Occupied(rows, c, q) {
      assert rows[members[q].ev.id].ev.Cid() == c;
    }
    forall id, id' | id in rows && id' in rows && rows[id].ev.Cid() == c && rows[id'].ev.Cid() == c
      ensures Precedes(rows[id], rows[id']) <==> rows[id].ev.seqNo.value < rows[id'].ev.seqNo.value
    {
      var q :| 0 <= q < |members| && members[q].ev.id == id;
      var q' :| 0 <= q' < |members| && members[q'].ev.id == id';
      TextOrder(id, id');
      assert q < q' ==> Precedes(members[q], members[q']);
      assert q' < q ==> Precedes(members[q'], members[q]);
    }
  }

  /** Numbering one group leaves the others as they were. */
  lemma OthersStayNumbered(rows: Rows, next: Rows, streams: Streams, streams': Streams, c: CallId, d: CallId)
    requires Numbered(rows, streams, d) && c != d && d in streams' && streams'[d] == streams[d]
    requires next.Keys == rows.Keys
    requires forall id | id in rows :: next[id].ev.Cid() == rows[id].ev.Cid()
    requires forall id | id in rows && rows[id].ev.Cid() != c :: next[id] == rows[id]
    ensures Numbered(next, streams', d)
  {
    forall q | 0 <= q < streams[d].admitSeq ensures Occupied(next, d, q) {
      assert Occupied(rows, d, q);
    }
  }

  ghost predicate SelectedGroup(rows: Rows, c: CallId, members: seq<Row>) {
    && InOrder(members)
    && (forall r | r in members :: r.ev.id in rows && rows[r.ev.id] == r && r.ev.Cid() == c)
    && (forall id | id in rows && rows[id].ev.Cid() == c :: rows[id] in members)
  }

  lemma GroupMembers(legacy: Rows, rows: Rows, c: CallId, members: seq<Row>)
    requires Legacy(legacy) && c in Groups(legacy) && SelectedGroup(rows, c, members)
    requires rows.Keys == legacy.Keys
    requires forall id | id in rows :: rows[id].ev.Cid() == legacy[id].ev.Cid()
    requires forall id | id in rows && rows[id].ev.Cid() == c :: rows[id] == legacy[id]
    ensures members != []
    ensures KeyAgreed(legacy, c) <==>
              forall i | 0 <= i < |members| ::
                members[i].ev.key == members[0].ev.key && |members[i].ev.key| > 0
  {
    var id :| id in legacy && legacy[id].ev.Ordered() && legacy[id].ev.Cid() == c;
    assert rows[id] in members;
    assert forall i | 0 <= i < |members| :: members[i] in members;
    if forall i | 0 <= i < |members| :: members[i].ev.key == members[0].ev.key && |members[i].ev.key| > 0 {
      forall k | k in legacy && legacy[k].ev.Cid() == c
        ensures legacy[k].ev.key == members[0].ev.key && |legacy[k].ev.key| > 0
      {
        assert rows[k] in members;
      }
    }
  }

  lemma NumberedFields(legacy: Rows, rows: Rows, next: Rows, members: seq<Row>, c: CallId)
    requires Fields(rows) == legacy && SelectedGroup(rows, c, members)
    requires next.Keys == rows.Keys
    requires forall id | id in rows :: rows[id].ev.id == id
    requires forall q | 0 <= q < |members| :: next[members[q].ev.id] == WithSeq(members[q], q)
    requires forall id | id in rows && rows[id] !in members :: next[id] == rows[id]
    ensures Fields(next) == legacy
    ensures JustNumbered(next, members, c)
    ensures forall id | id in rows && rows[id].ev.Cid() != c :: next[id] == rows[id]
    ensures forall id | id in rows :: next[id].ev.Cid() == rows[id].ev.Cid()
  {
    assert forall q | 0 <= q < |members| :: members[q] in members;
    forall id | id in rows
      ensures Fields(next)[id] == Fields(rows)[id] && next[id].ev.Cid() == rows[id].ev.Cid()
      ensures rows[id].ev.Cid() == c ==> exists q :: 0 <= q < |members| && members[q].ev.id == id
    {
      if rows[id] in members {
        var q :| 0 <= q < |members| && members[q] == rows[id];
        assert next[id] == WithSeq(members[q], q);
      }
    }
    assert Fields(next) == Fields(rows);
  }

  /** The groups with a cursor are numbered; every other row is as it was. */
  ghost predicate SoFar(legacy: Rows, rows: Rows, streams: Streams) {
    && Fields(rows) == legacy
    && streams.Keys <= Groups(legacy)
    && (forall id | id in rows && rows[id].ev.Cid() !in streams :: rows[id] == legacy[id])
    && (forall d | d in streams :: Numbered(rows, streams, d))
  }

  lemma FieldsKeepGroups(legacy: Rows, rows: Rows)
    requires Legacy(legacy) && Fields(rows) == legacy
    ensures rows.Keys == legacy.Keys
    ensures forall id | id in rows :: rows[id].ev.id == id && rows[id].ev.Cid() == legacy[id].ev.Cid()
  {
    assert Fields(rows).Keys == rows.Keys;
    forall id | id in rows ensures rows[id].ev.id == id && rows[id].ev.Cid() == legacy[id].ev.Cid() {
      assert Fields(rows)[id] == rows[id].(ev := rows[id].ev.(seqNo := None));
    }
  }

  /** One group was numbered and given its cursor; nothing else changed. */
  ghost predicate GroupDone(rows: Rows, streams: Streams, c: CallId, next: Rows, streams': Streams) {
    && Fields(next) == Fields(rows)
    && c in streams' && streams' == streams[c := streams'[c]]
    && Numbered(next, streams', c)
    && (forall id | id in rows && rows[id].ev.Cid() != c :: id in next && next[id] == rows[id])
  }

  datatype StagedCopy = StagedCopy(legacy: Rows, rows: Rows, streams: Streams, pending: set<CallId>)

  /** The staged copy between two groups. */
  type Staged = s: StagedCopy |
      && Legacy(s.legacy) && SoFar(s.legacy, s.rows, s.streams)
      && s.pending !! s.streams.Keys && s.pending + s.streams.Keys == Groups(s.legacy)
    ghost witness StagedCopy(map[], map[], map[], {})

  lemma StepKeepsSoFar(s: Staged, c: CallId, next: Rows, streams': Streams)
    requires c in s.pending && GroupDone(s.rows, s.streams, c, next, streams')
    ensures SoFar(s.legacy, next, streams')
  {
    FieldsKeepGroups(s.legacy, s.rows);
    FieldsKeepGroups(s.legacy, next);
    forall d | d in streams' ensures Numbered(next, streams', d) {
      if d != c { OthersStayNumbered(s.rows, next, s.streams, streams', c, d); }
    }
  }

  lemma StepKeepsPending(s: Staged, c: CallId, streams': Streams)
    requires c in s.pending && c in streams' && streams' == s.streams[c := streams'[c]]
    ensures s.pending - {c} !! streams'.Keys && s.pending - {c} + streams'.Keys == Groups(s.legacy)
  {
    assert streams'.Keys == s.streams.Keys + {c};
  }

  lemma GroupStep(s: Staged, c: CallId, next: Rows, streams': Streams) returns (t: Staged)
    requires c in s.pending && GroupDone(s.rows, s.streams, c, next, streams')
    ensures t == StagedCopy(s.legacy, next, streams', s.pending - {c})
  {
    StepKeepsSoFar(s, c, next, streams');
    StepKeepsPending(s, c, streams');
    t := StagedCopy(s.legacy, next, streams', s.pending - {c});
  }

  /** One group of the migration: its rows numbered, its cursor inserted. */
  method MigrateGroup(s: Staged, c: CallId) returns (agreed: bool, next: Rows, streams': Streams)
    requires c in s.pending
    ensures agreed <==> KeyAgreed(s.legacy, c)
    ensures agreed ==> GroupDone(s.rows, s.streams, c, next, streams')
  {
    next, streams' := s.rows, s.streams;
    FieldsKeepGroups(s.legacy, s.rows);
    var members := SelectGroup(s.rows, c);
    GroupMembers(s.legacy, s.rows, c, members);
    agreed := KeysAgree(members);
    if !agreed { return; }
    next := NumberGroup(s.rows, members);
    streams' := s.streams[c := Stream(members[0].ev.key, Admission, 0, |members|, 0)];
    NumberedFields(s.legacy, s.rows, next, members, c);
    GroupIsNumbered(next, streams', members, c);
  }

  method Begin(legacy: Rows) returns (s: Staged)
    requires Legacy(legacy)
    ensures s.legacy == legacy
  {
    assert Fields(legacy) == legacy;
    s := StagedCopy(legacy, legacy, map[], Groups(legacy));
  }

  method NextGroup(s: Staged, c: CallId) returns (agreed: bool, next: Staged)
    requires c in s.pending
    ensures agreed <==> KeyAgreed(s.legacy, c)
    ensures next.legacy == s.legacy && next.pending == if agreed then s.pending - {c} else s.pending
  {
    next := s;
    var rows, streams;
    agreed, rows, streams := MigrateGroup(s, c);
    if agreed {
      ghost var t := GroupStep(s, c, rows, streams);
      next := StagedCopy(s.legacy, rows, streams, s.pending - {c});
    }
  }

  lemma PendingIsGroup(s: Staged, c: CallId)
    requires c in s.pending
    ensures c in Groups(s.legacy)
  {
  }

  lemma AllDone(s: Staged)
    requires s.pending == {}
    ensures IsMigration(s.legacy, s.rows, s.streams)
    ensures forall c | c in Groups(s.legacy) :: KeyAgreed(s.legacy, c)
  {
    FieldsKeepGroups(s.legacy, s.rows);
    forall c | c in Groups(s.legacy) ensures KeyAgreed(s.legacy, c) {
      assert Numbered(s.rows, s.streams, c);
      assert forall id | id in s.legacy :: s.legacy[id].ev.key == Fields(s.rows)[id].ev.key == s.rows[id].ev.key;
    }
    forall id | id in s.rows && !s.rows[id].ev.Ordered() ensures s.rows[id].ev.seqNo == None {
      assert s.rows[id].ev.Cid() !in Groups(s.legacy);
    }
  }

  /** Every group in turn, until one has no single key. */
  method NumberAll(legacy: Rows) returns (agreed: bool, rows: Rows, streams: Streams)
    requires Legacy(legacy)
    ensures agreed <==> forall c | c in Groups(legacy) :: KeyAgreed(legacy, c)
    ensures agreed ==> IsMigration(legacy, rows, streams)
  {
    var s := Begin(legacy);
    while s.pending != {}
      invariant s.legacy == legacy
      decreases |s.pending|
    {
      var c :| c in s.pending;
      PendingIsGroup(s, c);
      agreed, s := NextGroup(s, c);
      if !agreed { return false, s.rows, s.streams; }
    }
    AllDone(s);
    agreed, rows, streams := true, s.rows, s.streams;
  }

  /** The migrate command, from the copied snapshot to the database it publishes. */
  method Migrate(version: int, sequenced: bool, raw: map<EventId, RawRow>, nextRowid: nat, maxRows: int)
    returns (result: Migration)
    requires !sequenced ==> Legacy(ReadIn(raw))
    ensures match result
            case NotMigrated(e) => Refuses(version, sequenced, raw, maxRows, e)
            case Migrated(d) =>
              && !(exists e :: Refuses(version, sequenced, raw, maxRows, e))
              && IsMigration(ReadIn(raw), d.rows, d.streams)
              && d == Disk(Max(version, 4), true, d.rows, d.streams, map[], Some(0), nextRowid)
  {
    if version > SCHEMA { return NotMigrated(UnsupportedSchema); }
    if sequenced { return NotMigrated(AlreadyOrdered); }
    if exists id | id in raw :: !KnownState(raw[id].state) { return NotMigrated(UnknownState); }
    var legacy := ReadIn(raw);
    var agreed, rows, streams := NumberAll(legacy);
    if !agreed { return NotMigrated(InconsistentKey); }
    assert rows.Keys == Fields(rows).Keys == legacy.Keys;
    assert |streams| == |streams.Keys| && |rows| == |rows.Keys| && |legacy| == |legacy.Keys|;
    if |streams| > maxRows || |rows| > maxRows { return NotMigrated(CapacityInsufficient); }
    result := Migrated(Disk(Max(version, 4), true, rows, streams, map[], Some(0), nextRowid));
  }

  // ---------------------------------------------------------------- what start-up makes of it

  lemma MigratedRow(legacy: Rows, d: Disk, id: EventId)
    requires Legacy(legacy) && IsMigration(legacy, d.rows, d.streams) && id in d.rows
    ensures d.rows[id].ev.id == id && d.rows[id].eligible == None && Loadable(d.streams, d.rows[id])
    ensures id in legacy && d.rows[id].rowid == legacy[id].rowid
  {
    FieldsKeepGroups(legacy, d.rows);
    assert Fields(d.rows)[id] == legacy[id];
    if d.rows[id].ev.Ordered() {
      assert legacy[id].ev.Cid() in Groups(legacy);
      assert Numbered(d.rows, d.streams, d.rows[id].ev.Cid());
    }
  }

  lemma MigratedDistinct(legacy: Rows, d: Disk, id: EventId, id': EventId)
    requires Legacy(legacy) && IsMigration(legacy, d.rows, d.streams)
    requires id in d.rows && id' in d.rows && id != id'
    ensures d.rows[id].rowid != d.rows[id'].rowid && !SamePosition(d.rows[id].ev, d.rows[id'].ev)
  {
    MigratedRow(legacy, d, id);
    MigratedRow(legacy, d, id');
    var r, r' := d.rows[id], d.rows[id'];
    TextOrder(id, id');
    assert Precedes(r, r') || Precedes(r', r);
    if r.ev.Ordered() && r'.ev.Ordered() && r.ev.Cid() == r'.ev.Cid() {
      assert Numbered(d.rows, d.streams, r.ev.Cid());
    }
  }

  /** Main result.  A migrated database opens, and after the start-up requeue satisfies the outbox
      invariant, whatever states its rows were in. */
  lemma MigrationStarts(legacy: Rows, d: Disk, next: int, wall: int)
    requires Legacy(legacy) && IsMigration(legacy, d.rows, d.streams)
    requires d.sequenced && d.version <= SCHEMA && d.fences == map[]
    requires forall id | id in legacy :: legacy[id].rowid < d.nextRowid
    requires forall c | c in d.streams :: d.streams[c].admitSeq <= INT64_MAX
    ensures Open(d).Opened? && StoreInv(Requeue(Open(d).store, next, wall))
  {
    forall id | id in d.rows
      ensures d.rows[id].ev.id == id && d.rows[id].rowid < d.nextRowid && Loadable(d.streams, d.rows[id])
    {
      MigratedRow(legacy, d, id);
    }
    forall id, id' | id in d.rows && id' in d.rows && id != id'
      ensures d.rows[id].rowid != d.rows[id'].rowid && !SamePosition(d.rows[id].ev, d.rows[id'].ev)
    {
      MigratedDistinct(legacy, d, id, id');
    }
    MigratedStreams(legacy, d);
    StartRecovers(d, next, wall);
  }

  lemma MigratedStreams(legacy: Rows, d: Disk)
    requires Legacy(legacy) && IsMigration(legacy, d.rows, d.streams)
    requires forall c | c in d.streams :: d.streams[c].admitSeq <= INT64_MAX
    ensures var s := Store(d.rows, d.streams, d.fences, 0, d.nextRowid);
            (forall c | c in d.streams :: StreamOk(s, c)) && Contiguous(s)
  {
    var s := Store(d.rows, d.streams, d.fences, 0, d.nextRowid);
    forall c | c in d.streams ensures StreamOk(s, c) {
      assert Numbered(d.rows, d.streams, c);
      var id :| id in legacy && legacy[id].ev.Ordered() && legacy[id].ev.Cid() == c;
      assert id in d.rows && d.rows[id].ev.Cid() == c by { FieldsKeepGroups(legacy, d.rows); }
    }
    forall c, q: int | c in d.streams && d.streams[c].mode == Admission
                       && d.streams[c].nextSeq <= q < d.streams[c].admitSeq
      ensures Occupied(d.rows, c, q)
    {
      assert Numbered(d.rows, d.streams, c);
    }
  }

  // ---------------------------------------------------------------- the declared order, in the rows' fields

  /** The texts agree up to `k`, where `a` ends or has the smaller character. */
  predicate DiffersAt(a: string, b: string, k: nat) {
    && k <= |a| && k < |b| && a[..k] == b[..k]
    && (k == |a| || a[k] < b[k])
  }

  lemma DiffersHead(a: string, b: string, k: nat)
    requires DiffersAt(a, b, k) && a != []
    ensures if k == 0 then a[0] < b[0] else a[0] == b[0]
  {
    if k > 0 { assert a[..k][0] == b[..k][0]; }
  }

  /** A text comes before another exactly if it is a proper prefix of it, or has the smaller character where
      they first differ. */
  lemma {:induction false} TextBeforeIs(a: string, b: string)
    ensures TextBefore(a, b) <==> exists k: nat :: DiffersAt(a, b, k)
  {
    if a == [] {
      assert b != [] ==> DiffersAt(a, b, 0);
    } else if b != [] {
      if a[0] == b[0] {
        TextBeforeIs(a[1..], b[1..]);
        if k: nat :| DiffersAt(a[1..], b[1..], k) {
          assert a[..k + 1] == [a[0]] + a[1..][..k] && b[..k + 1] == [b[0]] + b[1..][..k];
          assert DiffersAt(a, b, k + 1);
        }
        if k: nat :| DiffersAt(a, b, k) {
          assert k > 0;
          assert a[1..][..k - 1] == a[..k][1..] && b[1..][..k - 1] == b[..k][1..];
          assert DiffersAt(a[1..], b[1..], k - 1);
        }
      } else {
        assert a[0] < b[0] ==> DiffersAt(a, b, 0);
        if k: nat :| DiffersAt(a, b, k) { DiffersHead(a, b, k); }
      }
    }
  }

  /** The row is of the same call, and was created earlier, or at the same time with the smaller event id. */
  ghost predicate NumberedFirst(a: Row, b: Row) {
    && a.ev.topic == b.ev.topic && a.ev.call == b.ev.call
    && (a.created < b.created || (a.created == b.created && exists k: nat :: DiffersAt(a.ev.id, b.ev.id, k)))
  }

  /** Main result.  After a migration, of two rows of a call the one created earlier, or with the smaller id
      if they were created together, has the smaller ordinal. */
  lemma OrdinalsFollowCreation(legacy: Rows, rows: Rows, streams: Streams, x: EventId, y: EventId)
    requires Legacy(legacy) && IsMigration(legacy, rows, streams) && x in legacy && y in legacy
    requires legacy[x].ev.call != "" && NumberedFirst(legacy[x], legacy[y])
    ensures x in rows && y in rows && rows[x].ev.seqNo.Some? && rows[y].ev.seqNo.Some?
    ensures rows[x].ev.seqNo.value < rows[y].ev.seqNo.value
  {
    FieldsKeepGroups(legacy, rows);
    assert Fields(rows)[x] == legacy[x] && Fields(rows)[y] == legacy[y];
    assert legacy[x].ev.Cid() in Groups(legacy);
    assert Numbered(rows, streams, legacy[x].ev.Cid());
    TextBeforeIs(x, y);
    assert Precedes(rows[x], rows[y]);
  }

  ghost function FirstOf(legacy: Rows, x: EventId): set<EventId>
    requires x in legacy
  {
    set y | y in legacy && NumberedFirst(legacy[y], legacy[x])
  }

  ghost function Below(rows: Rows, c: CallId, q: int): set<EventId> {
    set y | y in rows && rows[y].ev.Cid() == c && rows[y].ev.seqNo.Some? && rows[y].ev.seqNo.value < q
  }

  /** Positions of a numbered call below `q` are held by `q` rows. */
  lemma {:induction false} BelowCount(rows: Rows, streams: Streams, c: CallId, q: nat)
    requires Numbered(rows, streams, c) && q <= streams[c].admitSeq
    requires forall x, y | x in rows && y in rows && x != y :: !SamePosition(rows[x].ev, rows[y].ev)
    requires c.call != ""
    ensures |Below(rows, c, q)| == q
  {
    if q == 0 {
      assert Below(rows, c, 0) == {};
    } else {
      BelowCount(rows, streams, c, q - 1);
      assert Occupied(rows, c, q - 1);
      var x :| x in rows && rows[x].ev.Cid() == c && rows[x].ev.seqNo == Some(q - 1);
      forall y ensures y in Below(rows, c, q) <==> y in Below(rows, c, q - 1) || y == x {
        if y in Below(rows, c, q) && rows[y].ev.seqNo.value == q - 1 && y != x {
          assert !SamePosition(rows[x].ev, rows[y].ev);
        }
      }
      assert Below(rows, c, q) == Below(rows, c, q - 1) + {x};
    }
  }

  lemma FirstAreBelow(legacy: Rows, rows: Rows, streams: Streams, x: EventId)
    requires Legacy(legacy) && IsMigration(legacy, rows, streams) && x in legacy && legacy[x].ev.call != ""
    ensures x in rows && rows[x].ev.seqNo.Some?
    ensures FirstOf(legacy, x) == Below(rows, legacy[x].ev.Cid(), rows[x].ev.seqNo.value)
  {
    var c := legacy[x].ev.Cid();
    FieldsKeepGroups(legacy, rows);
    assert Fields(rows)[x] == legacy[x];
    assert c in Groups(legacy);
    assert Numbered(rows, streams, c);
    forall y ensures y in FirstOf(legacy, x) <==> y in Below(rows, c, rows[x].ev.seqNo.value) {
      if y in legacy && legacy[y].ev.Cid() == c {
        assert Fields(rows)[y] == legacy[y];
        TextBeforeIs(y, x);
        assert Precedes(rows[y], rows[x]) <==> rows[y].ev.seqNo.value < rows[x].ev.seqNo.value;
      }
    }
  }

  /** Main result.  A row's ordinal is the number of rows of its call that come before it, and the call's
      window ends at the number of its rows. */
  lemma OrdinalIsRank(legacy: Rows, d: Disk, x: EventId)
    requires Legacy(legacy) && IsMigration(legacy, d.rows, d.streams) && x in legacy && legacy[x].ev.call != ""
    ensures x in d.rows && d.rows[x].ev.seqNo == Some(|FirstOf(legacy, x)|)
    ensures legacy[x].ev.Cid() in d.streams
            && d.streams[legacy[x].ev.Cid()] == Stream(legacy[x].ev.key, Admission, 0, |Group(legacy, x)|, 0)
  {
    var c := legacy[x].ev.Cid();
    FirstAreBelow(legacy, d.rows, d.streams, x);
    assert Numbered(d.rows, d.streams, c);
    forall y, z | y in d.rows && z in d.rows && y != z ensures !SamePosition(d.rows[y].ev, d.rows[z].ev) {
      MigratedDistinct(legacy, d, y, z);
    }
    FieldsKeepGroups(legacy, d.rows);
    assert Fields(d.rows)[x] == legacy[x];
    BelowCount(d.rows, d.streams, c, d.rows[x].ev.seqNo.value);
    BelowCount(d.rows, d.streams, c, d.streams[c].admitSeq);
    GroupIsBelow(legacy, d, x);
  }

  /** The rows of the call. */
  ghost function Group(legacy: Rows, x: EventId): set<EventId>
    requires x in legacy
  {
    set y | y in legacy && legacy[y].ev.topic == legacy[x].ev.topic && legacy[y].ev.call == legacy[x].ev.call
  }

  lemma GroupIsBelow(legacy: Rows, d: Disk, x: EventId)
    requires Legacy(legacy) && IsMigration(legacy, d.rows, d.streams) && x in legacy && legacy[x].ev.call != ""
    ensures legacy[x].ev.Cid() in d.streams
    ensures Group(legacy, x) == Below(d.rows, legacy[x].ev.Cid(), d.streams[legacy[x].ev.Cid()].admitSeq)
  {
    var c := legacy[x].ev.Cid();
    FieldsKeepGroups(legacy, d.rows);
    assert c in Groups(legacy);
    assert Numbered(d.rows, d.streams, c);
  }

  // ---------------------------------------------------------------- refusals, in the file's own fields

  /** The events are of one call, and do not share a nonempty key. */
  predicate Disagree(e: Event, f: Event) {
    e.call != "" && e.topic == f.topic && e.call == f.call && (e.key != f.key || e.key == "")
  }

  predicate KeysDisagree(raw: map<EventId, RawRow>) {
    exists x, y :: x in raw && y in raw && Disagree(raw[x].row.ev, raw[y].row.ev)
  }

  predicate OddState(raw: map<EventId, RawRow>) {
    exists x :: x in raw && raw[x].state != "pending" && raw[x].state != "in_flight" && raw[x].state != "dead"
  }

  function CallsIn(raw: map<EventId, RawRow>): set<CallId> {
    set x | x in raw && raw[x].row.ev.call != "" :: CallId(raw[x].row.ev.topic, raw[x].row.ev.call)
  }

  lemma ReadsIn(raw: map<EventId, RawRow>)
    ensures ReadIn(raw).Keys == raw.Keys
    ensures forall x | x in raw :: ReadIn(raw)[x].ev == raw[x].row.ev
    ensures Groups(ReadIn(raw)) == CallsIn(raw)
  {
  }

  lemma DisagreeIs(raw: map<EventId, RawRow>)
    ensures KeysDisagree(raw) <==> exists c :: c in Groups(ReadIn(raw)) && !KeyAgreed(ReadIn(raw), c)
  {
    ReadsIn(raw);
    var rows := ReadIn(raw);
    if x, y :| x in raw && y in raw && Disagree(raw[x].row.ev, raw[y].row.ev) {
      DisagreeingGroup(rows, x, y);
    }
    if c :| c in Groups(rows) && !KeyAgreed(rows, c) {
      var x, y :| x in rows && y in rows && rows[x].ev.Cid() == c && rows[y].ev.Cid() == c
                  && !(rows[x].ev.key == rows[y].ev.key && |rows[x].ev.key| > 0);
      assert Disagree(raw[x].row.ev, raw[y].row.ev);
    }
  }

  lemma DisagreeingGroup(rows: Rows, x: EventId, y: EventId)
    requires x in rows && y in rows && Disagree(rows[x].ev, rows[y].ev)
    ensures exists c :: c in Groups(rows) && !KeyAgreed(rows, c)
  {
    var c := rows[x].ev.Cid();
    assert c in Groups(rows) && rows[y].ev.Cid() == c && !KeyAgreed(rows, c);
  }

  /** What the command refuses, and the first thing wrong that it names. */
  lemma RefusalsAre(version: int, sequenced: bool, raw: map<EventId, RawRow>, maxRows: int)
    ensures var fit := version <= 5 && !sequenced;
            var known := fit && !OddState(raw);
            var agreed := known && !KeysDisagree(raw);
            && (Refuses(version, sequenced, raw, maxRows, UnsupportedSchema) <==> version > 5)
            && (Refuses(version, sequenced, raw, maxRows, AlreadyOrdered) <==> version <= 5 && sequenced)
            && (Refuses(version, sequenced, raw, maxRows, UnknownState) <==> fit && OddState(raw))
            && (Refuses(version, sequenced, raw, maxRows, InconsistentKey) <==> known && KeysDisagree(raw))
            && (Refuses(version, sequenced, raw, maxRows, CapacityInsufficient) <==>
                  agreed && (|CallsIn(raw)| > maxRows || |raw| > maxRows))
  {
    ReadsIn(raw);
    DisagreeIs(raw);
    assert |ReadIn(raw)| == |ReadIn(raw).Keys| == |raw.Keys| == |raw|;
  }

  /** The states are read as they are written, and no other field is read at all. */
  lemma StatesAreRead(raw: map<EventId, RawRow>, x: EventId)
    requires x in raw && !OddState(raw)
    ensures x in ReadIn(raw) && ReadIn(raw)[x] == raw[x].row.(state := ReadIn(raw)[x].state)
    ensures raw[x].state == match ReadIn(raw)[x].state
                            case Pending => "pending" case InFlight => "in_flight" case Dead => "dead"
  {
  }

  /** Nothing of a row but its ordinal is changed by a migration. */
  lemma OnlyOrdinalsChange(legacy: Rows, rows: Rows, streams: Streams)
    requires Legacy(legacy) && IsMigration(legacy, rows, streams)
    ensures rows.Keys == legacy.Keys
    ensures forall x | x in legacy :: rows[x] == legacy[x].(ev := legacy[x].ev.(seqNo := rows[x].ev.seqNo))
  {
    FieldsKeepGroups(legacy, rows);
    forall x | x in legacy ensures rows[x] == legacy[x].(ev := legacy[x].ev.(seqNo := rows[x].ev.seqNo)) {
      assert Fields(rows)[x] == legacy[x];
    }
  }
}

/** Which rows one fetch returns: the first `limit` deliverable rows in service order. */
module OutboxFetch {
  import opened OutboxModel
  import opened OutboxInvariant

  /** Least recently served call first, then oldest, then first inserted. */
  predicate Before(streams: Streams, a: Row, b: Row) {
    || Served(streams, a) < Served(streams, b)
    || (Served(streams, a) == Served(streams, b)
        && (a.created < b.created || (a.created == b.created && a.rowid < b.rowid)))
  }

  predicate Stored(s: Store, r: Row) { r.ev.id in s.rows && s.rows[r.ev.id] == r }

  /** `out` is the answer of a fetch; a negative limit means no limit. */
  ghost predicate IsFetch(s: Store, now: int, limit: int, out: seq<Row>) {
    && (forall i | 0 <= i < |out| :: Stored(s, out[i]) && Due(s.streams, out[i], now))
    && (forall i, j | 0 <= i < j < |out| :: Before(s.streams, out[i], out[j]))
    && (0 <= limit ==> |out| <= limit)
    && (forall id | id in s.rows && Due(s.streams, s.rows[id], now) && s.rows[id] !in out ::
          |out| == limit && forall i | 0 <= i < |out| :: Before(s.streams, out[i], s.rows[id]))
  }

  lemma SamePlaceSame(s: Store, now: int, limit: int, a: seq<Row>, b: seq<Row>, i: nat)
    requires IsFetch(s, now, limit, a) && IsFetch(s, now, limit, b)
    requires i < |a| && i < |b| && a[..i] == b[..i]
    ensures a[i] == b[i]
  {
    NotBefore(s, now, limit, a, b, i);
    NotBefore(s, now, limit, b, a, i);
  }

  lemma FetchedOnce(s: Store, now: int, limit: int, a: seq<Row>, i: nat, j: nat)
    requires IsFetch(s, now, limit, a) && i < |a| && j < |a| && a[i] == a[j]
    ensures i == j
  {
    assert i < j ==> Before(s.streams, a[i], a[j]);
    assert j < i ==> Before(s.streams, a[j], a[i]);
  }

  lemma NotBefore(s: Store, now: int, limit: int, a: seq<Row>, b: seq<Row>, i: nat)
    requires IsFetch(s, now, limit, a) && IsFetch(s, now, limit, b)
    requires i < |a| && i < |b| && a[..i] == b[..i]
    ensures a[i] == b[i] || Before(s.streams, b[i], a[i])
  {
    assert Stored(s, a[i]);
    if a[i] in b {
      var j :| 0 <= j < |b| && b[j] == a[i];
      assert j < i ==> a[j] == a[..i][j] == b[..i][j] == a[i];
      FetchedOnce(s, now, limit, a, i, if j < i then j else i);
      assert i <= j;
    }
  }

  /** The conditions leave a fetch no choice: they have one answer. */
  lemma {:induction false} FetchIsUnique(s: Store, now: int, limit: int, a: seq<Row>, b: seq<Row>)
    requires IsFetch(s, now, limit, a) && IsFetch(s, now, limit, b)
    ensures a == b
  {
    var i := 0;
    while i < |a| && i < |b|
      invariant i <= |a| && i <= |b| && a[..i] == b[..i]
    {
      SamePlaceSame(s, now, limit, a, b, i);
      assert a[..i + 1] == a[..i] + [a[i]] && b[..i + 1] == b[..i] + [b[i]];
      i := i + 1;
    }
    assert i == |a| || i == |b|;
    if i == |a| { NotShorter(s, now, limit, a, b); } else { NotShorter(s, now, limit, b, a); }
    assert a == a[..i] && b == b[..i];
  }

  lemma NotShorter(s: Store, now: int, limit: int, a: seq<Row>, b: seq<Row>)
    requires IsFetch(s, now, limit, a) && IsFetch(s, now, limit, b)
    requires |a| <= |b| && a == b[..|a|]
    ensures |a| == |b|
  {
    if |a| < |b| {
      var r := b[|a|];
      assert Stored(s, r);
      if r in a {
        var j :| 0 <= j < |a| && a[j] == r;
        FetchedOnce(s, now, limit, b, j, |a|);
      }
    }
  }

  /** No two fetched rows share an id, and a call contributes at most one. */
  lemma FetchOnePerCall(s: Store, now: int, limit: int, out: seq<Row>, i: nat, j: nat)
    requires StoreInv(s) && IsFetch(s, now, limit, out) && i < j < |out|
    ensures out[i].ev.id != out[j].ev.id
    ensures out[i].ev.Ordered() && out[j].ev.Ordered() ==> out[i].ev.Cid() != out[j].ev.Cid()
  {
    assert Before(s.streams, out[i], out[j]);
    assert Stored(s, out[i]) && Stored(s, out[j]);
    assert Due(s.streams, out[i], now) && Due(s.streams, out[j], now);
  }

  // ---------------------------------------------------------------- the query

  /** `out` is in service order. */
  predicate Sorted(streams: Streams, out: seq<Row>) {
    forall i, j | 0 <= i < j < |out| :: Before(streams, out[i], out[j])
  }

  /** Rows with distinct rowids are strictly ordered. */
  lemma Comparable(streams: Streams, a: Row, b: Row)
    requires a.rowid != b.rowid
    ensures Before(streams, a, b) || Before(streams, b, a)
  {
  }

  /** Puts one more row where it belongs. */
  method PutInOrder(streams: Streams, out: seq<Row>, r: Row) returns (next: seq<Row>)
    requires Sorted(streams, out) && forall i | 0 <= i < |out| :: out[i].rowid != r.rowid
    ensures Sorted(streams, next) && |next| == |out| + 1
    ensures forall x :: x in next <==> x in out || x == r
  {
    var k := |out|;
    while 0 < k && Before(streams, r, out[k - 1])
      invariant 0 <= k <= |out|
      invariant forall i | k <= i < |out| :: Before(streams, r, out[i])
    {
      k := k - 1;
    }
    next := out[..k] + [r] + out[k..];
    if k > 0 { Comparable(streams, r, out[k - 1]); }
    forall i | 0 <= i < k ensures Before(streams, out[i], r) {}
    PutKeepsOrder(streams, out, k, r);
    PutKeepsRows(out, k, r);
  }

  lemma PutKeepsOrder(streams: Streams, out: seq<Row>, k: nat, r: Row)
    requires Sorted(streams, out) && k <= |out|
    requires forall i | 0 <= i < k :: Before(streams, out[i], r)
    requires forall i | k <= i < |out| :: Before(streams, r, out[i])
    ensures Sorted(streams, out[..k] + [r] + out[k..])
  {
    var next := out[..k] + [r] + out[k..];
    forall i, j | 0 <= i < j < |next| ensures Before(streams, next[i], next[j]) {
      assert next[i] == if i < k then out[i] else if i == k then r else out[i - 1];
      assert next[j] == if j < k then out[j] else if j == k then r else out[j - 1];
    }
  }

  lemma PutKeepsRows(out: seq<Row>, k: nat, r: Row)
    requires k <= |out|
    ensures forall x :: x in out[..k] + [r] + out[k..] <==> x in out || x == r
  {
    assert out == out[..k] + out[k..];
  }

  /** SELECT ... WHERE due ORDER BY last_served, created_at, rowid LIMIT limit. */
  method SelectDue(rows: seq<Row>, streams: Streams, now: int, limit: int) returns (out: seq<Row>)
    requires forall i, j | 0 <= i < j < |rows| :: rows[i].rowid < rows[j].rowid
    ensures Sorted(streams, out) && (0 <= limit ==> |out| <= limit)
    ensures forall x | x in out :: x in rows && Due(streams, x, now)
    ensures forall x | x in rows && Due(streams, x, now) && x !in out ::
              |out| == limit && forall i | 0 <= i < |out| :: Before(streams, out[i], x)
  {
    out := [];
    var i := 0;
    while i < |rows|
      invariant 0 <= i <= |rows|
      invariant Sorted(streams, out)
      invariant forall x | x in out :: x in rows && Due(streams, x, now)
      invariant forall k, j | 0 <= k < |out| && i <= j < |rows| :: out[k].rowid < rows[j].rowid
      invariant forall k | 0 <= k < i && Due(streams, rows[k], now) :: rows[k] in out
    {
      if Due(streams, rows[i], now) {
        out := PutInOrder(streams, out, rows[i]);
        forall k, j | 0 <= k < |out| && i < j < |rows| ensures out[k].rowid < rows[j].rowid {
          assert out[k] in out;
        }
      }
      i := i + 1;
    }
    if 0 <= limit < |out| {
      ghost var all := out;
      out := out[..limit];
      assert forall x | x in out :: x in all;
      forall x | x in rows && Due(streams, x, now) && x !in out
        ensures forall k | 0 <= k < |out| :: Before(streams, out[k], x)
      {
        var j :| 0 <= j < |all| && all[j] == x;
        assert limit <= j;
      }
    }
  }

  // ---------------------------------------------------------------- ranks

  lemma Within<T>(a: set<T>, b: set<T>)
    requires a <= b
    ensures |a| <= |b| && (|a| == |b| ==> a == b)
  {
    assert b == a + (b - a);
  }

  function IdsOfFirst(out: seq<Row>, n: nat): set<EventId>
    requires n <= |out|
  {
    set k | 0 <= k < n :: out[k].ev.id
  }

  lemma {:induction false} IdsCount(out: seq<Row>, n: nat)
    requires n <= |out|
    ensures |IdsOfFirst(out, n)| <= n
    ensures (forall k, j | 0 <= k < j < n :: out[k].ev.id != out[j].ev.id) ==> |IdsOfFirst(out, n)| == n
  {
    if n > 0 {
      IdsCount(out, n - 1);
      assert IdsOfFirst(out, n) == IdsOfFirst(out, n - 1) + {out[n - 1].ev.id};
    }
  }

  /** The turn of the row's call; 0 for a row outside calls, or of a call without a cursor. */
  function TurnOf(s: Store, r: Row): int {
    var c := CallId(r.ev.topic, r.ev.call);
    if c in s.streams then s.streams[c].lastServed else 0
  }

  /** The earlier turn goes first; then the earlier creation; then the earlier insertion. */
  predicate Ahead(s: Store, a: Row, b: Row) {
    if TurnOf(s, a) != TurnOf(s, b) then TurnOf(s, a) < TurnOf(s, b)
    else if a.created != b.created then a.created < b.created
    else a.rowid < b.rowid
  }

  /** Pending, its time has come, and outside calls or at its call's cursor. */
  predicate MayGo(s: Store, r: Row, now: int) {
    var c := CallId(r.ev.topic, r.ev.call);
    && r.state == Pending && r.nextAttempt <= now
    && (r.ev.call == "" || (c in s.streams && r.ev.seqNo == Some(s.streams[c].nextSeq)))
  }

  /** The rows that may go before the row. */
  ghost function GoingBefore(s: Store, now: int, r: Row): set<EventId> {
    set id | id in s.rows && MayGo(s, s.rows[id], now) && Ahead(s, s.rows[id], r)
  }

  lemma AheadIs(s: Store, a: Row, b: Row)
    ensures Ahead(s, a, b) <==> Before(s.streams, a, b)
  {
  }

  lemma MayGoIs(s: Store, r: Row, now: int)
    ensures MayGo(s, r, now) <==> Due(s.streams, r, now)
  {
  }

  lemma FetchedBefore(s: Store, now: int, limit: int, out: seq<Row>, k: nat)
    requires StoreInv(s) && IsFetch(s, now, limit, out) && k < |out|
    ensures GoingBefore(s, now, out[k]) == IdsOfFirst(out, k)
  {
    assert Stored(s, out[k]);
    forall id ensures id in GoingBefore(s, now, out[k]) <==> id in IdsOfFirst(out, k) {
      if id in GoingBefore(s, now, out[k]) {
        AheadIs(s, s.rows[id], out[k]);
        MayGoIs(s, s.rows[id], now);
        assert !Before(s.streams, out[k], s.rows[id]);
        assert s.rows[id] in out;
        var j :| 0 <= j < |out| && out[j] == s.rows[id];
        assert j != k && !(k < j);
        assert out[j].ev.id == id;
      }
      if id in IdsOfFirst(out, k) {
        var j :| 0 <= j < k && out[j].ev.id == id;
        assert Stored(s, out[j]) && Due(s.streams, out[j], now) && Before(s.streams, out[j], out[k]);
        AheadIs(s, out[j], out[k]);
        MayGoIs(s, out[j], now);
      }
    }
  }

  /** Main result.  A fetch is a ranking: its k-th record has exactly k rows going before it, and a row that
      may go is fetched exactly if fewer rows than the limit go before it. */
  lemma FetchIsRanked(s: Store, now: int, limit: int, out: seq<Row>)
    requires StoreInv(s) && IsFetch(s, now, limit, out)
    ensures forall k | 0 <= k < |out| :: MayGo(s, out[k], now) && |GoingBefore(s, now, out[k])| == k
    ensures forall id | id in s.rows && MayGo(s, s.rows[id], now) ::
              s.rows[id] in out <==> limit < 0 || |GoingBefore(s, now, s.rows[id])| < limit
  {
    forall k | 0 <= k < |out| ensures MayGo(s, out[k], now) && |GoingBefore(s, now, out[k])| == k {
      FetchedRank(s, now, limit, out, k);
    }
    forall id | id in s.rows && MayGo(s, s.rows[id], now)
      ensures s.rows[id] in out <==> limit < 0 || |GoingBefore(s, now, s.rows[id])| < limit
    {
      MayGoIs(s, s.rows[id], now);
      if s.rows[id] !in out { LeftOutRank(s, now, limit, out, id); }
    }
  }

  lemma FetchedRank(s: Store, now: int, limit: int, out: seq<Row>, k: nat)
    requires StoreInv(s) && IsFetch(s, now, limit, out) && k < |out|
    ensures MayGo(s, out[k], now) && |GoingBefore(s, now, out[k])| == k
  {
    MayGoIs(s, out[k], now);
    FetchedBefore(s, now, limit, out, k);
    forall i, j | 0 <= i < j < k ensures out[i].ev.id != out[j].ev.id { FetchOnePerCall(s, now, limit, out, i, j); }
    IdsCount(out, k);
  }

  lemma LeftOutRank(s: Store, now: int, limit: int, out: seq<Row>, id: EventId)
    requires StoreInv(s) && IsFetch(s, now, limit, out)
    requires id in s.rows && Due(s.streams, s.rows[id], now) && s.rows[id] !in out
    ensures limit == |out| && limit <= |GoingBefore(s, now, s.rows[id])|
  {
    forall i, j | 0 <= i < j < |out| ensures out[i].ev.id != out[j].ev.id {
      FetchOnePerCall(s, now, limit, out, i, j);
    }
    IdsCount(out, |out|);
    forall k | 0 <= k < |out| ensures out[k].ev.id in GoingBefore(s, now, s.rows[id]) {
      assert Stored(s, out[k]) && Before(s.streams, out[k], s.rows[id]);
      AheadIs(s, out[k], s.rows[id]);
      MayGoIs(s, out[k], now);
    }
    Within(IdsOfFirst(out, |out|), GoingBefore(s, now, s.rows[id]));
  }
}

/** The run verifier: from parsed evidence to an exit code, and what the code means. */
module EvidenceVerifier {
  import opened OutboxText
  import opened EvidenceContract

  // ---------------------------------------------------------------- what the evidence says

  function Elements(xs: seq<string>): set<string> { set x | x in xs }

  predicate NoRepeats(xs: seq<string>) {
    forall i, j | 0 <= i < j < |xs| :: xs[i] != xs[j]
  }

  predicate Live(r: FinalRow) { r.state == "pending" || r.state == "in_flight" }

  predicate Expired(r: FinalRow) { r.state == "dead" && r.lastError == "expired_ttl" }

  predicate Poisoned(r: FinalRow) { r.state == "dead" && r.lastError != "expired_ttl" }

  predicate RowReadable(r: FinalRow) {
    && !Blank(r.id) && 0 <= r.created <= r.updated
    && (Live(r) || Expired(r) || (Poisoned(r) && !Blank(r.lastError)))
  }

  function RowIds(rows: seq<FinalRow>): seq<string> {
    seq(|rows|, i requires 0 <= i < |rows| => rows[i].id)
  }

  predicate StrictTtl(r: FinalRow, ttl: int) { 0 < ttl < r.updated - r.created }

  function Ids(rows: seq<FinalRow>, pick: FinalRow -> bool): set<string> {
    set r | r in rows && pick(r) :: r.id
  }

  /** The final snapshot and the id lists can be read at all. */
  ghost predicate OutcomesReadable(e: Evidence) {
    && e.injected != [] && NoRepeats(e.injected) && NoRepeats(e.rejected) && NoRepeats(e.expectedDead)
    && (forall r | r in e.final :: RowReadable(r))
    && NoRepeats(RowIds(e.final))
  }

  /** Injected is the disjoint union of consumed, rejected, expired and expected-dead ids; nothing is
      live, rejection is allowed or absent, and every expiry has strict evidence. */
  ghost predicate OutcomesClean(e: Evidence, o: Options) {
    var consumed, rejected := Elements(e.consumed), Elements(e.rejected);
    var expired, dead := Ids(e.final, Expired), Ids(e.final, Poisoned);
    && dead == Elements(e.expectedDead)
    && Elements(e.injected) == consumed + rejected + expired + dead
    && consumed !! rejected !! expired !! dead
    && Ids(e.final, Live) == {}
    && (rejected == {} || o.allowRejected)
    && forall r | r in e.final && Expired(r) :: StrictTtl(r, o.ttl)
  }

  ghost predicate EventsReadable(e: Evidence) {
    && (forall r | r in e.events :: !Blank(r.id) && r.phase in {"baseline", "during", "recovery"})
    && (forall i, j | 0 <= i < j < |e.events| :: e.events[i].id != e.events[j].id)
    && (set r | r in e.events :: r.id) == Elements(e.injected)
  }

  ghost predicate OrderReadable(events: seq<InjectedEvent>) {
    && (forall r | r in events :: 0 <= r.sequence)
    && (exists r :: r in events && r.call != "")
    && (forall i, j | 0 <= i < j < |events| && events[i].call != "" && events[i].call == events[j].call ::
          events[i].sequence != events[j].sequence)
  }

  predicate IsFirst(xs: seq<string>, x: string, i: int) {
    0 <= i < |xs| && xs[i] == x && forall j | 0 <= j < i :: xs[j] != x
  }

  /** `y` was first observed before `x`. */
  ghost predicate SeenBefore(consumed: seq<string>, y: string, x: string) {
    exists i, j :: IsFirst(consumed, x, i) && IsFirst(consumed, y, j) && j < i
  }

  /** Some event of the call was first observed before one of a smaller sequence. */
  ghost predicate Inverted(events: seq<InjectedEvent>, consumed: seq<string>, call: string) {
    exists a, b :: a in events && b in events && a.call == call && b.call == call
                   && a.sequence < b.sequence && SeenBefore(consumed, b.id, a.id)
  }

  ghost function InvertedCalls(e: Evidence): set<string> {
    set r | r in e.events && r.call != "" && Inverted(e.events, e.consumed, r.call) :: r.call
  }

  predicate IdentityReadable(i: Identity) { 0 < i.pid && !Blank(i.start) }

  ghost predicate RecoveryReadable(e: Evidence) {
    && IdentityReadable(e.recovery.before) && IdentityReadable(e.recovery.after)
    && 0 <= e.recovery.faultStart && 0 <= e.recovery.faultEnd
    && multiset(ReceiptIds(e.receipts)) == multiset(e.consumed)
    && forall r | r in e.receipts :: !Blank(r.id) && 0 <= r.partition && 0 <= r.offset && 0 <= r.observed
  }

  function ReceiptIds(receipts: seq<Receipt>): seq<string> {
    seq(|receipts|, i requires 0 <= i < |receipts| => receipts[i].id)
  }

  ghost predicate Observed(e: Evidence, phase: string, when: int -> bool) {
    exists r, x :: r in e.events && r.phase == phase && x in e.receipts && x.id == r.id && when(x.observed)
  }

  predicate HasPhase(events: seq<InjectedEvent>, phase: string) {
    exists r :: r in events && r.phase == phase
  }

  ghost predicate RecoveryClean(e: Evidence) {
    var m := e.recovery;
    && m.before == m.after && m.reloads == 0
    && m.faultStart < m.faultEnd && m.exitCode == 0
    && HasPhase(e.events, "baseline") && HasPhase(e.events, "during") && HasPhase(e.events, "recovery")
    && Observed(e, "baseline", (t: int) => t <= m.faultStart)
    && Observed(e, "recovery", (t: int) => t > m.faultEnd)
  }

  ghost predicate Readable(e: Evidence, o: Options) {
    && OutcomesReadable(e)
    && (o.checkOrder || o.requireRecovery ==> EventsReadable(e))
    && (o.checkOrder ==> OrderReadable(e.events))
    && (o.requireRecovery ==> RecoveryReadable(e))
  }

  /** The meaning of the exit code. */
  ghost function Verdict(e: Evidence, o: Options): int {
    if !Readable(e, o) then 3
    else if !OutcomesClean(e, o) || (o.requireRecovery && !RecoveryClean(e)) then 1
    else if !o.checkOrder || InvertedCalls(e) == {} then 0
    else if |InvertedCalls(e)| == 1 then 2
    else 1
  }

  // ---------------------------------------------------------------- the outcome checks

  method Distinct(xs: seq<string>) returns (yes: bool)
    ensures yes <==> NoRepeats(xs)
  {
    var seen: set<string> := {};
    var i := 0;
    while i < |xs|
      invariant 0 <= i <= |xs| && NoRepeats(xs[..i])
      invariant seen == Elements(xs[..i])
    {
      assert xs[..i + 1] == xs[..i] + [xs[i]];
      if xs[i] in seen {
        var j :| 0 <= j < i && xs[j] == xs[i];
        return false;
      }
      seen := seen + {xs[i]};
      i := i + 1;
    }
    assert xs[..i] == xs;
    yes := true;
  }

  /** The rows before `n`, sorted into the verifier's three sets. */
  ghost predicate Classified(rows: seq<FinalRow>, expired: set<string>, dead: set<string>, live: set<string>) {
    expired == Ids(rows, Expired) && dead == Ids(rows, Poisoned) && live == Ids(rows, Live)
  }

  lemma OneMoreRow(rows: seq<FinalRow>, r: FinalRow, pick: FinalRow -> bool)
    ensures Ids(rows + [r], pick) == Ids(rows, pick) + if pick(r) then {r.id} else {}
  {
    assert r in rows + [r];
  }

  lemma ClassifiedGrows(rows: seq<FinalRow>, r: FinalRow, expired: set<string>, dead: set<string>, live: set<string>)
    requires Classified(rows, expired, dead, live)
    ensures Classified(rows + [r], if Expired(r) then expired + {r.id} else expired,
                       if Poisoned(r) then dead + {r.id} else dead, if Live(r) then live + {r.id} else live)
  {
    OneMoreRow(rows, r, Expired);
    OneMoreRow(rows, r, Poisoned);
    OneMoreRow(rows, r, Live);
  }

  datatype Kind = LiveRow | ExpiredRow | DeadRow | Unreadable

  method KindOf(r: FinalRow) returns (kind: Kind)
    ensures RowReadable(r) <==> kind != Unreadable
    ensures RowReadable(r) ==> (Live(r) <==> kind == LiveRow)
                               && (Expired(r) <==> kind == ExpiredRow) && (Poisoned(r) <==> kind == DeadRow)
  {
    if Blank(r.id) || r.created < 0 || r.updated < r.created { return Unreadable; }
    if r.state == "pending" || r.state == "in_flight" { return LiveRow; }
    if r.state != "dead" { return Unreadable; }
    if r.lastError == "expired_ttl" { return ExpiredRow; }
    kind := if Blank(r.lastError) then Unreadable else DeadRow;
  }

  ghost predicate AllReadable(rows: seq<FinalRow>) { forall r | r in rows :: RowReadable(r) }

  ghost predicate AllStrict(rows: seq<FinalRow>, ttl: int) { forall r | r in rows && Expired(r) :: StrictTtl(r, ttl) }

  lemma OneMoreFinal(rows: seq<FinalRow>, r: FinalRow, ttl: int)
    ensures AllReadable(rows + [r]) <==> AllReadable(rows) && RowReadable(r)
    ensures AllStrict(rows + [r], ttl) <==> AllStrict(rows, ttl) && (Expired(r) ==> StrictTtl(r, ttl))
  {
    assert forall x :: x in rows + [r] <==> x in rows || x == r;
  }

  /** One row more, put into its set. */
  method ClassifyRow(ghost before: seq<FinalRow>, r: FinalRow, ttl: int, was: Outcomes)
    returns (readable: bool, now: Outcomes)
    requires AllReadable(before) && Classified(before, was.expired, was.dead, was.live)
    requires was.failures == 0 <==> AllStrict(before, ttl)
    ensures readable <==> AllReadable(before + [r])
    ensures readable ==> Classified(before + [r], now.expired, now.dead, now.live)
    ensures readable ==> (now.failures == 0 <==> AllStrict(before + [r], ttl))
  {
    now := was;
    OneMoreFinal(before, r, ttl);
    var kind := KindOf(r);
    if kind == Unreadable { return false, was; }
    readable := true;
    ClassifiedGrows(before, r, was.expired, was.dead, was.live);
    if kind == LiveRow {
      now := now.(live := now.live + {r.id});
    } else if kind == DeadRow {
      now := now.(dead := now.dead + {r.id});
    } else {
      now := now.(expired := now.expired + {r.id});
      if ttl <= 0 || r.updated - r.created <= ttl { now := now.(failures := now.failures + 1); }
    }
  }

  datatype Outcomes = Outcomes(expired: set<string>, dead: set<string>, live: set<string>, failures: nat)

  method Classify(rows: seq<FinalRow>, ttl: int) returns (readable: bool, found: Outcomes)
    ensures readable <==> AllReadable(rows)
    ensures readable ==> Classified(rows, found.expired, found.dead, found.live)
    ensures readable ==> (found.failures == 0 <==> AllStrict(rows, ttl))
  {
    found := Outcomes({}, {}, {}, 0);
    var i := 0;
    while i < |rows|
      invariant 0 <= i <= |rows|
      invariant AllReadable(rows[..i])
      invariant Classified(rows[..i], found.expired, found.dead, found.live)
      invariant found.failures == 0 <==> AllStrict(rows[..i], ttl)
    {
      assert rows[..i + 1] == rows[..i] + [rows[i]];
      readable, found := ClassifyRow(rows[..i], rows[i], ttl, found);
      if !readable {
        PrefixReadable(rows, i + 1);
        return false, found;
      }
      i := i + 1;
    }
    assert rows[..i] == rows;
    readable := true;
  }

  lemma PrefixReadable(rows: seq<FinalRow>, i: nat)
    requires i <= |rows|
    ensures AllReadable(rows) ==> AllReadable(rows[..i])
  {
  }

  lemma NothingOutside(a: set<string>, b: set<string>)
    ensures a - b == {} <==> a <= b
  {
    assert forall x | x in a :: x in b || x in a - b;
  }

  lemma NothingShared(a: set<string>, b: set<string>)
    ensures a * b == {} <==> a !! b
  {
    assert forall x | x in a && x in b :: x in a * b;
  }

  /** The `i`-th set lies within the injected ids and meets no later one. */
  predicate Fits(injected: set<string>, outcomes: seq<set<string>>, i: int)
    requires 0 <= i < |outcomes|
  {
    outcomes[i] <= injected && forall j | i < j < |outcomes| :: outcomes[i] !! outcomes[j]
  }

  method CountConflicts(injected: set<string>, outcomes: seq<set<string>>) returns (failures: nat)
    ensures failures == 0 <==> forall k | 0 <= k < |outcomes| :: Fits(injected, outcomes, k)
  {
    failures := 0;
    var i := 0;
    while i < |outcomes|
      invariant 0 <= i <= |outcomes|
      invariant failures == 0 <==> forall k | 0 <= k < i :: Fits(injected, outcomes, k)
    {
      ghost var earlier := failures;
      if outcomes[i] - injected != {} { failures := failures + 1; }
      NothingOutside(outcomes[i], injected);
      var before := failures;
      var j := i + 1;
      while j < |outcomes|
        invariant i < j <= |outcomes| && before <= failures
        invariant failures == before <==> forall k | i < k < j :: outcomes[i] !! outcomes[k]
      {
        if outcomes[i] * outcomes[j] != {} { failures := failures + 1; }
        NothingShared(outcomes[i], outcomes[j]);
        j := j + 1;
      }
      assert failures == earlier <==> Fits(injected, outcomes, i);
      i := i + 1;
    }
  }

  method CheckOutcomes(e: Evidence, o: Options) returns (readable: bool, failures: nat)
    ensures readable <==> OutcomesReadable(e)
    ensures readable ==> (failures == 0 <==> OutcomesClean(e, o))
  {
    failures := 0;
    var a := Distinct(e.injected);
    var b := Distinct(e.rejected);
    var c := Distinct(e.expectedDead);
    var d := Distinct(RowIds(e.final));
    if !a || !b || !c || !d || e.injected == [] { return false, 0; }
    var found;
    readable, found := Classify(e.final, o.ttl);
    if !readable { return false, 0; }
    var expired, dead, live := found.expired, found.dead, found.live;
    failures := found.failures;
    var injected, consumed := Elements(e.injected), Elements(e.consumed);
    var rejected, expectedDead := Elements(e.rejected), Elements(e.expectedDead);
    if live != {} { failures := failures + 1; }
    if rejected != {} && !o.allowRejected { failures := failures + 1; }
    if dead != expectedDead { failures := failures + 1; }
    var outcomes := [consumed, rejected, expired, dead];
    var conflicts := CountConflicts(injected, outcomes);
    failures := failures + conflicts;
    if live - injected != {} { failures := failures + 1; }
    if injected - (consumed + rejected + expired + dead) != {} { failures := failures + 1; }
    FourOutcomes(injected, consumed, rejected, expired, dead);
  }

  /** Pairwise disjoint subsets that cover the whole make a disjoint union. */
  lemma FourOutcomes(injected: set<string>, a: set<string>, b: set<string>, c: set<string>, d: set<string>)
    ensures var all := [a, b, c, d];
            ((forall k | 0 <= k < |all| :: Fits(injected, all, k)) && injected - (a + b + c + d) == {})
            <==> injected == a + b + c + d && a !! b !! c !! d
  {
    var all := [a, b, c, d];
    assert all[0] == a && all[1] == b && all[2] == c && all[3] == d;
    assert Fits(injected, all, 0) <==> a <= injected && a !! b && a !! c && a !! d;
    assert Fits(injected, all, 1) <==> b <= injected && b !! c && b !! d;
    assert Fits(injected, all, 2) <==> c <= injected && c !! d;
    assert Fits(injected, all, 3) <==> d <= injected;
    NothingOutside(injected, a + b + c + d);
  }

  // ---------------------------------------------------------------- the order check

  method FirstPositions(consumed: seq<string>) returns (first: map<string, nat>)
    ensures first.Keys == Elements(consumed)
    ensures forall x | x in first :: IsFirst(consumed, x, first[x])
  {
    first := map[];
    var i := 0;
    while i < |consumed|
      invariant 0 <= i <= |consumed|
      invariant first.Keys == Elements(consumed[..i])
      invariant forall x | x in first :: IsFirst(consumed, x, first[x])
    {
      assert consumed[..i + 1] == consumed[..i] + [consumed[i]];
      if consumed[i] !in first {
        assert forall j | 0 <= j < i :: consumed[j] in consumed[..i];
        first := first[consumed[i] := i];
      }
      i := i + 1;
    }
    assert consumed[..i] == consumed;
  }

  /** The events of one call, in the order of the file. */
  function OfCall(events: seq<InjectedEvent>, call: string): seq<InjectedEvent> {
    if events == [] then []
    else
      var before := OfCall(events[..|events| - 1], call);
      if events[|events| - 1].call == call then before + [events[|events| - 1]] else before
  }

  lemma {:induction false} OfCallHolds(events: seq<InjectedEvent>, call: string, r: InjectedEvent)
    ensures r in OfCall(events, call) <==> r in events && r.call == call
  {
    if events != [] {
      var n := |events| - 1;
      assert events == events[..n] + [events[n]];
      OfCallHolds(events[..n], call, r);
    }
  }

  predicate NoRepeatedSequence(events: seq<InjectedEvent>) {
    forall i, j | 0 <= i < j < |events| :: events[i].sequence != events[j].sequence
  }

  lemma OneMoreSequence(rest: seq<InjectedEvent>, r: InjectedEvent)
    ensures NoRepeatedSequence(rest + [r]) <==>
            NoRepeatedSequence(rest) && forall k | 0 <= k < |rest| :: rest[k].sequence != r.sequence
  {
    var all := rest + [r];
    assert forall k | 0 <= k < |rest| :: all[k] == rest[k];
    assert all[|rest|] == r;
  }

  /** Distinct sequences within a call, said of the file or of the call's own list. */
  lemma {:induction false} OfCallRepeats(events: seq<InjectedEvent>, call: string)
    ensures NoRepeatedSequence(OfCall(events, call)) <==> DistinctIn(events, call)
  {
    if events != [] {
      var n := |events| - 1;
      var rest := OfCall(events[..n], call);
      OfCallRepeats(events[..n], call);
      assert forall k | 0 <= k < n :: events[..n][k] == events[k];
      if events[n].call == call {
        forall k | 0 <= k < |rest| ensures rest[k] in events[..n] && rest[k].call == call {
          OfCallHolds(events[..n], call, rest[k]);
        }
        forall k | 0 <= k < n && events[k].call == call ensures events[k] in rest {
          OfCallHolds(events[..n], call, events[k]);
        }
        OneMoreSequence(rest, events[n]);
      }
    }
  }

  /** The calls of the events, each with its own events in the order of the file. */
  ghost predicate Grouped(events: seq<InjectedEvent>, calls: map<string, seq<InjectedEvent>>) {
    && (forall c :: c in calls <==> c != "" && exists r :: r in events && r.call == c)
    && (forall c | c != "" :: OfCall(events, c) == if c in calls then calls[c] else [])
  }

  lemma GroupedGrows(events: seq<InjectedEvent>, r: InjectedEvent, calls: map<string, seq<InjectedEvent>>)
    requires Grouped(events, calls)
    ensures Grouped(events + [r], if r.call == "" then calls else
                                  calls[r.call := (if r.call in calls then calls[r.call] else []) + [r]])
  {
    var more := if r.call == "" then calls else
                calls[r.call := (if r.call in calls then calls[r.call] else []) + [r]];
    forall c ensures c in more <==> c != "" && exists x :: x in events + [r] && x.call == c {
      OneMoreCaller(events, r, c);
    }
    forall c | c != "" ensures OfCall(events + [r], c) == if c in more then more[c] else [] {
      OneMoreOfCall(events, r, c);
    }
  }

  lemma OneMoreCaller(events: seq<InjectedEvent>, r: InjectedEvent, c: string)
    ensures (exists x :: x in events + [r] && x.call == c) <==> r.call == c || exists x :: x in events && x.call == c
  {
    assert r in events + [r];
    if x :| x in events && x.call == c { assert x in events + [r]; }
  }

  lemma {:induction false} OneMoreOfCall(events: seq<InjectedEvent>, r: InjectedEvent, c: string)
    ensures OfCall(events + [r], c) == if r.call == c then OfCall(events, c) + [r] else OfCall(events, c)
  {
    assert (events + [r])[..|events|] == events;
  }

  /** setdefault(call, []).append(r), for events that belong to a call. */
  method AddToCall(ghost before: seq<InjectedEvent>, r: InjectedEvent, calls: map<string, seq<InjectedEvent>>)
    returns (more: map<string, seq<InjectedEvent>>)
    requires Grouped(before, calls)
    ensures Grouped(before + [r], more)
  {
    GroupedGrows(before, r, calls);
    more := calls;
    if r.call != "" { more := more[r.call := (if r.call in more then more[r.call] else []) + [r]]; }
  }

  method GroupCalls(events: seq<InjectedEvent>) returns (readable: bool, calls: map<string, seq<InjectedEvent>>)
    ensures readable <==> forall r | r in events :: 0 <= r.sequence
    ensures readable ==> Grouped(events, calls)
  {
    calls := map[];
    var i := 0;
    while i < |events|
      invariant 0 <= i <= |events|
      invariant forall k | 0 <= k < i :: 0 <= events[k].sequence
      invariant Grouped(events[..i], calls)
    {
      var r := events[i];
      assert events[..i + 1] == events[..i] + [r];
      if r.sequence < 0 { return false, calls; }
      calls := AddToCall(events[..i], r, calls);
      i := i + 1;
    }
    assert events[..i] == events;
    readable := true;
  }

  method HasRepeatedSequence(events: seq<InjectedEvent>) returns (yes: bool)
    ensures yes <==> !NoRepeatedSequence(events)
  {
    var seen: set<int> := {};
    var i := 0;
    while i < |events|
      invariant 0 <= i <= |events| && NoRepeatedSequence(events[..i])
      invariant seen == set k | 0 <= k < i :: events[k].sequence
    {
      if events[i].sequence in seen { return true; }
      seen := seen + {events[i].sequence};
      i := i + 1;
    }
    assert events[..i] == events;
    yes := false;
  }

  predicate Increasing(events: seq<InjectedEvent>) {
    forall i, j | 0 <= i < j < |events| :: events[i].sequence < events[j].sequence
  }

  method InsertBySequence(sorted: seq<InjectedEvent>, r: InjectedEvent) returns (more: seq<InjectedEvent>)
    requires Increasing(sorted) && forall x | x in sorted :: x.sequence != r.sequence
    ensures Increasing(more) && multiset(more) == multiset(sorted) + multiset{r}
  {
    var at := |sorted|;
    while 0 < at && r.sequence < sorted[at - 1].sequence
      invariant 0 <= at <= |sorted|
      invariant forall k | at <= k < |sorted| :: r.sequence < sorted[k].sequence
    {
      at := at - 1;
    }
    assert at > 0 ==> sorted[at - 1] in sorted;
    SpliceIncreases(sorted, at, r);
    SpliceAddsOne(sorted, at, r);
    more := sorted[..at] + [r] + sorted[at..];
  }

  lemma SpliceAddsOne(sorted: seq<InjectedEvent>, at: nat, r: InjectedEvent)
    requires at <= |sorted|
    ensures multiset(sorted[..at] + [r] + sorted[at..]) == multiset(sorted) + multiset{r}
  {
    assert sorted == sorted[..at] + sorted[at..];
  }

  lemma SpliceIncreases(sorted: seq<InjectedEvent>, at: nat, r: InjectedEvent)
    requires Increasing(sorted) && at <= |sorted|
    requires forall k | 0 <= k < at :: sorted[k].sequence < r.sequence
    requires forall k | at <= k < |sorted| :: r.sequence < sorted[k].sequence
    ensures Increasing(sorted[..at] + [r] + sorted[at..])
  {
    var more := sorted[..at] + [r] + sorted[at..];
    forall i, j | 0 <= i < j < |more| ensures more[i].sequence < more[j].sequence {
      if j < at {
        assert more[i] == sorted[i] && more[j] == sorted[j];
      } else if j == at {
        assert more[i] == sorted[i];
      } else if i == at {
        assert more[j] == sorted[j - 1];
      } else if i < at {
        assert more[i] == sorted[i] && more[j] == sorted[j - 1];
      } else {
        assert more[i] == sorted[i - 1] && more[j] == sorted[j - 1];
      }
    }
  }

  method BySequence(events: seq<InjectedEvent>) returns (sorted: seq<InjectedEvent>)
    requires NoRepeatedSequence(events)
    ensures Increasing(sorted) && multiset(sorted) == multiset(events)
  {
    sorted := [];
    var i := 0;
    while i < |events|
      invariant 0 <= i <= |events|
      invariant Increasing(sorted) && multiset(sorted) == multiset(events[..i])
    {
      assert events[..i + 1] == events[..i] + [events[i]];
      forall x | x in sorted ensures x.sequence != events[i].sequence {
        assert x in multiset(events[..i]);
      }
      sorted := InsertBySequence(sorted, events[i]);
      i := i + 1;
    }
    assert events[..i] == events;
  }

  lemma SeenBeforeIs(consumed: seq<string>, first: map<string, nat>, y: string, x: string)
    requires first.Keys == Elements(consumed)
    requires forall z | z in first :: IsFirst(consumed, z, first[z])
    ensures SeenBefore(consumed, y, x) <==> x in first && y in first && first[y] < first[x]
  {
    assert forall z, i | IsFirst(consumed, z, i) :: z in Elements(consumed) && i == first[z];
  }

  /** `a` precedes `b` in the list, yet `b` was observed first. */
  predicate Swapped(sorted: seq<InjectedEvent>, first: map<string, nat>, a: nat, b: nat)
    requires a < |sorted| && b < |sorted|
  {
    a < b && sorted[a].id in first && sorted[b].id in first && first[sorted[b].id] < first[sorted[a].id]
  }

  method PositionsAscend(sorted: seq<InjectedEvent>, first: map<string, nat>) returns (yes: bool)
    ensures !yes <==> exists a, b | 0 <= a < |sorted| && 0 <= b < |sorted| :: Swapped(sorted, first, a, b)
  {
    var last, i := -1, 0;
    ghost var at := 0;
    while i < |sorted|
      invariant 0 <= i <= |sorted|
      invariant last == -1 || (0 <= at < i && sorted[at].id in first && first[sorted[at].id] == last)
      invariant forall k | 0 <= k < i && sorted[k].id in first :: first[sorted[k].id] <= last
      invariant forall a, b | 0 <= a < i && 0 <= b < i :: !Swapped(sorted, first, a, b)
    {
      if sorted[i].id in first {
        if first[sorted[i].id] < last {
          assert Swapped(sorted, first, at, i);
          return false;
        }
        last, at := first[sorted[i].id], i;
      }
      i := i + 1;
    }
    yes := true;
  }

  /** Whether one call's first observations follow its sequence numbers. */
  method InCallOrder(events: seq<InjectedEvent>, consumed: seq<string>, first: map<string, nat>)
    returns (yes: bool)
    requires first.Keys == Elements(consumed)
    requires forall z | z in first :: IsFirst(consumed, z, first[z])
    requires NoRepeatedSequence(events)
    ensures !yes <==> exists a, b :: a in events && b in events
                                     && a.sequence < b.sequence && SeenBefore(consumed, b.id, a.id)
  {
    var sorted := BySequence(events);
    SwappedIsSeenBefore(sorted, events, consumed, first);
    yes := PositionsAscend(sorted, first);
  }

  lemma SwappedWereSeen(sorted: seq<InjectedEvent>, events: seq<InjectedEvent>, consumed: seq<string>,
                        first: map<string, nat>, a: nat, b: nat)
    requires first.Keys == Elements(consumed)
    requires forall z | z in first :: IsFirst(consumed, z, first[z])
    requires Increasing(sorted) && multiset(sorted) == multiset(events)
    requires a < |sorted| && b < |sorted| && Swapped(sorted, first, a, b)
    ensures sorted[a] in events && sorted[b] in events && sorted[a].sequence < sorted[b].sequence
    ensures SeenBefore(consumed, sorted[b].id, sorted[a].id)
  {
    assert sorted[a] in multiset(sorted) && sorted[b] in multiset(sorted);
    SeenBeforeIs(consumed, first, sorted[b].id, sorted[a].id);
  }

  lemma SeenAreSwapped(sorted: seq<InjectedEvent>, events: seq<InjectedEvent>, consumed: seq<string>,
                       first: map<string, nat>, x: InjectedEvent, y: InjectedEvent)
    requires first.Keys == Elements(consumed)
    requires forall z | z in first :: IsFirst(consumed, z, first[z])
    requires Increasing(sorted) && multiset(sorted) == multiset(events)
    requires x in events && y in events && x.sequence < y.sequence && SeenBefore(consumed, y.id, x.id)
    ensures exists a, b | 0 <= a < |sorted| && 0 <= b < |sorted| :: Swapped(sorted, first, a, b)
  {
    SeenBeforeIs(consumed, first, y.id, x.id);
    assert x in multiset(sorted) && y in multiset(sorted);
    var k :| 0 <= k < |sorted| && sorted[k] == x;
    var j :| 0 <= j < |sorted| && sorted[j] == y;
    assert Swapped(sorted, first, k, j);
  }

  lemma SwappedIsSeenBefore(sorted: seq<InjectedEvent>, events: seq<InjectedEvent>,
                            consumed: seq<string>, first: map<string, nat>)
    requires first.Keys == Elements(consumed)
    requires forall z | z in first :: IsFirst(consumed, z, first[z])
    requires Increasing(sorted) && multiset(sorted) == multiset(events)
    ensures (exists a, b | 0 <= a < |sorted| && 0 <= b < |sorted| :: Swapped(sorted, first, a, b)) <==>
            exists a, b :: a in events && b in events
                           && a.sequence < b.sequence && SeenBefore(consumed, b.id, a.id)
  {
    if a, b :| 0 <= a < |sorted| && 0 <= b < |sorted| && Swapped(sorted, first, a, b) {
      SwappedWereSeen(sorted, events, consumed, first, a, b);
    }
    if x, y :| x in events && y in events && x.sequence < y.sequence && SeenBefore(consumed, y.id, x.id) {
      SeenAreSwapped(sorted, events, consumed, first, x, y);
    }
  }

  ghost function InvertedAmong(events: seq<InjectedEvent>, consumed: seq<string>, calls: set<string>): set<string> {
    set c | c in calls && Inverted(events, consumed, c)
  }

  /** The two tests of one call. */
  method CheckCall(events: seq<InjectedEvent>, consumed: seq<string>, first: map<string, nat>,
                   call: string, mine: seq<InjectedEvent>) returns (readable: bool, inverted: bool)
    requires first.Keys == Elements(consumed)
    requires forall z | z in first :: IsFirst(consumed, z, first[z])
    requires mine == OfCall(events, call)
    ensures readable <==> NoRepeatedSequence(mine)
    ensures readable ==> (inverted <==> Inverted(events, consumed, call))
  {
    var repeated := HasRepeatedSequence(mine);
    if repeated { return false, false; }
    var ok := InCallOrder(mine, consumed, first);
    InvertedIs(events, consumed, call);
    readable, inverted := true, !ok;
  }

  /** One failure for each inverted call, as long as no call repeats a sequence. */
  method CountInverted(events: seq<InjectedEvent>, consumed: seq<string>, first: map<string, nat>,
                       calls: map<string, seq<InjectedEvent>>)
    returns (readable: bool, bad: set<string>, failures: nat)
    requires first.Keys == Elements(consumed)
    requires forall z | z in first :: IsFirst(consumed, z, first[z])
    requires forall c | c in calls :: calls[c] == OfCall(events, c)
    ensures readable <==> forall c | c in calls :: NoRepeatedSequence(calls[c])
    ensures readable ==> bad == InvertedAmong(events, consumed, calls.Keys)
    ensures readable ==> failures == |bad|
  {
    failures, bad := 0, {};
    var todo := calls.Keys;
    while todo != {}
      invariant todo <= calls.Keys
      invariant forall c | c in calls && c !in todo :: NoRepeatedSequence(calls[c])
      invariant forall c :: c in bad <==> c in calls && c !in todo && Inverted(events, consumed, c)
      invariant failures == |bad|
    {
      var call :| call in todo;
      var inverted;
      readable, inverted := CheckCall(events, consumed, first, call, calls[call]);
      if !readable { return false, {}, 0; }
      if inverted {
        bad := bad + {call};
        failures := failures + 1;
      }
      todo := todo - {call};
    }
    readable := true;
  }

  /** The order check over the whole run. */
  method CheckOrder(events: seq<InjectedEvent>, consumed: seq<string>)
    returns (readable: bool, bad: set<string>, failures: nat)
    ensures readable <==> OrderReadable(events)
    ensures readable ==> bad == set r | r in events && r.call != "" && Inverted(events, consumed, r.call) :: r.call
    ensures readable ==> failures == |bad|
  {
    var first := FirstPositions(consumed);
    var calls;
    readable, calls := GroupCalls(events);
    if !readable || calls == map[] {
      NothingGrouped(events, calls, readable);
      return false, {}, 0;
    }
    assert forall c | c in calls :: c != "" && calls[c] == OfCall(events, c);
    readable, bad, failures := CountInverted(events, consumed, first, calls);
    GroupedReadable(events, calls);
    GroupedInverted(events, consumed, calls);
  }

  /** No two events of the call share a sequence. */
  ghost predicate DistinctIn(events: seq<InjectedEvent>, c: string) {
    forall i, j | 0 <= i < j < |events| && events[i].call == c && events[j].call == c ::
      events[i].sequence != events[j].sequence
  }

  lemma DistinctInAll(events: seq<InjectedEvent>)
    ensures (forall i, j | 0 <= i < j < |events| && events[i].call != "" && events[i].call == events[j].call ::
               events[i].sequence != events[j].sequence)
            <==> forall r | r in events && r.call != "" :: DistinctIn(events, r.call)
  {
    if forall r | r in events && r.call != "" :: DistinctIn(events, r.call) {
      forall i, j | 0 <= i < j < |events| && events[i].call != "" && events[i].call == events[j].call
        ensures events[i].sequence != events[j].sequence
      {
        assert DistinctIn(events, events[i].call);
      }
    }
  }

  lemma GroupedReadable(events: seq<InjectedEvent>, calls: map<string, seq<InjectedEvent>>)
    requires Grouped(events, calls) && calls != map[] && forall r | r in events :: 0 <= r.sequence
    ensures OrderReadable(events) <==> forall c | c in calls :: NoRepeatedSequence(calls[c])
  {
    var some :| some in calls;
    DistinctInAll(events);
    forall c | c in calls ensures NoRepeatedSequence(calls[c]) <==> DistinctIn(events, c) {
      OfCallRepeats(events, c);
    }
  }

  lemma GroupedInverted(events: seq<InjectedEvent>, consumed: seq<string>, calls: map<string, seq<InjectedEvent>>)
    requires Grouped(events, calls)
    ensures InvertedAmong(events, consumed, calls.Keys)
            == set r | r in events && r.call != "" && Inverted(events, consumed, r.call) :: r.call
  {
  }

  lemma NothingGrouped(events: seq<InjectedEvent>, calls: map<string, seq<InjectedEvent>>, readable: bool)
    requires readable <==> forall r | r in events :: 0 <= r.sequence
    requires readable ==> Grouped(events, calls)
    requires !readable || calls == map[]
    ensures !OrderReadable(events)
  {
    forall r | r in events && r.call != "" ensures !readable {
      assert r.call !in calls || calls != map[];
    }
  }

  lemma {:induction false} InvertedIs(events: seq<InjectedEvent>, consumed: seq<string>, call: string)
    ensures Inverted(events, consumed, call) <==>
            exists a, b :: a in OfCall(events, call) && b in OfCall(events, call)
                           && a.sequence < b.sequence && SeenBefore(consumed, b.id, a.id)
  {
    forall r: InjectedEvent ensures r in OfCall(events, call) <==> r in events && r.call == call {
      OfCallHolds(events, call, r);
    }
  }

  // ---------------------------------------------------------------- events, recovery, exit code

  method CheckEvents(e: Evidence) returns (readable: bool)
    ensures readable <==> EventsReadable(e)
  {
    var ids := seq(|e.events|, i requires 0 <= i < |e.events| => e.events[i].id);
    var distinct := Distinct(ids);
    readable := distinct
                && (forall r | r in e.events :: !Blank(r.id) && r.phase in {"baseline", "during", "recovery"})
                && (set r | r in e.events :: r.id) == Elements(e.injected);
    assert forall i | 0 <= i < |ids| :: ids[i] == e.events[i].id;
  }

  predicate Timed(observed: map<string, seq<int>>, id: string, t: int) {
    id in observed && t in observed[id]
  }

  predicate Reported(receipts: seq<Receipt>, id: string, t: int) {
    exists x | x in receipts :: x.id == id && x.observed == t
  }

  lemma OneMoreReport(receipts: seq<Receipt>, x: Receipt, id: string, t: int)
    ensures Reported(receipts + [x], id, t) <==> Reported(receipts, id, t) || (id == x.id && t == x.observed)
  {
    assert x in receipts + [x];
  }

  method ObservedTimes(receipts: seq<Receipt>) returns (readable: bool, observed: map<string, seq<int>>)
    ensures readable <==> forall x | x in receipts :: 0 <= x.partition && 0 <= x.offset && 0 <= x.observed
    ensures readable ==> forall id, t :: Timed(observed, id, t) <==> Reported(receipts, id, t)
  {
    observed := map[];
    var i := 0;
    while i < |receipts|
      invariant 0 <= i <= |receipts|
      invariant forall k | 0 <= k < i ::
                  0 <= receipts[k].partition && 0 <= receipts[k].offset && 0 <= receipts[k].observed
      invariant forall id, t :: Timed(observed, id, t) <==> Reported(receipts[..i], id, t)
    {
      var x := receipts[i];
      assert receipts[..i + 1] == receipts[..i] + [x];
      if x.partition < 0 || x.offset < 0 || x.observed < 0 { return false, observed; }
      ghost var before := observed;
      observed := observed[x.id := (if x.id in observed then observed[x.id] else []) + [x.observed]];
      forall id, t ensures Timed(observed, id, t) <==> Reported(receipts[..i + 1], id, t) {
        assert Timed(observed, id, t) <==> Timed(before, id, t) || (id == x.id && t == x.observed);
        OneMoreReport(receipts[..i], x, id, t);
      }
      i := i + 1;
    }
    assert receipts[..i] == receipts;
    readable := true;
  }

  /** Whether an event of the phase was observed at a time of interest. */
  method AnyObserved(e: Evidence, observed: map<string, seq<int>>, phase: string, when: int -> bool)
    returns (yes: bool)
    requires forall id, t :: Timed(observed, id, t) <==> Reported(e.receipts, id, t)
    ensures yes <==> Observed(e, phase, when)
  {
    yes := exists r | r in e.events && r.phase == phase && r.id in observed ::
             exists t | t in observed[r.id] :: when(t);
    if Observed(e, phase, when) {
      var r, x :| r in e.events && r.phase == phase && x in e.receipts && x.id == r.id && when(x.observed);
      assert Reported(e.receipts, r.id, x.observed);
      assert Timed(observed, r.id, x.observed);
    } else if yes {
      var r :| r in e.events && r.phase == phase && r.id in observed && exists t | t in observed[r.id] :: when(t);
      var t :| t in observed[r.id] && when(t);
      assert Timed(observed, r.id, t);
    }
  }

  method CheckRecovery(e: Evidence) returns (readable: bool, failures: nat)
    ensures readable <==> RecoveryReadable(e)
    ensures readable ==> (failures == 0 <==> RecoveryClean(e))
  {
    failures := 0;
    var m := e.recovery;
    if !IdentityReadable(m.before) || !IdentityReadable(m.after) { return false, 0; }
    if m.before != m.after || m.reloads != 0 { failures := failures + 1; }
    if m.faultStart < 0 || m.faultEnd < 0 { return false, 0; }
    if m.faultEnd <= m.faultStart || m.exitCode != 0 { failures := failures + 1; }
    if (exists x | x in e.receipts :: Blank(x.id)) || multiset(ReceiptIds(e.receipts)) != multiset(e.consumed) {
      return false, 0;
    }
    var observed;
    readable, observed := ObservedTimes(e.receipts);
    if !readable { return false, 0; }
    var early := AnyObserved(e, observed, "baseline", (t: int) => t <= m.faultStart);
    var late := AnyObserved(e, observed, "recovery", (t: int) => t > m.faultEnd);
    if !HasPhase(e.events, "baseline") { failures := failures + 1; }
    if !early { failures := failures + 1; }
    if !HasPhase(e.events, "during") { failures := failures + 1; }
    if !HasPhase(e.events, "recovery") { failures := failures + 1; }
    if !late { failures := failures + 1; }
  }

  /** The verifier: exactly the exit code its evidence deserves. */
  method Verify(e: Evidence, o: Options) returns (code: int)
    ensures code == Verdict(e, o)
  {
    var readable, failures := CheckOutcomes(e, o);
    if !readable { return 3; }
    var orderFailed := false;
    if o.checkOrder || o.requireRecovery {
      readable := CheckEvents(e);
      if !readable { return 3; }
    }
    ghost var plain := failures;
    if o.checkOrder {
      var bad, inverted;
      readable, bad, inverted := CheckOrder(e.events, e.consumed);
      if !readable { return 3; }
      failures := failures + inverted;
      orderFailed := inverted > 0;
      assert bad == InvertedCalls(e);
    }
    if o.requireRecovery {
      var recovery;
      readable, recovery := CheckRecovery(e);
      if !readable { return 3; }
      failures := failures + recovery;
    }
    code := if failures == 0 then 0 else if orderFailed && failures == 1 then 2 else 1;
  }

  /** What passing means: the evidence can be read, outcomes partition the run, recovery is clean if asked
      for, and with the order check every call's first observations follow its sequence. */
  lemma PassMeans(e: Evidence, o: Options)
    ensures Verdict(e, o) == 0 <==>
              Readable(e, o) && OutcomesClean(e, o) && (o.requireRecovery ==> RecoveryClean(e))
              && (o.checkOrder ==> FirstsFollowSequence(e))
  {
    if o.checkOrder && Readable(e, o) { NoInversionMeans(e); }
  }

  ghost predicate FirstsFollowSequence(e: Evidence) {
    forall a, b, i, j ::
      (a in e.events && b in e.events && a.call == b.call != "" && a.sequence < b.sequence
       && IsFirst(e.consumed, a.id, i) && IsFirst(e.consumed, b.id, j)) ==> i < j
  }

  lemma NoInversionMeans(e: Evidence)
    requires EventsReadable(e)
    ensures InvertedCalls(e) == {} <==> FirstsFollowSequence(e)
  {
    if InvertedCalls(e) == {} {
      forall a, b, i, j | a in e.events && b in e.events && a.call == b.call != "" && a.sequence < b.sequence
                          && IsFirst(e.consumed, a.id, i) && IsFirst(e.consumed, b.id, j)
        ensures i < j
      {
        assert a.call !in InvertedCalls(e);
        assert !SeenBefore(e.consumed, b.id, a.id);
        DistinctIds(e, a, b);
      }
    }
  }

  lemma DistinctIds(e: Evidence, a: InjectedEvent, b: InjectedEvent)
    requires EventsReadable(e) && a in e.events && b in e.events && a.sequence < b.sequence
    ensures a.id != b.id
  {
    var i :| 0 <= i < |e.events| && e.events[i] == a;
    var j :| 0 <= j < |e.events| && e.events[j] == b;
    assert if i < j then e.events[i].id != e.events[j].id else e.events[j].id != e.events[i].id;
  }
}

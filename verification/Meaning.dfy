/** The exit codes keep their promises. */
module EvidenceMeaning {
  import opened OutboxText
  import opened EvidenceContract
  import opened EvidenceVerifier

  // ---------------------------------------------------------------- reading

  lemma SaysIs(text: string)
    ensures Says(text) <==> !Blank(text)
  {
    if !Blank(text) {
      var k :| 0 <= k < |text| && !IsSpace(text[k]);
      assert !(text[k] == ' ' || 9 <= text[k] as int <= 13 || 28 <= text[k] as int <= 31);
    } else {
      assert forall k | 0 <= k < |text| :: IsSpace(text[k]);
    }
  }

  lemma OnceIs(xs: seq<string>)
    ensures Once(xs) <==> NoRepeats(xs)
  {
    if NoRepeats(xs) {
      forall i, j | 0 <= i < |xs| && 0 <= j < |xs| && xs[i] == xs[j] ensures i == j {
        assert !(i < j) && !(j < i);
      }
    }
  }

  lemma FinalIs(r: FinalRow)
    ensures FinalSays(r) <==> RowReadable(r)
  {
    SaysIs(r.id);
    SaysIs(r.lastError);
    var marker := "expired_ttl";
    assert marker[0] == 'e' && !Blank(marker);
  }

  lemma OutcomesRead(e: Evidence)
    ensures OutcomesCanBeRead(e) <==> OutcomesReadable(e)
  {
    OnceIs(e.injected);
    OnceIs(e.rejected);
    OnceIs(e.expectedDead);
    AllFinalsRead(e.final);
    FinalIdsOnce(e.final);
  }

  lemma AllFinalsRead(final: seq<FinalRow>)
    ensures (forall i | 0 <= i < |final| :: FinalSays(final[i])) <==> forall r | r in final :: RowReadable(r)
  {
    forall r | r in final ensures FinalSays(r) <==> RowReadable(r) { FinalIs(r); }
  }

  lemma FinalIdsOnce(final: seq<FinalRow>)
    ensures (forall i, j | 0 <= i < |final| && 0 <= j < |final| && final[i].id == final[j].id :: i == j)
            <==> NoRepeats(RowIds(final))
  {
    var ids := RowIds(final);
    OnceIs(ids);
    assert forall i | 0 <= i < |final| :: ids[i] == final[i].id;
  }

  lemma EventsRead(e: Evidence)
    ensures EventsCanBeRead(e) <==> EventsReadable(e)
  {
    EventTexts(e.events);
    EventIdsOnce(e.events);
    EventsCover(e.events, e.injected);
    assert EventsCanBeRead(e) <==>
             (forall i | 0 <= i < |e.events| :: EventSays(e.events[i])) && IdsOnce(e.events)
             && Covers(e.events, e.injected);
  }

  ghost predicate IdsOnce(events: seq<InjectedEvent>) {
    forall i, j | 0 <= i < |events| && 0 <= j < |events| && events[i].id == events[j].id :: i == j
  }

  ghost predicate Covers(events: seq<InjectedEvent>, injected: seq<string>) {
    && (forall i | 0 <= i < |events| :: events[i].id in injected)
    && (forall x | x in injected :: exists i | 0 <= i < |events| :: events[i].id == x)
  }

  lemma EventsCover(events: seq<InjectedEvent>, injected: seq<string>)
    ensures Covers(events, injected) <==> (set r | r in events :: r.id) == Elements(injected)
  {
    var ids := set r | r in events :: r.id;
    forall x ensures x in ids <==> exists i | 0 <= i < |events| :: events[i].id == x {
      if r :| r in events && r.id == x { assert exists i | 0 <= i < |events| :: events[i] == r; }
      if i :| 0 <= i < |events| && events[i].id == x { assert events[i] in events; }
    }
    if Covers(events, injected) {
      forall x | x in ids ensures x in Elements(injected) {
        var i :| 0 <= i < |events| && events[i].id == x;
      }
    }
    if ids == Elements(injected) {
      forall i | 0 <= i < |events| ensures events[i].id in injected { assert events[i].id in ids; }
      forall x | x in injected ensures exists i | 0 <= i < |events| :: events[i].id == x { assert x in ids; }
    }
  }

  predicate EventSays(r: InjectedEvent) {
    Says(r.id) && (r.phase == "baseline" || r.phase == "during" || r.phase == "recovery")
  }

  lemma EventTexts(events: seq<InjectedEvent>)
    ensures (forall i | 0 <= i < |events| :: EventSays(events[i])) <==>
            forall r | r in events :: !Blank(r.id) && r.phase in {"baseline", "during", "recovery"}
  {
    forall r | r in events ensures Says(r.id) <==> !Blank(r.id) { SaysIs(r.id); }
  }

  lemma EventIdsOnce(events: seq<InjectedEvent>)
    ensures IdsOnce(events) <==> forall i, j | 0 <= i < j < |events| :: events[i].id != events[j].id
  {
    if forall i, j | 0 <= i < j < |events| :: events[i].id != events[j].id {
      forall i, j | 0 <= i < |events| && 0 <= j < |events| && events[i].id == events[j].id ensures i == j {
        assert !(i < j) && !(j < i);
      }
    }
  }

  lemma OrderRead(e: Evidence)
    ensures OrderCanBeRead(e) <==> OrderReadable(e.events)
  {
    var events := e.events;
    if OrderReadable(events) {
      forall i, j | 0 <= i < |events| && 0 <= j < |events| && events[i].call != ""
                    && events[i].call == events[j].call && events[i].sequence == events[j].sequence
        ensures i == j
      {
        assert !(i < j) && !(j < i);
      }
    }
  }

  lemma RecoveryRead(e: Evidence)
    ensures RecoveryCanBeRead(e) <==> RecoveryReadable(e)
  {
    SaysIs(e.recovery.before.start);
    SaysIs(e.recovery.after.start);
    assert ReceiptIds(e.receipts) == seq(|e.receipts|, i requires 0 <= i < |e.receipts| => e.receipts[i].id);
    forall x | x in e.receipts ensures Says(x.id) <==> !Blank(x.id) { SaysIs(x.id); }
  }

  lemma ReadingIs(e: Evidence, o: Options)
    ensures CanBeRead(e, o) <==> Readable(e, o)
  {
    OutcomesRead(e);
    EventsRead(e);
    OrderRead(e);
    RecoveryRead(e);
  }

  // ---------------------------------------------------------------- outcomes and recovery

  lemma EndedIs(e: Evidence, x: string)
    ensures EndedBy(e, x, true) <==> x in Ids(e.final, Expired)
    ensures EndedBy(e, x, false) <==> x in Ids(e.final, Poisoned)
  {
    assert forall r | r in e.final :: exists i | 0 <= i < |e.final| :: e.final[i] == r;
  }

  /** Ending in one way, if injected, and in none otherwise, is being in a disjoint union. */
  lemma PartitionIs(injected: set<string>, a: set<string>, b: set<string>, c: set<string>, d: set<string>)
    ensures (forall x :: One(x in a) + One(x in b) + One(x in c) + One(x in d) == One(x in injected))
            <==> injected == a + b + c + d && a !! b !! c !! d
  {
    if forall x :: One(x in a) + One(x in b) + One(x in c) + One(x in d) == One(x in injected) {
      forall x ensures x in injected <==> x in a + b + c + d {
        assert One(x in a) + One(x in b) + One(x in c) + One(x in d) == One(x in injected);
      }
      forall x | x in a + b + c + d ensures One(x in a) + One(x in b) + One(x in c) + One(x in d) == 1 {}
    }
  }

  lemma EndsIs(e: Evidence)
    ensures (forall x :: Ends(e, x) == One(x in e.injected)) <==>
            var expired, dead := Ids(e.final, Expired), Ids(e.final, Poisoned);
            var consumed, rejected := Elements(e.consumed), Elements(e.rejected);
            Elements(e.injected) == consumed + rejected + expired + dead && consumed !! rejected !! expired !! dead
  {
    var expired, dead := Ids(e.final, Expired), Ids(e.final, Poisoned);
    var consumed, rejected := Elements(e.consumed), Elements(e.rejected);
    PartitionIs(Elements(e.injected), consumed, rejected, expired, dead);
    forall x ensures Ends(e, x) == One(x in consumed) + One(x in rejected) + One(x in expired) + One(x in dead) {
      EndedIs(e, x);
    }
    assert forall x :: One(x in e.injected) == One(x in Elements(e.injected));
  }

  lemma DeadIs(e: Evidence)
    ensures (forall x :: EndedBy(e, x, false) <==> x in e.expectedDead) <==>
            Ids(e.final, Poisoned) == Elements(e.expectedDead)
  {
    forall x ensures EndedBy(e, x, false) <==> x in Ids(e.final, Poisoned) { EndedIs(e, x); }
  }

  lemma LiveIs(e: Evidence)
    ensures (forall i | 0 <= i < |e.final| :: e.final[i].state != "pending" && e.final[i].state != "in_flight") <==>
            Ids(e.final, Live) == {}
  {
    if i :| 0 <= i < |e.final| && (e.final[i].state == "pending" || e.final[i].state == "in_flight") {
      assert Live(e.final[i]) && e.final[i].id in Ids(e.final, Live);
    }
  }

  lemma AccountedIs(e: Evidence, o: Options)
    ensures Accounted(e, o) <==> OutcomesClean(e, o)
  {
    EndsIs(e);
    DeadIs(e);
    LiveIs(e);
    RejectedIs(e);
    StrictIs(e.final, o.ttl);
  }

  lemma RejectedIs(e: Evidence)
    ensures |e.rejected| > 0 <==> Elements(e.rejected) != {}
  {
    if |e.rejected| > 0 { assert e.rejected[0] in Elements(e.rejected); }
  }

  lemma StrictIs(final: seq<FinalRow>, ttl: int)
    ensures (forall i | 0 <= i < |final| && final[i].state == "dead" && final[i].lastError == "expired_ttl" ::
               0 < ttl && final[i].updated - final[i].created > ttl)
            <==> forall r | r in final && Expired(r) :: StrictTtl(r, ttl)
  {
    assert forall i | 0 <= i < |final| :: final[i] in final;
    assert forall r | r in final :: exists i | 0 <= i < |final| :: final[i] == r;
    assert forall r: FinalRow :: StrictTtl(r, ttl) <==> 0 < ttl && r.updated - r.created > ttl;
  }

  lemma ReceivedIs(e: Evidence, phase: string, t: int, when: int -> bool, after: bool)
    requires forall u :: when(u) == ((u > t) == after)
    ensures Received(e, phase, t, after) <==> Observed(e, phase, when)
  {
    if r, x :| r in e.events && r.phase == phase && x in e.receipts && x.id == r.id && when(x.observed) {
      var i :| 0 <= i < |e.events| && e.events[i] == r;
      var k :| 0 <= k < |e.receipts| && e.receipts[k] == x;
      assert e.events[i].phase == phase && e.receipts[k].id == e.events[i].id;
    }
  }

  lemma PhaseIs(events: seq<InjectedEvent>, phase: string)
    ensures HasPhase(events, phase) <==> exists i | 0 <= i < |events| :: events[i].phase == phase
  {
  }

  lemma RecoveredIs(e: Evidence)
    ensures Recovered(e) <==> RecoveryClean(e)
  {
    var m := e.recovery;
    PhaseIs(e.events, "baseline");
    PhaseIs(e.events, "during");
    PhaseIs(e.events, "recovery");
    ReceivedIs(e, "baseline", m.faultStart, (t: int) => t <= m.faultStart, false);
    ReceivedIs(e, "recovery", m.faultEnd, (t: int) => t > m.faultEnd, true);
  }

  // ---------------------------------------------------------------- order

  lemma {:induction false} FirstExists(xs: seq<string>, x: string)
    requires x in xs
    ensures exists i :: IsFirst(xs, x, i)
  {
    var n := |xs| - 1;
    if x in xs[..n] {
      FirstExists(xs[..n], x);
      var i :| IsFirst(xs[..n], x, i);
      assert IsFirst(xs, x, i);
    } else {
      assert forall j | 0 <= j < n :: xs[j] in xs[..n];
      assert IsFirst(xs, x, n);
    }
  }

  lemma OvertookIs(consumed: seq<string>, y: string, x: string)
    requires x != y
    ensures Overtook(consumed, y, x) <==> SeenBefore(consumed, y, x)
  {
    if Overtook(consumed, y, x) {
      var n :| 0 <= n <= |consumed| && y in consumed[..n] && x !in consumed[..n];
      FirstExists(consumed, x);
      FirstExists(consumed[..n], y);
      var i :| IsFirst(consumed, x, i);
      var j :| IsFirst(consumed[..n], y, j);
      assert IsFirst(consumed, y, j);
      assert forall k | 0 <= k < n :: consumed[..n][k] == consumed[k];
    }
    if SeenBefore(consumed, y, x) {
      var i, j :| IsFirst(consumed, x, i) && IsFirst(consumed, y, j) && j < i;
      assert consumed[..i][j] == y;
    }
  }

  lemma OutOfOrderIs(e: Evidence, call: string)
    requires EventsReadable(e)
    ensures OutOfOrder(e, call) <==> Inverted(e.events, e.consumed, call)
  {
    forall a, b | a in e.events && b in e.events && a.sequence < b.sequence
      ensures Overtook(e.consumed, b.id, a.id) <==> SeenBefore(e.consumed, b.id, a.id)
    {
      DistinctIds(e, a, b);
      OvertookIs(e.consumed, b.id, a.id);
    }
    if Inverted(e.events, e.consumed, call) {
      var a, b :| a in e.events && b in e.events && a.call == call && b.call == call
                  && a.sequence < b.sequence && SeenBefore(e.consumed, b.id, a.id);
      var i :| 0 <= i < |e.events| && e.events[i] == a;
      var j :| 0 <= j < |e.events| && e.events[j] == b;
      assert Overtook(e.consumed, e.events[j].id, e.events[i].id);
    }
  }

  lemma InvertedIsOutOfOrder(e: Evidence, c: string)
    requires EventsReadable(e)
    ensures c in InvertedCalls(e) <==> c != "" && OutOfOrder(e, c)
  {
    OutOfOrderIs(e, c);
  }

  lemma Single(s: set<string>)
    ensures |s| == 1 <==> exists x :: Only(s, x)
  {
    if x :| Only(s, x) { assert s == {x}; }
    if |s| == 1 {
      var x :| x in s;
      assert |s - {x}| == 0;
      assert forall y | y in s :: y == x || y in s - {x};
      assert Only(s, x);
    }
  }

  lemma NoneIs(e: Evidence)
    requires EventsReadable(e)
    ensures InvertedCalls(e) == {} <==> NoneOutOfOrder(e)
  {
    if c :| c != "" && OutOfOrder(e, c) { InvertedIsOutOfOrder(e, c); }
    if c :| c in InvertedCalls(e) { InvertedIsOutOfOrder(e, c); }
  }

  ghost predicate Only(bad: set<string>, c: string) { c in bad && forall d | d in bad :: d == c }

  lemma OnlyIs(e: Evidence, c: string)
    requires EventsReadable(e)
    ensures Only(InvertedCalls(e), c) <==>
              c != "" && OutOfOrder(e, c) && forall d | d != "" && OutOfOrder(e, d) :: d == c
  {
    var bad := InvertedCalls(e);
    InvertedIsOutOfOrder(e, c);
    if Only(bad, c) {
      forall d | d != "" && OutOfOrder(e, d) ensures d == c { InvertedIsOutOfOrder(e, d); }
    } else if c in bad {
      var d :| d in bad && d != c;
      InvertedIsOutOfOrder(e, d);
    }
  }

  lemma OneIs(e: Evidence)
    requires EventsReadable(e)
    ensures |InvertedCalls(e)| == 1 <==> OneOutOfOrder(e)
  {
    Single(InvertedCalls(e));
    if c :| Only(InvertedCalls(e), c) { OnlyIs(e, c); }
    if c :| c != "" && OutOfOrder(e, c) && forall d | d != "" && OutOfOrder(e, d) :: d == c { OnlyIs(e, c); }
  }

  // ---------------------------------------------------------------- the codes

  function CodeOf(readable: bool, fine: bool, checkOrder: bool, none: bool, one: bool): int {
    if !readable then 3 else if !fine then 1 else if !checkOrder || none then 0 else if one then 2 else 1
  }

  lemma VerdictIs(e: Evidence, o: Options)
    ensures Verdict(e, o) == CodeOf(Readable(e, o), OutcomesClean(e, o) && (o.requireRecovery ==> RecoveryClean(e)),
                                    o.checkOrder, InvertedCalls(e) == {}, |InvertedCalls(e)| == 1)
  {
  }

  lemma OrderAskedReads(e: Evidence, o: Options)
    requires Readable(e, o) && o.checkOrder
    ensures EventsReadable(e)
  {
  }

  lemma FineIs(e: Evidence, o: Options)
    ensures (Accounted(e, o) && (o.requireRecovery ==> Recovered(e))) <==>
            (OutcomesClean(e, o) && (o.requireRecovery ==> RecoveryClean(e)))
  {
    AccountedIs(e, o);
    RecoveredIs(e);
  }

  lemma ThreeMeans(e: Evidence, o: Options)
    ensures Verdict(e, o) == 3 <==> !CanBeRead(e, o)
    ensures 0 <= Verdict(e, o) <= 3
  {
    VerdictIs(e, o);
    ReadingIs(e, o);
  }

  /** What is left once everything can be read. */
  lemma OthersMean(e: Evidence, o: Options, fine: bool, none: bool, one: bool)
    requires Readable(e, o) && (fine <==> OutcomesClean(e, o) && (o.requireRecovery ==> RecoveryClean(e)))
    requires o.checkOrder ==> (none <==> InvertedCalls(e) == {}) && (one <==> |InvertedCalls(e)| == 1)
    ensures Verdict(e, o) == 0 <==> fine && (o.checkOrder ==> none)
    ensures Verdict(e, o) == 2 <==> fine && o.checkOrder && one
  {
    VerdictIs(e, o);
    assert |InvertedCalls(e)| == 1 ==> InvertedCalls(e) != {};
  }

  lemma ReadMeans(e: Evidence, o: Options)
    requires Readable(e, o)
    ensures var fine := Accounted(e, o) && (o.requireRecovery ==> Recovered(e));
            && (Verdict(e, o) == 0 <==> fine && (o.checkOrder ==> NoneOutOfOrder(e)))
            && (Verdict(e, o) == 2 <==> fine && o.checkOrder && OneOutOfOrder(e))
  {
    FineIs(e, o);
    if o.checkOrder {
      OrderAskedReads(e, o);
      NoneIs(e);
      OneIs(e);
    }
    OthersMean(e, o, Accounted(e, o) && (o.requireRecovery ==> Recovered(e)), NoneOutOfOrder(e), OneOutOfOrder(e));
  }

  /** Main result.  Whatever the files hold: 3 exactly if something asked for cannot be read; 0 exactly if
      all can be read, every id is accounted for, recovery is proved if asked for, and no call is out of
      order if that is asked for; 2 exactly if nothing but one call's order is wrong. */
  lemma CodeMeans(e: Evidence, o: Options)
    ensures Means(e, o, Verdict(e, o))
  {
    ThreeMeans(e, o);
    if CanBeRead(e, o) {
      ReadingIs(e, o);
      ReadMeans(e, o);
    }
  }

  /** The program, and what its answer means. */
  method VerifyRun(e: Evidence, o: Options) returns (code: int)
    ensures Means(e, o, code)
  {
    code := Verify(e, o);
    CodeMeans(e, o);
  }
}

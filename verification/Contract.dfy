/** What the run verifier reads, and what its exit codes promise, said of the files themselves. */
module EvidenceContract {
  datatype FinalRow = FinalRow(id: string, state: string, lastError: string, created: int, updated: int)
  datatype InjectedEvent = InjectedEvent(id: string, call: string, sequence: int, phase: string)
  datatype Receipt = Receipt(id: string, partition: int, offset: int, observed: int)
  datatype Identity = Identity(pid: int, start: string, others: map<string, string>)
  datatype Recovery = Recovery(before: Identity, after: Identity, reloads: int,
                               faultStart: int, faultEnd: int, exitCode: int)

  /** The files of one run, read and parsed. */
  datatype Evidence = Evidence(injected: seq<string>, consumed: seq<string>, rejected: seq<string>,
                               expectedDead: seq<string>, final: seq<FinalRow>,
                               events: seq<InjectedEvent>, recovery: Recovery, receipts: seq<Receipt>)

  datatype Options = Options(allowRejected: bool, ttl: int, checkOrder: bool, requireRecovery: bool)

  // ---------------------------------------------------------------- what can be read

  /** Something is left of the text once it is stripped. */
  predicate Says(text: string) {
    exists k | 0 <= k < |text| :: !(text[k] == ' ' || 9 <= text[k] as int <= 13 || 28 <= text[k] as int <= 31)
  }

  /** No entry is written twice. */
  ghost predicate Once(xs: seq<string>) {
    forall i, j | 0 <= i < |xs| && 0 <= j < |xs| && xs[i] == xs[j] :: i == j
  }

  predicate FinalSays(r: FinalRow) {
    && Says(r.id) && 0 <= r.created && r.created <= r.updated
    && (r.state == "pending" || r.state == "in_flight" || (r.state == "dead" && Says(r.lastError)))
  }

  ghost predicate OutcomesCanBeRead(e: Evidence) {
    && |e.injected| > 0 && Once(e.injected) && Once(e.rejected) && Once(e.expectedDead)
    && (forall i | 0 <= i < |e.final| :: FinalSays(e.final[i]))
    && (forall i, j | 0 <= i < |e.final| && 0 <= j < |e.final| && e.final[i].id == e.final[j].id :: i == j)
  }

  /** The events file names a phase for each injected event, and for nothing else, once. */
  ghost predicate EventsCanBeRead(e: Evidence) {
    && (forall i | 0 <= i < |e.events| ::
          Says(e.events[i].id)
          && (e.events[i].phase == "baseline" || e.events[i].phase == "during" || e.events[i].phase == "recovery"))
    && (forall i, j | 0 <= i < |e.events| && 0 <= j < |e.events| && e.events[i].id == e.events[j].id :: i == j)
    && (forall i | 0 <= i < |e.events| :: e.events[i].id in e.injected)
    && (forall x | x in e.injected :: exists i | 0 <= i < |e.events| :: e.events[i].id == x)
  }

  ghost predicate OrderCanBeRead(e: Evidence) {
    && (forall i | 0 <= i < |e.events| :: 0 <= e.events[i].sequence)
    && (exists i | 0 <= i < |e.events| :: e.events[i].call != "")
    && (forall i, j | 0 <= i < |e.events| && 0 <= j < |e.events|
          && e.events[i].call != "" && e.events[i].call == e.events[j].call
          && e.events[i].sequence == e.events[j].sequence :: i == j)
  }

  ghost predicate RecoveryCanBeRead(e: Evidence) {
    var m := e.recovery;
    && 0 < m.before.pid && Says(m.before.start) && 0 < m.after.pid && Says(m.after.start)
    && 0 <= m.faultStart && 0 <= m.faultEnd
    && multiset(seq(|e.receipts|, i requires 0 <= i < |e.receipts| => e.receipts[i].id)) == multiset(e.consumed)
    && forall i | 0 <= i < |e.receipts| ::
         Says(e.receipts[i].id)
         && 0 <= e.receipts[i].partition && 0 <= e.receipts[i].offset && 0 <= e.receipts[i].observed
  }

  /** Everything asked for can be read. */
  ghost predicate CanBeRead(e: Evidence, o: Options) {
    && OutcomesCanBeRead(e)
    && (o.checkOrder || o.requireRecovery ==> EventsCanBeRead(e))
    && (o.checkOrder ==> OrderCanBeRead(e))
    && (o.requireRecovery ==> RecoveryCanBeRead(e))
  }

  // ---------------------------------------------------------------- what passes

  /** The snapshot has the id dead of the TTL, or dead of something else. */
  ghost predicate EndedBy(e: Evidence, x: string, ttl: bool) {
    exists i | 0 <= i < |e.final| ::
      e.final[i].id == x && e.final[i].state == "dead" && (e.final[i].lastError == "expired_ttl") == ttl
  }

  function One(b: bool): nat { if b then 1 else 0 }

  /** In how many ways the id ended. */
  ghost function Ends(e: Evidence, x: string): nat {
    One(x in e.consumed) + One(x in e.rejected) + One(EndedBy(e, x, true)) + One(EndedBy(e, x, false))
  }

  /** Each injected id ended in exactly one way and no other id in any; the dead are those expected; nothing
      is live; rejection was allowed or absent; and each expiry took longer than the TTL. */
  ghost predicate Accounted(e: Evidence, o: Options) {
    && (forall x :: Ends(e, x) == One(x in e.injected))
    && (forall x :: EndedBy(e, x, false) <==> x in e.expectedDead)
    && (forall i | 0 <= i < |e.final| :: e.final[i].state != "pending" && e.final[i].state != "in_flight")
    && (|e.rejected| > 0 ==> o.allowRejected)
    && (forall i | 0 <= i < |e.final| && e.final[i].state == "dead" && e.final[i].lastError == "expired_ttl" ::
          0 < o.ttl && e.final[i].updated - e.final[i].created > o.ttl)
  }

  /** An event of the phase was received at a time before or at `t`, or after it. */
  ghost predicate Received(e: Evidence, phase: string, t: int, after: bool) {
    exists i, k | 0 <= i < |e.events| && 0 <= k < |e.receipts| ::
      e.events[i].phase == phase && e.receipts[k].id == e.events[i].id && (e.receipts[k].observed > t) == after
  }

  /** One sender lived through the fault, which ended well; events were injected in every phase, and
      received before the fault and, of the last phase, after it. */
  ghost predicate Recovered(e: Evidence) {
    var m := e.recovery;
    && m.before == m.after && m.reloads == 0 && m.faultEnd > m.faultStart && m.exitCode == 0
    && (exists i | 0 <= i < |e.events| :: e.events[i].phase == "baseline")
    && (exists i | 0 <= i < |e.events| :: e.events[i].phase == "during")
    && (exists i | 0 <= i < |e.events| :: e.events[i].phase == "recovery")
    && Received(e, "baseline", m.faultStart, false) && Received(e, "recovery", m.faultEnd, true)
  }

  /** At some point `y` had been consumed, and `x`, which was consumed too, had not. */
  ghost predicate Overtook(consumed: seq<string>, y: string, x: string) {
    x in consumed && x != y && exists n | 0 <= n <= |consumed| :: y in consumed[..n] && x !in consumed[..n]
  }

  /** Some event of the call overtook one of a smaller sequence. */
  ghost predicate OutOfOrder(e: Evidence, call: string) {
    exists i, j | 0 <= i < |e.events| && 0 <= j < |e.events| ::
      e.events[i].call == call && e.events[j].call == call && e.events[i].sequence < e.events[j].sequence
      && Overtook(e.consumed, e.events[j].id, e.events[i].id)
  }

  ghost predicate NoneOutOfOrder(e: Evidence) { forall c | c != "" :: !OutOfOrder(e, c) }

  ghost predicate OneOutOfOrder(e: Evidence) {
    exists c :: c != "" && OutOfOrder(e, c) && forall d | d != "" && OutOfOrder(e, d) :: d == c
  }

  /** What the code promises. */
  ghost predicate Means(e: Evidence, o: Options, code: int) {
    var fine := CanBeRead(e, o) && Accounted(e, o) && (o.requireRecovery ==> Recovered(e));
    && 0 <= code <= 3
    && (code == 3 <==> !CanBeRead(e, o))
    && (code == 0 <==> fine && (o.checkOrder ==> NoneOutOfOrder(e)))
    && (code == 2 <==> fine && o.checkOrder && OneOutOfOrder(e))
  }
}

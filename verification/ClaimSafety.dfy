/** What every safe record says about the agent as a whole, read off the rules that `AgentLoop.Run`
    keeps, and two records those rules allow. */
module ClaimSafety {
  import opened Options
  import opened Dispatching
  import opened ClaimReports
  import opened ClaimWorld

  /** An outcome that was made durable is acknowledged by the server before the agent asks for work
      again, whatever crashes and lost replies lie in between. */
  lemma DurableOutcomeIsDeliveredBeforePolling(t: seq<Event>, i: nat, j: nat, m: Marker)
    requires Safe(t) && i < j < |t|
    requires t[i] == Secured(m) && m.terminal.Some? && t[j].Polled?
    ensures exists k, report | 0 <= k < j :: t[k] == Acknowledged(m.deployment, report) && report.token == m.token
  {
    InPrefix(t, i, j);
    assert Allowed(t[..j], t[j]);
    assert Answered(t[..j], m.deployment, m.token);
    var report :| Acknowledged(m.deployment, report) in t[..j] && report.token == m.token;
    var k :| 0 <= k < j && t[..j][k] == Acknowledged(m.deployment, report);
    assert t[k] == Acknowledged(m.deployment, report);
  }

  /** The agent asks for work only with nothing left over and no report on disk. */
  lemma PollingIsCalm(t: seq<Event>, j: nat)
    requires Safe(t) && j < |t| && t[j].Polled?
    ensures t[j].calm && !HasReport(t[j].visible)
    ensures t[j].settled ==> !HasReport(t[j].durable)
  {
    assert Allowed(t[..j], t[j]);
  }

  /** Success, failure and cancellation are reported only when nothing of the claim is left, and
      once its workload began only as the outcome on disk says. */
  lemma OrdinaryReportsLeaveNothingBehind(t: seq<Event>, i: nat)
    requires Safe(t) && i < |t| && t[i].Sent? && t[i].report.Ordinary()
    ensures t[i].calm
    ensures Executed(t[i].id) in t[..i] ==>
              && Carries(t[i].visible, t[i].id, t[i].report)
              && (t[i].settled ==> Carries(t[i].durable, t[i].id, t[i].report))
  {
    assert Allowed(t[..i], t[i]);
  }

  /** An outcome leaves the disk only after it was acknowledged, and a cleanup report of an executed
      claim moreover only when the runtime holds nothing of it. */
  lemma ReportsLeaveTheDiskAcknowledged(t: seq<Event>, i: nat)
    requires Safe(t) && i < |t| && t[i].Removed? && t[i].before.Some?
    ensures var m := t[i].before.value;
            && (m.terminal.Some? ==> Acknowledged(m.deployment, m.terminal.value.report) in t[..i])
            && (m.cleanup.Some? && Executed(m.deployment) in t[..i] ==>
                  t[i].empty && Acknowledged(m.deployment, m.cleanup.value.report) in t[..i])
  {
    assert Allowed(t[..i], t[i]);
  }

  /** One host claim from the request for work to the sealed outcome. */
  function ClaimRun(done: Marker): seq<Event> {
    var legacy := LegacyMarker(1, 1);
    [Polled(None, None, true, true), Wrote(None, legacy), Secured(legacy), StartAccepted(1), Executed(1),
     Wrote(Some(legacy), done), Secured(done)]
  }

  function Done(pairing: Pairing): Marker {
    TerminalMarker(1, 1, Seal(pairing, 1, Result(V2, 1, ResultSucceeded)))
  }

  lemma ClaimRunIsSafe(pairing: Pairing)
    ensures Safe(ClaimRun(Done(pairing)))
  {
    var t := ClaimRun(Done(pairing));
    forall i | 0 <= i < |t|
      ensures Allowed(t[..i], t[i])
    {
      assert i == 4 ==> t[..i][3] == StartAccepted(1);
      assert i in {2, 6} ==> t[..i][i - 1].Wrote?;
    }
  }

  /** Removing the marker and syncing its directory are two steps. When the sync fails the agent
      starts over, finds no marker and asks for work, although a power failure may still bring the
      marker back: the durable copy is free of reports only once the removal is settled. */
  lemma UnsettledMarkerMayReturn(pairing: Pairing)
    ensures
      var done := Done(pairing);
      var acked := done.(terminalAcknowledged := true);
      var report := done.terminal.value.report;
      var t := ClaimRun(done) + [
        Sent(1, report, Some(done), Some(done), true, true), Acknowledged(1, report),
        Wrote(Some(done), acked), Secured(acked), Removed(Some(acked), true),
        Polled(None, Some(acked), false, true)];
      Safe(t) && HasReport(Some(acked))
  {
    hide Safe, Allowed;
    var done := Done(pairing);
    var acked := done.(terminalAcknowledged := true);
    var report := done.terminal.value.report;
    var t0 := ClaimRun(done);
    ClaimRunIsSafe(pairing);
    MaySend(t0, done, Some(done), true);
    var t1 := Safely(t0, Sent(1, report, Some(done), Some(done), true, true));
    MayAcknowledge(t1, report);
    var t2 := Safely(t1, Acknowledged(1, report));
    MayRetire(t2, pairing);
    var t3 := Safely(t2, Wrote(Some(done), acked));
    MaySecure(t2, Wrote(Some(done), acked));
    var t4 := Safely(t3, Secured(acked));
    MayRetire(t4, pairing);
    var t5 := Safely(t4, Removed(Some(acked), true));
    MayPoll(t5, report, Some(acked));
    var t6 := Safely(t5, Polled(None, Some(acked), false, true));
    var ending := [
      Sent(1, report, Some(done), Some(done), true, true), Acknowledged(1, report),
      Wrote(Some(done), acked), Secured(acked), Removed(Some(acked), true), Polled(None, Some(acked), false, true)];
    assert t6 == t0 + ending;
  }

  /** Rewriting the outcome and syncing it are two steps as well. When the sync fails the next session
      finds the cancellation and sends it, although a power failure may still bring the result back,
      which is then sent too. */
  lemma UnsettledCancellationMayBeSent(pairing: Pairing)
    ensures
      var done := Done(pairing);
      var report, other := done.terminal.value.report, Report.Cancelled(V2, 1);
      var rewritten := done.(terminal := Some(Seal(pairing, 1, other)));
      var t := ClaimRun(done) + [
        Sent(1, report, Some(done), Some(done), true, true), Wrote(Some(done), rewritten),
        Sent(1, other, Some(rewritten), Some(done), false, true),
        Sent(1, report, Some(done), Some(done), true, true)];
      Safe(t) && !Carries(Some(done), 1, other)
  {
    hide Safe, Allowed;
    var done := Done(pairing);
    var report, other := done.terminal.value.report, Report.Cancelled(V2, 1);
    var rewritten := done.(terminal := Some(Seal(pairing, 1, other)));
    var t0 := ClaimRun(done);
    ClaimRunIsSafe(pairing);
    MaySend(t0, done, Some(done), true);
    var t1 := Safely(t0, Sent(1, report, Some(done), Some(done), true, true));
    MayRewrite(t1, pairing);
    var t2 := Safely(t1, Wrote(Some(done), rewritten));
    MaySend(t2, rewritten, Some(done), false);
    var t3 := Safely(t2, Sent(1, other, Some(rewritten), Some(done), false, true));
    MaySend(t3, done, Some(done), true);
    var t4 := Safely(t3, Sent(1, report, Some(done), Some(done), true, true));
    var ending := [
      Sent(1, report, Some(done), Some(done), true, true), Wrote(Some(done), rewritten),
      Sent(1, other, Some(rewritten), Some(done), false, true), Sent(1, report, Some(done), Some(done), true, true)];
    assert t4 == t0 + ending;
  }

  lemma MaySend(t: seq<Event>, m: Marker, durable: Option<Marker>, settled: bool)
    requires m.terminal.Some? && (settled ==> durable == Some(m))
    ensures Allowed(t, Sent(m.deployment, m.terminal.value.report, Some(m), durable, settled, true))
  {
  }

  lemma MayAcknowledge(t: seq<Event>, report: Report)
    ensures Allowed(t, Acknowledged(1, report))
  {
  }

  lemma MaySecure(t: seq<Event>, e: Event)
    requires e.Wrote?
    ensures Allowed(t + [e], Secured(e.after))
  {
  }

  lemma MayRetire(t: seq<Event>, pairing: Pairing)
    requires Acknowledged(1, Done(pairing).terminal.value.report) in t
    ensures var acked := Done(pairing).(terminalAcknowledged := true);
            Allowed(t, Wrote(Some(Done(pairing)), acked)) && Allowed(t, Removed(Some(acked), true))
  {
  }

  lemma MayRewrite(t: seq<Event>, pairing: Pairing)
    ensures Allowed(t, Wrote(Some(Done(pairing)),
                             Done(pairing).(terminal := Some(Seal(pairing, 1, Report.Cancelled(V2, 1))))))
  {
  }

  lemma MayPoll(t: seq<Event>, report: Report, durable: Option<Marker>)
    requires Acknowledged(1, report) in t && report.token == 1
    requires forall m | Secured(m) in t :: m.deployment == 1 && m.token == 1
    ensures Allowed(t, Polled(None, durable, false, true))
  {
    assert Answered(t, 1, 1);
  }

  lemma Safely(t: seq<Event>, e: Event) returns (more: seq<Event>)
    requires Safe(t) && Allowed(t, e)
    ensures more == t + [e] && Safe(more)
  {
    more := t + [e];
    SafeThen(t, e);
  }
}

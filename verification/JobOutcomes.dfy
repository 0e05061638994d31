/**
 * When the next batch of a job is admitted, when the job is ended instead, and what a sweep does: both
 * directions, in terms of the record and its history alone.
 */
module JobOutcomes {
  import opened Prelude
  import opened JobBatches

  /** Nothing stands in the way of an attempt: no end, no turn owner, no unread input, and no
      reservation while a completion is pending. */
  predicate Free(e: Engagement) {
    e.ended.None? && e.owners == 0 && e.unread == 0 && !(e.job.completionPending && e.reserved > 0)
  }

  /** The current batch said that it progressed or, in a record of the old count rule, reported and did not
      leave as much as before. */
  predicate Credited(j: Job) {
    var lessLeft := j.remaining.None? || j.prevRemaining.None? || j.remaining.value < j.prevRemaining.value;
    j.advanced == Some(true) || (j.advanced.None? && j.reported && lessLeft)
  }

  /** The batch last known to have progressed. */
  function LastProgress(e: Engagement): int { if Credited(e.job) then e.job.started else e.progressAt }

  predicate Exhausted(e: Engagement) { e.job.batches.Some? && e.job.started >= e.job.batches.value }

  predicate Stuck(e: Engagement) { e.job.started - LastProgress(e) >= 3 }

  predicate HasSpare(e: Engagement) { e.job.completionPending && !e.job.pendingSpared }

  /** An accepted attempt admits batch `started + 1` exactly when the limit leaves room and fewer than
      three batches in a row went without progress, or the spare is still to be used; a refused one
      changes nothing.  Otherwise the job is ended, for the reason that holds, if the write succeeds. */
  lemma NextBatchExactlyWhen(e: Engagement, written: bool, now: int)
    requires Inv(e) && Free(e)
    ensures var tried := Apply(e, TryNext(written));
      if (!Exhausted(e) && !Stuck(e)) || HasSpare(e) then
        && Admits(e, Apply(tried, Answer(true, now)), now) && Apply(tried, Answer(false, now)) == e
      else tried == if written then e.(ended := Some(if Stuck(e) then NoProgress else LimitReached)) else e
  {
  }

  /** What an admission does to the record: the next batch starts uncredited, the one before it has
      been judged, the stall count is forgotten, and the spare is spent only where a limit was reached. */
  predicate Admits(e: Engagement, e': Engagement, now: int) {
    && e'.admitted == e.admitted + [e.job.started + 1]
    && e'.ended.None? && e'.inFlight.None? && e'.owners == e.owners && e'.reserved == e.reserved
    && e'.job.started == e.job.started + 1 && e'.job.judged == e.job.started
    && e'.job.advanced == Some(e.job.started == 0 && Credited(e.job))
    && e'.progressAt == LastProgress(e)
    && e'.job.batches == e.job.batches && e'.job.completionPending == e.job.completionPending
    && (e'.job.pendingSpared <==> e.job.pendingSpared || Exhausted(e) || Stuck(e))
    && e'.job.lastAdvance == Some(now) && e'.job.stalls == 0
  }

  /** The same over every run of a job. */
  lemma BatchesFollowTheLimits(batches: Option<int>, steps: seq<Step>, written: bool, now: int)
    ensures var e := Run(Launched(batches), steps); var tried := Apply(e, TryNext(written));
      && e.job.batches == batches
      && (Free(e) && ((!Exhausted(e) && !Stuck(e)) || HasSpare(e)) ==> Admits(e, Apply(tried, Answer(true, now)), now))
      && (Free(e) && (Exhausted(e) || Stuck(e)) && !HasSpare(e) && written ==> tried.ended.Some?)
      && (tried.ended == Some(LimitReached) && e.ended.None? ==> Exhausted(e) && !HasSpare(e))
      && (tried.ended == Some(NoProgress) && e.ended.None? ==> Stuck(e) && !HasSpare(e))
      && (!Free(e) ==> tried == e)
  {
    InvAlways(Launched(batches), steps);
    LimitNeverChanges(Launched(batches), steps);
    var e := Run(Launched(batches), steps);
    if Free(e) {
      NextBatchExactlyWhen(e, written, now);
    }
  }

  /** The last report of a live job's current batch decides it, and is the only thing that does. */
  lemma LastReportDecides(e: Engagement, batch: int, progressed: bool, now: int)
    ensures var e' := Apply(e, ReportProgress(batch, progressed, now));
      && (e.ended.None? && batch == e.job.started ==>
            e' == e.(job := e.job.(advanced := Some(progressed), lastAdvance := Some(now)))
            && LastProgress(e') == if progressed then e.job.started else e.progressAt)
      && (e.ended.Some? || batch != e.job.started ==> e' == e)
  {
  }

  // ---- the sweep ----------------------------------------------------------

  /** The last sign of life was at least three minutes ago; a job that never showed one counts from its
      creation. */
  predicate Overdue(j: Job, o: Sighting) {
    match j.lastAdvance
    case Some(t) => if t != 0 then o.now >= t + 180 else o.now >= o.startedAt + 180
    case None => o.now >= o.startedAt + 180
  }

  /** A sweep acts exactly on a free record that is overdue and whose launch is over.  It makes one attempt;
      if that neither admits a batch nor ends the job, and the channel is not stopping, one more
      refusal is counted, and the third ends the job if the write succeeds. */
  lemma SweepActsExactlyWhen(e: Engagement, o: Sighting)
    requires Inv(e)
    ensures var e' := Apply(e, SweepOnce(o));
      if !(Free(e) && Overdue(e.job, o) && !o.launching) then e' == e
      else
        var tried := Apply(Apply(e, TryNext(o.written)), Answer(o.handedOff, o.now));
        if |tried.admitted| > |e.admitted| || tried.ended.Some? || o.stopping then e' == tried
        else e' == e.(job := e.job.(stalls := e.job.stalls + 1),
                      ended := if e.job.stalls + 1 >= 3 && o.endWritten then Some(NotContinued) else None)
  {
    hide UpTo, Stage;
  }
}

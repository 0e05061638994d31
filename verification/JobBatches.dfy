/**
 * The batch loop of one job engagement, and the sweep that keeps it alive.
 *
 * A batch is staged first (the previous one is judged, the limits are checked), then its
 * turn is handed off, and the counters are committed only when the hand-off succeeded.
 * Staging and commit are two steps here, so progress reports, operator input and other
 * attempts may land between them.
 */
module JobBatches {
  import opened Prelude

  const MAX_STALLS := 3
  const STALL_SECONDS := 180
  const MAX_STUCK := 3

  /** `origin["job"]`.  `advanced` is absent from a record of the old count rule, which is then
      judged by `reported`, `remaining` and `prevRemaining`. */
  datatype Job = Job(
    batches: Option<int>,
    started: int,
    judged: int,
    stuck: int,
    advanced: Option<bool>,
    reported: bool,
    remaining: Option<int>,
    prevRemaining: Option<int>,
    lastAdvance: Option<int>,
    stalls: int,
    completionPending: bool,
    pendingSpared: bool)

  function InitialJob(batches: Option<int>): Job {
    Job(batches, 0, 0, 0, Some(false), false, None, None, None, 0, false, false)
  }

  datatype Ending = NoProgress | LimitReached | CutOff | NotContinued

  /** A hand-off under way: the staged job, and the batch up to which progress was judged. */
  datatype Handing = Handing(staged: Job, progressAt: int)

  /** `progressAt` and `admitted` are history: the last batch judged to have progressed, and
      every batch number that was admitted. */
  datatype Engagement = Engagement(
    job: Job,
    unread: nat,
    owners: nat,
    reserved: nat,
    inFlight: Option<Handing>,
    ended: Option<Ending>,
    progressAt: int,
    admitted: seq<int>)

  function Launched(batches: Option<int>): Engagement {
    Engagement(InitialJob(batches), 0, 0, 0, None, None, 0, [])
  }

  /** The current batch's own verdict. */
  predicate Progressed(j: Job) {
    match j.advanced
    case Some(b) => b
    case None =>
      j.reported && (j.remaining.None? || j.prevRemaining.None? || j.remaining.value < j.prevRemaining.value)
  }

  function Judge(j: Job): Job {
    var j1 := j.(advanced := Some(Progressed(j)));
    if j1.started > j1.judged then
      j1.(stuck := if Progressed(j) then 0 else j1.stuck + 1, advanced := Some(false), judged := j1.started)
    else j1
  }

  function Limit(j: Job): Option<Ending> {
    if j.stuck >= MAX_STUCK then Some(NoProgress)
    else if j.batches.Some? && j.started >= j.batches.value then Some(LimitReached)
    else None
  }

  datatype Staging = Finalize(why: Ending) | HandOff(job: Job)

  /** The next batch, or the reason there is none; a pending completion spares one batch, once. */
  function Stage(j: Job): Staging {
    var judged := Judge(j);
    var why := Limit(judged);
    if why.Some? && judged.completionPending && !judged.pendingSpared then
      HandOff(judged.(pendingSpared := true, started := judged.started + 1))
    else if why.Some? then Finalize(why.value)
    else HandOff(judged.(started := judged.started + 1))
  }

  /** Only the counters and the used spare are written back, onto the job as it is now. */
  function Commit(j: Job, staged: Job, now: int): Job {
    j.(started := staged.started, judged := staged.judged, stuck := staged.stuck, advanced := staged.advanced,
       pendingSpared := j.pendingSpared || staged.pendingSpared, lastAdvance := Some(now), stalls := 0)
  }

  predicate Blocked(e: Engagement) {
    e.unread > 0 || e.owners > 0 || (e.job.completionPending && e.reserved > 0)
  }

  function ProgressAfter(e: Engagement): int {
    if e.job.started > e.job.judged && Progressed(e.job) then e.job.started else e.progressAt
  }

  /** `start_next_batch` up to its hand-off, which admits its turn as unread input at once.  A job is
      ended by a strict write: if that fails the record stays as it was. */
  function Attempt(e: Engagement, written: bool): Engagement {
    if e.ended.Some? || Blocked(e) then e else
    match Stage(e.job)
    case Finalize(why) => if written then e.(ended := Some(why)) else e
    case HandOff(staged) => e.(inFlight := Some(Handing(staged, ProgressAfter(e))), unread := e.unread + 1)
  }

  /** The hand-off's answer: commit, or drop the staged job and the input it stood for. */
  function Resolve(e: Engagement, handedOff: bool, now: int): Engagement
    requires e.inFlight.Some? && e.unread >= 1
  {
    var h := e.inFlight.value;
    if handedOff then
      e.(job := Commit(e.job, h.staged, now), inFlight := None,
         progressAt := h.progressAt, admitted := e.admitted + [h.staged.started])
    else e.(inFlight := None, unread := e.unread - 1)
  }

  /** `report_job_progress`, called from the turn of batch `batch`. */
  function Report(e: Engagement, batch: int, progressed: bool, now: int): Engagement {
    if e.ended.Some? || batch != e.job.started then e
    else e.(job := e.job.(advanced := Some(progressed), lastAdvance := Some(now)))
  }

  /** What the sweep sees besides the record, how its own hand-off ends, and whether the strict writes
      of a batch that finds a limit and of the sweep itself succeed. */
  datatype Sighting = Sighting(now: int, startedAt: int, launching: bool, stopping: bool, handedOff: bool,
                               written: bool, endWritten: bool)

  predicate Idle(j: Job, o: Sighting) {
    o.now - (if j.lastAdvance.Some? && j.lastAdvance.value != 0 then j.lastAdvance.value else o.startedAt) >= STALL_SECONDS
  }

  predicate Eligible(e: Engagement, o: Sighting) {
    e.ended.None? && !Blocked(e) && !o.launching && Idle(e.job, o)
  }

  /** `start_next_batch` with nothing in between. */
  function AttemptNow(e: Engagement, handedOff: bool, written: bool, now: int): Engagement {
    var e1 := Attempt(e, written);
    if e1.inFlight.Some? && e.inFlight.None? then Resolve(e1, handedOff, now) else e1
  }

  predicate Admitted(e: Engagement, e': Engagement) {
    |e'.admitted| > |e.admitted|
  }

  /** One record's turn in the sweep: continue it, and count a refusal unless the channel is stopping. */
  function Sweep(e: Engagement, o: Sighting): Engagement {
    if !Eligible(e, o) then e else
    var e1 := AttemptNow(e, o.handedOff, o.written, o.now);
    if o.stopping || Admitted(e, e1) || e1.ended.Some? then e1 else
    var stalls := e1.job.stalls + 1;
    e1.(job := e1.job.(stalls := stalls),
        ended := if stalls >= MAX_STALLS && o.endWritten then Some(NotContinued) else None)
  }

  datatype Step =
    | TryNext(written: bool)
    | Answer(handedOff: bool, now: int)
    | ReportProgress(batch: int, progressed: bool, now: int)
    | RefuseCompletion
    | InputArrives
    | InputTaken
    | OwnerStarts
    | OwnerEnds
    | Reserve
    | Unreserve
    | BatchCutOff(written: bool)
    | SweepOnce(o: Sighting)

  /** The unread input a hand-off admitted stays unread until the hand-off is answered. */
  function Apply(e: Engagement, step: Step): Engagement {
    match step
    case TryNext(written) => Attempt(e, written)
    case Answer(ok, now) => if e.inFlight.Some? && e.unread >= 1 then Resolve(e, ok, now) else e
    case ReportProgress(b, p, now) => Report(e, b, p, now)
    case RefuseCompletion => e.(job := e.job.(completionPending := true))
    case InputArrives => e.(unread := e.unread + 1)
    case InputTaken => if e.unread > (if e.inFlight.Some? then 1 else 0) then e.(unread := e.unread - 1) else e
    case OwnerStarts => e.(owners := e.owners + 1)
    case OwnerEnds => if e.owners > 0 then e.(owners := e.owners - 1) else e
    case Reserve => e.(reserved := e.reserved + 1)
    case Unreserve => if e.reserved > 0 then e.(reserved := e.reserved - 1) else e
    case BatchCutOff(written) => if e.ended.None? && written then e.(ended := Some(CutOff)) else e
    case SweepOnce(o) => Sweep(e, o)
  }

  function Run(e: Engagement, steps: seq<Step>): Engagement
    decreases |steps|
  {
    if steps == [] then e else Apply(Run(e, steps[..|steps| - 1]), steps[|steps| - 1])
  }

  // ---- the invariant ------------------------------------------------------

  function Spare(j: Job): int { if j.pendingSpared then 1 else 0 }

  function Floor(n: int): int { if n < 0 then 0 else n }

  /** The counters of a committed job, given the last batch judged to have progressed. */
  predicate Counted(j: Job, progressAt: int) {
    && 0 <= progressAt <= j.judged <= j.started
    && (j.started == 0 || j.started == j.judged + 1)
    && j.stuck == j.judged - progressAt
    && j.stuck <= MAX_STUCK - 1 + Spare(j)
    && (j.batches.Some? ==> j.started <= Floor(j.batches.value) + Spare(j))
  }

  function UpTo(n: int): (s: seq<int>)
    ensures |s| == Floor(n)
  {
    if n <= 0 then [] else UpTo(n - 1) + [n]
  }

  predicate Inv(e: Engagement) {
    && Counted(e.job, e.progressAt)
    && e.admitted == UpTo(e.job.started)
    && 0 <= e.job.stalls
    && (e.inFlight.Some? ==>
          var h := e.inFlight.value;
          && e.unread >= 1
          && Counted(h.staged, h.progressAt)
          && h.staged.started == e.job.started + 1
          && h.staged.batches == e.job.batches
          && (e.job.pendingSpared ==> h.staged.pendingSpared))
  }

  lemma StageCounts(e: Engagement)
    requires Counted(e.job, e.progressAt) && Stage(e.job).HandOff?
    ensures var staged := Stage(e.job).job;
      && Counted(staged, ProgressAfter(e))
      && staged.started == e.job.started + 1 && staged.batches == e.job.batches
      && (e.job.pendingSpared ==> staged.pendingSpared)
  {
  }

  lemma AttemptKeeps(e: Engagement, written: bool)
    requires Inv(e)
    ensures Inv(Attempt(e, written))
  {
    if Stage(e.job).HandOff? {
      StageCounts(e);
    }
  }

  lemma ResolveKeeps(e: Engagement, ok: bool, now: int)
    requires Inv(e) && e.inFlight.Some?
    ensures Inv(Resolve(e, ok, now))
  {
    hide Stage;
  }

  lemma SweepKeeps(e: Engagement, o: Sighting)
    requires Inv(e)
    ensures Inv(Sweep(e, o))
  {
    hide Stage, UpTo;
    AttemptKeeps(e, o.written);
    var e1 := Attempt(e, o.written);
    if e1.inFlight.Some? && e.inFlight.None? {
      ResolveKeeps(e1, o.handedOff, o.now);
    }
  }

  lemma InvKept(e: Engagement, step: Step)
    requires Inv(e)
    ensures Inv(Apply(e, step))
  {
    hide Stage, UpTo;
    match step
    case TryNext(written) => AttemptKeeps(e, written);
    case Answer(ok, now) => if e.inFlight.Some? { ResolveKeeps(e, ok, now); }
    case SweepOnce(o) => SweepKeeps(e, o);
    case _ =>
  }

  lemma {:induction false} InvAlways(e: Engagement, steps: seq<Step>)
    requires Inv(e)
    ensures Inv(Run(e, steps))
    decreases |steps|
  {
    if steps != [] {
      InvAlways(e, steps[..|steps| - 1]);
      InvKept(Run(e, steps[..|steps| - 1]), steps[|steps| - 1]);
    }
  }

  // ---- the theorems -------------------------------------------------------

  /** Over any run: at most one batch is unjudged, the limit is exceeded at most by the one
      spared batch, and at most three batches in a row (four with the spare) go without progress. */
  lemma BatchCountsStayBounded(batches: Option<int>, steps: seq<Step>)
    ensures var e := Run(Launched(batches), steps);
      && e.job.batches == batches
      && 0 <= e.job.judged <= e.job.started <= e.job.judged + 1
      && e.job.stuck <= (if e.job.pendingSpared then 3 else 2)
      && (e.job.batches.Some? ==> e.job.started <= Floor(e.job.batches.value) + Spare(e.job))
      && e.job.started <= e.progressAt + 3 + Spare(e.job)
  {
    InvAlways(Launched(batches), steps);
    LimitNeverChanges(Launched(batches), steps);
  }

  lemma {:induction false} LimitNeverChanges(e: Engagement, steps: seq<Step>)
    ensures Run(e, steps).job.batches == e.job.batches
    decreases |steps|
  {
    if steps != [] {
      LimitNeverChanges(e, steps[..|steps| - 1]);
      StepKeepsLimit(Run(e, steps[..|steps| - 1]), steps[|steps| - 1]);
    }
  }

  lemma StepKeepsLimit(e: Engagement, step: Step)
    ensures Apply(e, step).job.batches == e.job.batches
  {
    hide Stage, Idle, Blocked, ProgressAfter;
  }

  /** Batches are admitted one by one, in order, and none twice. */
  lemma BatchesAreAdmittedInOrder(batches: Option<int>, steps: seq<Step>, k: nat)
    requires k < |Run(Launched(batches), steps).admitted|
    ensures Run(Launched(batches), steps).admitted[k] == k + 1
  {
    InvAlways(Launched(batches), steps);
    UpToAt(Run(Launched(batches), steps).job.started, k);
  }

  lemma {:induction false} UpToAt(n: int, k: nat)
    requires k < |UpTo(n)|
    ensures UpTo(n)[k] == k + 1
  {
    if n > 0 && k < |UpTo(n - 1)| {
      UpToAt(n - 1, k);
    }
  }

  ghost predicate NeverProgressed(e: Engagement) {
    && Inv(e) && e.progressAt == 0 && e.job.advanced == Some(false)
    && (e.inFlight.Some? ==> e.inFlight.value.progressAt == 0 && e.inFlight.value.staged.advanced == Some(false))
  }

  lemma {:induction false} NoReportNoProgress(batches: Option<int>, steps: seq<Step>)
    requires forall i :: 0 <= i < |steps| && steps[i].ReportProgress? ==> !steps[i].progressed
    ensures NeverProgressed(Run(Launched(batches), steps))
    decreases |steps|
  {
    if steps != [] {
      var before := steps[..|steps| - 1];
      NoReportNoProgress(batches, before);
      InvKept(Run(Launched(batches), before), steps[|steps| - 1]);
      NoReportStep(Run(Launched(batches), before), steps[|steps| - 1]);
    }
  }

  lemma NoReportStep(e: Engagement, step: Step)
    requires NeverProgressed(e) && (step.ReportProgress? ==> !step.progressed)
    ensures Inv(Apply(e, step)) ==> NeverProgressed(Apply(e, step))
  {
    hide Inv, Limit, Idle;
  }

  /** A job that never reports progress is admitted at most three batches, four with the spare,
      even when its declaration sets no limit. */
  lemma NoProgressAdmitsThree(batches: Option<int>, steps: seq<Step>)
    requires forall i :: 0 <= i < |steps| && steps[i].ReportProgress? ==> !steps[i].progressed
    ensures var e := Run(Launched(batches), steps); |e.admitted| <= 3 + Spare(e.job)
  {
    NoReportNoProgress(batches, steps);
  }

  /** A refused hand-off leaves the engagement exactly as it was. */
  lemma RefusedHandOffCostsNothing(e: Engagement, now: int)
    requires Inv(e) && Attempt(e, true).inFlight.Some? && e.inFlight.None?
    ensures Resolve(Attempt(e, true), false, now) == e
  {
  }

  /** A hand-off starts only with no turn owner and no unread input, and while one is under way
      another attempt does nothing: no two batches are staged from the same counters. */
  lemma OneHandOffAtATime(batches: Option<int>, steps: seq<Step>, written: bool)
    ensures var e := Run(Launched(batches), steps);
      && (Attempt(e, written).inFlight != e.inFlight ==> e.unread == 0 && e.owners == 0 && e.inFlight.None?)
      && (e.inFlight.Some? ==> Attempt(e, written) == e)
  {
    InvAlways(Launched(batches), steps);
    var e := Run(Launched(batches), steps);
    assert e.inFlight.Some? ==> Blocked(e);
  }

  /** What an ended job's record may still become: a hand-off that was under way when it ended may
      commit its one batch, and nothing else is admitted. */
  predicate Closed(e: Engagement, e': Engagement) {
    && e'.ended == e.ended
    && (e.inFlight.None? ==> e'.inFlight.None? && e'.admitted == e.admitted && e'.job.started == e.job.started)
    && (e.inFlight.Some? ==>
          || (e'.inFlight == e.inFlight && e'.admitted == e.admitted && e'.job.started == e.job.started)
          || (e'.inFlight.None? && e'.admitted == e.admitted && e'.job.started == e.job.started)
          || (e'.inFlight.None? && e'.admitted == e.admitted + [e.inFlight.value.staged.started]
              && e'.job.started == e.inFlight.value.staged.started))
  }

  /** An ended job is never staged, reported or counted again, and no batch is admitted to it but the one
      whose hand-off was under way when it ended. */
  lemma {:induction false} EndedForGood(e: Engagement, steps: seq<Step>)
    requires e.ended.Some?
    ensures Closed(e, Run(e, steps)) && Run(e, steps).job.stalls <= Floor(e.job.stalls)
    decreases |steps|
  {
    if steps != [] {
      EndedForGood(e, steps[..|steps| - 1]);
      hide Stage, Idle;
    }
  }

  // ---- the sweep ----------------------------------------------------------

  /** `o` finds a job that could be continued, and it is neither continued nor ended. */
  predicate RefusedSighting(e: Engagement, o: Sighting) {
    Eligible(e, o) && !o.stopping && (if Stage(e.job).HandOff? then !o.handedOff else !o.written)
  }

  /** How many sweeps of a run were refused, each judged where it happened. */
  function Refusals(e: Engagement, steps: seq<Step>): nat
    decreases |steps|
  {
    if steps == [] then 0
    else
      var front, last := steps[..|steps| - 1], steps[|steps| - 1];
      Refusals(e, front) + (if last.SweepOnce? && RefusedSighting(Run(e, front), last.o) then 1 else 0)
  }

  lemma StepAdmits(e: Engagement, step: Step)
    ensures |Apply(e, step).admitted| >= |e.admitted|
  {
    hide Stage, Idle, Blocked, ProgressAfter;
  }

  lemma {:induction false} RunAdmits(e: Engagement, steps: seq<Step>)
    ensures |Run(e, steps).admitted| >= |e.admitted|
    decreases |steps|
  {
    if steps != [] {
      RunAdmits(e, steps[..|steps| - 1]);
      StepAdmits(Run(e, steps[..|steps| - 1]), steps[|steps| - 1]);
    }
  }

  /** Without an admission a step adds to the count exactly when it is a refused sweep, and ends the job
      for that reason exactly when the count is then full and the write succeeds. */
  lemma StepCounts(e: Engagement, step: Step)
    requires Inv(e) && |Apply(e, step).admitted| == |e.admitted|
    ensures var refused := step.SweepOnce? && RefusedSighting(e, step.o);
      && Apply(e, step).job.stalls == e.job.stalls + (if refused then 1 else 0)
      && (e.ended.None? ==>
            (Apply(e, step).ended == Some(NotContinued) <==>
              refused && e.job.stalls + 1 >= MAX_STALLS && step.o.endWritten))
      && (e.ended.Some? ==> Apply(e, step).ended == e.ended && !refused)
      && (refused ==> e.ended.None?)
  {
    StageEnds(e.job);
    hide Stage, Idle, Counted, ProgressAfter, UpTo;
  }

  lemma StageEnds(j: Job)
    ensures Stage(j).Finalize? ==> Stage(j).why == NoProgress || Stage(j).why == LimitReached
  {
  }

  /** Over any run in which no batch is admitted (reports, operator input, owners and failed ends among
      its steps), the count is the refused sweeps. */
  lemma {:induction false} StallsCountRefusals(e: Engagement, steps: seq<Step>)
    requires Inv(e) && |Run(e, steps).admitted| == |e.admitted|
    ensures Inv(Run(e, steps)) && Run(e, steps).job.stalls == e.job.stalls + Refusals(e, steps)
    decreases |steps|
  {
    if steps != [] {
      var front, last := steps[..|steps| - 1], steps[|steps| - 1];
      RunAdmits(e, front);
      StepAdmits(Run(e, front), last);
      hide Inv, Apply, RefusedSighting;
      StallsCountRefusals(e, front);
      StepCounts(Run(e, front), last);
      InvKept(Run(e, front), last);
    }
  }

  /** A live job that no batch is admitted to is ended by its third refused sweep and by none before:
      while it is live fewer than three have been refused, and when the sweep ends it exactly three
      have, as long as the sweep's own terminal writes succeed.  A failed one leaves it live, to be
      ended by the next refused sweep. */
  lemma {:induction false} ThirdRefusalEndsTheJob(e: Engagement, steps: seq<Step>)
    requires Inv(e) && e.ended.None? && e.job.stalls < MAX_STALLS && |Run(e, steps).admitted| == |e.admitted|
    ensures Run(e, steps).ended == Some(NotContinued) ==> e.job.stalls + Refusals(e, steps) >= MAX_STALLS
    ensures (forall i :: 0 <= i < |steps| && steps[i].SweepOnce? ==> steps[i].o.endWritten) ==>
      && (Run(e, steps).ended.None? ==> e.job.stalls + Refusals(e, steps) < MAX_STALLS)
      && (Run(e, steps).ended == Some(NotContinued) ==> e.job.stalls + Refusals(e, steps) == MAX_STALLS)
    decreases |steps|
  {
    if steps != [] {
      var front, last := steps[..|steps| - 1], steps[|steps| - 1];
      RunAdmits(e, front);
      StepAdmits(Run(e, front), last);
      hide Inv, Apply, RefusedSighting;
      StallsCountRefusals(e, front);
      StepCounts(Run(e, front), last);
      ThirdRefusalEndsTheJob(e, front);
      assert forall i :: 0 <= i < |front| ==> front[i] == steps[i];
    }
  }

  /** An admission resets the count; a stopping channel never adds to it. */
  lemma AdmissionResetsStalls(e: Engagement, o: Sighting)
    requires Inv(e)
    ensures Admitted(e, Sweep(e, o)) ==> Sweep(e, o).job.stalls == 0
    ensures o.stopping && !Admitted(e, Sweep(e, o)) ==> Sweep(e, o).job.stalls == e.job.stalls
  {
    hide Judge, Limit, Idle, Counted, UpTo;
  }

  // ---- turn owners --------------------------------------------------------

  function OwnersOf(m: map<string, nat>, id: string): nat { if id in m then m[id] else 0 }

  predicate Positive(m: map<string, nat>) { forall id :: id in m ==> m[id] > 0 }

  /** `_turn_owners`, a module-level map updated in place. */
  class TurnOwners {
    var owners: map<string, nat>

    method Started(id: string)
      requires Positive(owners)
      modifies this
      ensures Positive(owners)
      ensures forall i :: OwnersOf(owners, i) == OwnersOf(old(owners), i) + (if i == id then 1 else 0)
    {
      owners := owners[id := OwnersOf(owners, id) + 1];
    }

    /** A finish without a start is ignored rather than counted below zero. */
    method Finished(id: string)
      requires Positive(owners)
      modifies this
      ensures Positive(owners)
      ensures forall i :: OwnersOf(owners, i) == if i == id then Floor(OwnersOf(old(owners), i) - 1) else OwnersOf(old(owners), i)
    {
      var n := OwnersOf(owners, id) - 1;
      if n > 0 {
        owners := owners[id := n];
      } else {
        owners := owners - {id};
      }
    }
  }

  // ---- the record, updated in place ----------------------------------------

  /** A job engagement record and the driver facts its batch loop reads. */
  class JobRecord {
    var job: Job
    var unread: nat
    var owners: nat
    var reserved: nat
    var ended: Option<Ending>
    /** What the one `start_next_batch` that is awaiting its hand-off has staged. */
    var inFlight: Option<Job>
    ghost var stagedProgress: int
    ghost var progressAt: int
    ghost var admitted: seq<int>

    ghost function View(): Engagement
      reads this
    {
      Engagement(job, unread, owners, reserved,
        if inFlight.Some? then Some(Handing(inFlight.value, stagedProgress)) else None, ended, progressAt, admitted)
    }

    /** Judge the batch that ran, check the limits and stage the next one. */
    method StageBatch() returns (staging: Staging)
      ensures staging == Stage(job)
    {
      var staged := job;
      if staged.advanced.None? {
        staged := staged.(advanced := Some(staged.reported
          && (staged.remaining.None? || staged.prevRemaining.None? || staged.remaining.value < staged.prevRemaining.value)));
      }
      if staged.started > staged.judged {
        staged := staged.(stuck := if staged.advanced.value then 0 else staged.stuck + 1);
        staged := staged.(advanced := Some(false), judged := staged.started);
      }
      assert staged == Judge(job);
      var detail := None;
      if staged.stuck >= MAX_STUCK {
        detail := Some(NoProgress);
      } else if staged.batches.Some? && staged.started >= staged.batches.value {
        detail := Some(LimitReached);
      }
      if detail.Some? && staged.completionPending && !staged.pendingSpared {
        staged := staged.(pendingSpared := true);
        detail := None;
      }
      if detail.Some? {
        return Finalize(detail.value);
      }
      return HandOff(staged.(started := staged.started + 1));
    }

    /** `start_next_batch` up to its await. */
    method BeginBatch(written: bool)
      requires ended.None? && inFlight.None?
      modifies this
      ensures View() == Attempt(old(View()), written)
    {
      hide Stage, ProgressAfter;
      ghost var progress := ProgressAfter(View());
      if unread > 0 || owners > 0 || (job.completionPending && reserved > 0) {
        return;
      }
      var staging := StageBatch();
      match staging
      case Finalize(why) =>
        if written {
          ended := Some(why);
        }
      case HandOff(staged) =>
        inFlight := Some(staged);
        stagedProgress := progress;
        unread := unread + 1;
    }

    /** The await's answer: the counters are committed onto the job as it is by now, or dropped. */
    method AnswerBatch(handedOff: bool, now: int)
      requires inFlight.Some? && unread >= 1
      modifies this
      ensures View() == Resolve(old(View()), handedOff, now)
    {
      var staged := inFlight.value;
      inFlight := None;
      if !handedOff {
        unread := unread - 1;
        return;
      }
      progressAt := stagedProgress;
      admitted := admitted + [staged.started];
      job := job.(started := staged.started, judged := staged.judged, stuck := staged.stuck, advanced := staged.advanced);
      if staged.pendingSpared {
        job := job.(pendingSpared := true);
      }
      job := job.(lastAdvance := Some(now), stalls := 0);
    }

    /** The two with nothing in between: the only place a batch is judged, limit-checked and admitted. */
    method StartNextBatch(handedOff: bool, written: bool, now: int) returns (admits: bool)
      requires ended.None? && inFlight.None?
      modifies this
      ensures View() == AttemptNow(old(View()), handedOff, written, now)
      ensures admits == Admitted(old(View()), View())
    {
      BeginBatch(written);
      if inFlight.None? {
        return false;
      }
      AnswerBatch(handedOff, now);
      return handedOff;
    }

    /** The sweep's guards. */
    method IsEligible(o: Sighting) returns (eligible: bool)
      ensures eligible <==> Eligible(View(), o)
    {
      if ended.Some? || unread > 0 || owners > 0 { return false; }
      if job.completionPending && reserved > 0 { return false; }
      if o.launching { return false; }
      var since := if job.lastAdvance.Some? && job.lastAdvance.value != 0 then job.lastAdvance.value else o.startedAt;
      return o.now - since >= STALL_SECONDS;
    }

    /** One record's turn in the sweep. */
    method SweepOne(o: Sighting)
      requires inFlight.Some? ==> unread >= 1
      modifies this
      ensures View() == Sweep(old(View()), o)
    {
      var eligible := IsEligible(o);
      if !eligible { return; }
      assert ended.None? && inFlight.None?;
      hide AttemptNow, Attempt, Resolve, Stage, Admitted, Eligible;
      var admits := StartNextBatch(o.handedOff, o.written, o.now);
      if o.stopping || admits || ended.Some? { return; }
      job := job.(stalls := job.stalls + 1);
      if job.stalls >= MAX_STALLS && o.endWritten {
        ended := Some(NotContinued);
      }
    }
  }

  /** The sweep over every record; it returns as soon as it sees the channel stopping.  A record
      is swept with what the sweep sees when it reaches it, and no other record is touched. */
  method SweepJobs(recs: seq<JobRecord>, os: seq<Sighting>, stopping: bool) returns (reached: nat)
    requires |os| == |recs|
    requires forall i, j :: 0 <= i < j < |recs| ==> recs[i] != recs[j]
    requires forall i :: 0 <= i < |recs| && recs[i].inFlight.Some? ==> recs[i].unread >= 1
    modifies recs
    ensures reached <= |recs|
    ensures forall i :: 0 <= i < reached ==> recs[i].View() == Sweep(old(recs[i].View()), os[i])
    ensures forall i :: reached <= i < |recs| ==> recs[i].View() == old(recs[i].View())
    ensures stopping ==> reached == 0
    ensures !stopping && reached < |recs| ==> reached > 0 && os[reached - 1].stopping
    ensures forall i :: 0 <= i < reached - 1 ==> !os[i].stopping
  {
    reached := 0;
    if stopping { return; }
    while reached < |recs|
      invariant reached <= |recs|
      invariant forall i :: 0 <= i < reached ==> recs[i].View() == Sweep(old(recs[i].View()), os[i]) && !os[i].stopping
      invariant forall i :: reached <= i < |recs| ==> recs[i].View() == old(recs[i].View())
      invariant forall i :: reached <= i < |recs| && recs[i].inFlight.Some? ==> recs[i].unread >= 1
    {
      hide Sweep;
      recs[reached].SweepOne(os[reached]);
      reached := reached + 1;
      if os[reached - 1].stopping { return; }
    }
  }
}

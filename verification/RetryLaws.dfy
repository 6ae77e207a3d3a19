/** The claim protocol is safe in every interleaving of overlapping pollers. */
module RetryLaws {
  import opened RetryQueues
  import opened Wrappers

  // ----- the invariant -------------------------------------------------------------------

  /** How often the handler may run. */
  function Allowed(budget: int): nat {
    if budget > 1 then budget else 1
  }

  ghost predicate Genuine(s: System, j: Job) {
    j.id < |s.history| && j.maxAttempts == s.history[j.id].budget
  }

  ghost function One(b: bool): nat {
    if b then 1 else 0
  }

  ghost predicate QueueOk(s: System, j: Job) {
    j in s.queue ==> Genuine(s, j) && s.history[j.id].place == Queued(j)
  }

  ghost predicate PollerOk(s: System, p: nat) {
    p < |s.pollers| && s.pollers[p].running.Some? ==>
      var j := s.pollers[p].running.value; Genuine(s, j) && s.history[j.id].place == Running(p, j)
  }

  ghost predicate Placed(s: System, id: nat, place: Place) {
    && s.completed[id] == One(place.Completed?) && s.dead[id] == One(place.Dead?)
    && (place.Queued? ==> place.job in s.queue && place.job.id == id)
    && (place.Running? ==> place.p < |s.pollers| && s.pollers[place.p].running == Some(place.job) && place.job.id == id)
  }

  ghost predicate PlaceOk(s: System, id: nat) {
    && (id < |s.history| ==> Placed(s, id, s.history[id].place))
    && (id in s.completed || id in s.dead ==> id < |s.history|)
  }

  /** Every job is exactly where its history says. */
  ghost predicate Located(s: System) {
    && (forall j | j in s.queue :: QueueOk(s, j))
    && (forall p: nat | p < |s.pollers| && s.pollers[p].running.Some? :: PollerOk(s, p))
    && (forall i: nat | i < |s.history| || i in s.completed || i in s.dead :: PlaceOk(s, i))
  }

  /** Attempts count the runs, and never exceed the budget. */
  ghost predicate InBudget(r: Record) {
    && r.runs <= Allowed(r.budget)
    && (r.place.Queued? ==> r.place.job.attempts == r.runs < Allowed(r.budget))
    && (r.place.Running? ==> 0 < r.place.job.attempts == r.runs)
  }

  ghost predicate Budgeted(s: System) {
    forall i | 0 <= i < |s.history| :: InBudget(s.history[i])
  }

  /** The text of a job that has since run again, or is over. */
  ghost predicate Past(s: System, j: Job) {
    Genuine(s, j) &&
    (j.attempts < s.history[j.id].runs || s.history[j.id].place.Completed? || s.history[j.id].place.Dead?)
  }

  /** A snapshot entry is still queued, or past. */
  ghost predicate Snapshots(s: System) {
    forall p, i | 0 <= p < |s.pollers| && 0 <= i < |s.pollers[p].todo| ::
      s.pollers[p].todo[i] in s.queue || Past(s, s.pollers[p].todo[i])
  }

  ghost predicate Inv(s: System) {
    Located(s) && Budgeted(s) && Snapshots(s)
  }

  // ----- each step keeps it --------------------------------------------------------------

  /** The job an event is about is where the queue or its poller says. */
  ghost predicate SubjectOk(s: System, e: Event) {
    match e
    case Claim(p, _) => p < |s.pollers| && s.pollers[p].todo != [] ==> QueueOk(s, s.pollers[p].todo[0])
    case Succeed(p) => PollerOk(s, p)
    case Fail(p, _, _) => PollerOk(s, p)
    case _ => true
  }

  lemma LocatedFacts(s: System, e: Event)
    requires Located(s)
    ensures SubjectOk(s, e)
    ensures forall j :: QueueOk(s, j)
    ensures forall p: nat :: PollerOk(s, p)
    ensures forall i: nat :: PlaceOk(s, i)
  {}

  lemma StepKeepsQueue(s: System, e: Event, j: Job)
    requires Possible(s, e) && SubjectOk(s, e) && QueueOk(s, j)
    ensures QueueOk(Step(s, e), j)
  {}

  lemma StepKeepsPoller(s: System, e: Event, p: nat)
    requires Possible(s, e) && SubjectOk(s, e) && PollerOk(s, p)
    ensures PollerOk(Step(s, e), p)
  {}

  lemma StepKeepsPlace(s: System, e: Event, i: nat)
    requires Possible(s, e) && SubjectOk(s, e) && PlaceOk(s, i)
    ensures PlaceOk(Step(s, e), i)
  {}

  lemma StepKeepsLocated(s: System, e: Event)
    requires Located(s) && Possible(s, e)
    ensures Located(Step(s, e))
  {
    hide Step, SubjectOk, QueueOk, PollerOk, PlaceOk, Possible;
    LocatedFacts(s, e);
    var s' := Step(s, e);
    forall j ensures QueueOk(s', j) { StepKeepsQueue(s, e, j); }
    forall p: nat ensures PollerOk(s', p) { StepKeepsPoller(s, e, p); }
    forall i: nat ensures PlaceOk(s', i) { StepKeepsPlace(s, e, i); }
  }

  lemma StepKeepsBudget(s: System, e: Event, i: nat)
    requires Possible(s, e) && SubjectOk(s, e)
    requires i < |s.history| ==> InBudget(s.history[i])
    ensures i < |Step(s, e).history| ==> InBudget(Step(s, e).history[i])
  {}

  lemma StepKeepsBudgeted(s: System, e: Event)
    requires Located(s) && Budgeted(s) && Possible(s, e)
    ensures Budgeted(Step(s, e))
  {
    hide Step, Located, SubjectOk, InBudget, Possible;
    LocatedFacts(s, e);
    forall i | 0 <= i < |Step(s, e).history| ensures InBudget(Step(s, e).history[i]) {
      StepKeepsBudget(s, e, i);
    }
  }

  /** What is past stays past, and what leaves the queue is past: a stale text never matches again. */
  lemma PastStays(s: System, e: Event, j: Job)
    requires Located(s) && Budgeted(s) && Possible(s, e)
    requires j in s.queue || Past(s, j)
    ensures j in Step(s, e).queue || Past(Step(s, e), j)
    ensures Past(s, j) ==> Past(Step(s, e), j)
  {
    hide Step, Located, SubjectOk, InBudget, Possible, Past;
    LocatedFacts(s, e);
    assert QueueOk(s, j);
    PastStep(s, e, j);
  }

  lemma PastStep(s: System, e: Event, j: Job)
    requires Possible(s, e) && SubjectOk(s, e) && QueueOk(s, j)
    requires j.id < |s.history| ==> InBudget(s.history[j.id])
    requires j in s.queue || Past(s, j)
    ensures j in Step(s, e).queue || Past(Step(s, e), j)
    ensures Past(s, j) ==> Past(Step(s, e), j)
  {}

  lemma PastIsNotQueued(s: System, j: Job)
    requires Located(s) && Budgeted(s) && Past(s, j)
    ensures j !in s.queue
  {}

  lemma StepKeeps(s: System, e: Event)
    requires Inv(s) && Possible(s, e)
    ensures Inv(Step(s, e))
  {
    hide Step, Located, Budgeted, Past, Possible;
    StepKeepsLocated(s, e);
    StepKeepsBudgeted(s, e);
    var s' := Step(s, e);
    forall p, i | 0 <= p < |s'.pollers| && 0 <= i < |s'.pollers[p].todo|
      ensures s'.pollers[p].todo[i] in s'.queue || Past(s', s'.pollers[p].todo[i])
    {
      EntryIsKnown(s, e, p, i);
      PastStays(s, e, s'.pollers[p].todo[i]);
    }
  }

  lemma EntryIsKnown(s: System, e: Event, p: nat, i: nat)
    requires Snapshots(s) && Possible(s, e) && p < |Step(s, e).pollers| && i < |Step(s, e).pollers[p].todo|
    ensures var j := Step(s, e).pollers[p].todo[i]; j in s.queue || Past(s, j)
  {
    hide Past;
  }

  // ----- whole runs ----------------------------------------------------------------------

  lemma {:induction false} InvAlways(es: seq<Event>)
    requires Interleaving(es)
    ensures Inv(Run(es))
  {
    if es == [] {
    } else {
      var n := |es| - 1;
      Prefix(es, n);
      InvAlways(es[..n]);
      assert Possible(Run(es[..n]), es[n]);
      StepKeeps(Run(es[..n]), es[n]);
    }
  }

  lemma Prefix(es: seq<Event>, n: nat)
    requires Interleaving(es) && n <= |es|
    ensures Interleaving(es[..n])
  {
    forall i | 0 <= i < n ensures Possible(Run(es[..n][..i]), es[..n][i]) {
      assert es[..n][..i] == es[..i];
    }
  }

  function Enqueued(es: seq<Event>): nat {
    if es == [] then 0 else Enqueued(es[..|es| - 1]) + if es[|es| - 1].Enqueue? then 1 else 0
  }

  ghost function QueueCopies(s: System, id: nat): nat {
    |set j | j in s.queue && j.id == id|
  }

  ghost function InFlight(s: System, id: nat): nat {
    |set p | 0 <= p < |s.pollers| && s.pollers[p].running.Some? && s.pollers[p].running.value.id == id|
  }

  /** Does this event start the handler of job id? */
  ghost predicate Starts(s: System, e: Event, id: nat) {
    && e.Claim? && e.handled && e.p < |s.pollers| && s.pollers[e.p].todo != []
    && s.pollers[e.p].todo[0] in s.queue && s.pollers[e.p].todo[0].id == id
  }

  lemma RecordAfter(s: System, e: Event, id: nat)
    requires Possible(s, e) && SubjectOk(s, e)
    ensures id < |s.history| ==> (id < |Step(s, e).history| &&
      Step(s, e).history[id].budget == s.history[id].budget &&
      Step(s, e).history[id].runs == s.history[id].runs + One(Starts(s, e, id)))
    ensures |s.history| <= id < |Step(s, e).history| ==>
      (e.Enqueue? && Step(s, e).history[id].budget == e.maxAttempts && Step(s, e).history[id].runs == 0)
    ensures id >= |s.history| ==> !Starts(s, e, id)
  {}

  lemma HistoryGrows(s: System, e: Event)
    ensures |Step(s, e).history| == |s.history| + if e.Enqueue? then 1 else 0
  {}

  lemma {:induction false} OneRecordEach(es: seq<Event>)
    ensures |Run(es).history| == Enqueued(es)
  {
    hide Step;
    if es != [] {
      OneRecordEach(es[..|es| - 1]);
      HistoryGrows(Run(es[..|es| - 1]), es[|es| - 1]);
    }
  }

  /** In every interleaving a job is queued, in flight at one poller, completed or dead: one of these, once. */
  lemma EveryJobIsInOnePlace(es: seq<Event>, id: nat)
    requires Interleaving(es)
    ensures
      var s := Run(es);
      QueueCopies(s, id) + InFlight(s, id) + s.completed[id] + s.dead[id] == One(id < Enqueued(es))
  {
    InvAlways(es);
    OneRecordEach(es);
    var s := Run(es);
    var queued := set j | j in s.queue && j.id == id;
    var flying := set p | 0 <= p < |s.pollers| && s.pollers[p].running.Some? && s.pollers[p].running.value.id == id;
    if id < |s.history| {
      var place := s.history[id].place;
      assert Placed(s, id, place);
      assert queued == if place.Queued? then {place.job} else {};
      assert flying == if place.Running? then {place.p} else {};
    } else {
      assert queued == {} && flying == {};
    }
  }

  ghost function HandlerRuns(es: seq<Event>, id: nat): nat {
    if es == [] then 0
    else
      var n := |es| - 1;
      HandlerRuns(es[..n], id) + One(Starts(Run(es[..n]), es[n], id))
  }

  /** The attempts the id-th enqueued job was given. */
  ghost function Budget(es: seq<Event>, id: nat): int
    requires id < Enqueued(es)
  {
    var n := |es| - 1;
    if es[n].Enqueue? && Enqueued(es[..n]) == id then es[n].maxAttempts else Budget(es[..n], id)
  }

  lemma {:induction false} RunsAreCounted(es: seq<Event>, id: nat)
    requires Interleaving(es)
    ensures id < |Run(es).history| ==>
      id < Enqueued(es) && Run(es).history[id].runs == HandlerRuns(es, id) && Run(es).history[id].budget == Budget(es, id)
    ensures id >= |Run(es).history| ==> HandlerRuns(es, id) == 0
  {
    hide Step, Located, Snapshots, Possible, Starts, SubjectOk, QueueOk, PollerOk, PlaceOk;
    OneRecordEach(es);
    if es != [] {
      var n := |es| - 1;
      Prefix(es, n);
      OneRecordEach(es[..n]);
      RunsAreCounted(es[..n], id);
      NextStep(es, n);
      LocatedFacts(Run(es[..n]), es[n]);
      RecordAfter(Run(es[..n]), es[n], id);
      HistoryGrows(Run(es[..n]), es[n]);
    }
  }

  /** The handler of a job starts at most max(1, maxAttempts) times, whoever polls. */
  lemma HandlerRunsAreBounded(es: seq<Event>, id: nat)
    requires Interleaving(es) && id < Enqueued(es)
    ensures HandlerRuns(es, id) <= Allowed(Budget(es, id))
  {
    InvAlways(es);
    OneRecordEach(es);
    RunsAreCounted(es, id);
  }

  // ----- when a job is over, and when it is not ------------------------------------------

  /** The poller's handler is at work on job id. */
  ghost predicate Serves(s: System, p: nat, id: nat) {
    p < |s.pollers| && s.pollers[p].running.Some? && s.pollers[p].running.value.id == id
  }

  /** How a job can end: its handler succeeds, its last attempt fails, or there is no handler for it. */
  datatype Ending = Success | LastFailure | NoHandler

  ghost predicate Ends(how: Ending, s: System, e: Event, id: nat) {
    match how
    case Success => e.Succeed? && Serves(s, e.p, id)
    case LastFailure => e.Fail? && Serves(s, e.p, id) && s.pollers[e.p].running.value.attempts >= s.pollers[e.p].running.value.maxAttempts
    case NoHandler =>
      && e.Claim? && !e.handled && e.p < |s.pollers| && s.pollers[e.p].todo != []
      && s.pollers[e.p].todo[0] in s.queue && s.pollers[e.p].todo[0].id == id
  }

  ghost predicate Ended(how: Ending, es: seq<Event>, id: nat) {
    exists n :: 0 <= n < |es| && Ends(how, Run(es[..n]), es[n], id)
  }

  lemma EndedStep(how: Ending, es: seq<Event>, id: nat)
    requires es != []
    ensures var n := |es| - 1; Ended(how, es, id) <==> Ended(how, es[..n], id) || Ends(how, Run(es[..n]), es[n], id)
  {
    hide Run, Ends;
    var m := |es| - 1;
    var before := es[..m];
    forall i | 0 <= i < m ensures before[..i] == es[..i] && before[i] == es[i] {}
  }

  lemma EndingCounts(s: System, e: Event, id: nat)
    requires Possible(s, e) && SubjectOk(s, e)
    requires id < |s.history| ==> InBudget(s.history[id])
    ensures Step(s, e).completed[id] == s.completed[id] + One(Ends(Success, s, e, id))
    ensures Step(s, e).dead[id] == s.dead[id] + One(Ends(LastFailure, s, e, id)) + One(Ends(NoHandler, s, e, id))
  {}

  /** A job is completed exactly if its handler succeeded, and dead exactly if its last attempt failed or it has no handler. */
  lemma {:induction false} JobsEndExactlySo(es: seq<Event>, id: nat)
    requires Interleaving(es)
    ensures Run(es).completed[id] > 0 <==> Ended(Success, es, id)
    ensures Run(es).dead[id] > 0 <==> Ended(LastFailure, es, id) || Ended(NoHandler, es, id)
  {
    hide Step, Ended, Ends, Located, InBudget, Snapshots, Possible, SubjectOk, QueueOk, PollerOk, PlaceOk;
    if es == [] {
      NothingEnded(id);
    } else {
      var n := |es| - 1;
      Prefix(es, n);
      JobsEndExactlySo(es[..n], id);
      NextStep(es, n);
      LocatedFacts(Run(es[..n]), es[n]);
      EndingCounts(Run(es[..n]), es[n], id);
      forall how ensures Ended(how, es, id) <==> Ended(how, es[..n], id) || Ends(how, Run(es[..n]), es[n], id) {
        EndedStep(how, es, id);
      }
    }
  }

  lemma NothingEnded(id: nat)
    ensures forall how :: !Ended(how, [], id)
  {}

  lemma LastFailureIsSpent(s: System, e: Event, id: nat)
    requires Possible(s, e) && SubjectOk(s, e) && Ends(LastFailure, s, e, id)
    requires id < |s.history| ==> InBudget(s.history[id])
    ensures id < |s.history| && s.history[id].runs == Allowed(s.history[id].budget)
  {}

  /** No job is given up early: a last failure is the failure of the last handler run the budget allows. */
  lemma {:induction false} LastFailureUsesTheBudget(es: seq<Event>, id: nat)
    requires Interleaving(es) && Ended(LastFailure, es, id)
    ensures id < Enqueued(es) && HandlerRuns(es, id) == Allowed(Budget(es, id))
  {
    hide Step, Ended, Ends, Located, Snapshots, Possible, Starts, SubjectOk, QueueOk, PollerOk, PlaceOk;
    if es == [] {
      NothingEnded(id);
    } else {
      var n := |es| - 1;
      var s, e := Run(es[..n]), es[n];
      Prefix(es, n);
      EndedStep(LastFailure, es, id);
      NextStep(es, n);
      LocatedFacts(s, e);
      OneRecordEach(es[..n]);
      RunsAreCounted(es[..n], id);
      if Ended(LastFailure, es[..n], id) {
        LastFailureUsesTheBudget(es[..n], id);
      } else {
        LastFailureIsSpent(s, e, id);
      }
      OneRecordEach(es);
      HandlerRunsAreBounded(es, id);
    }
  }

  /** So a dead job that never met a claim without a handler has had every run its budget allows. */
  lemma DeadJobsHadEveryRun(es: seq<Event>, id: nat)
    requires Interleaving(es) && Run(es).dead[id] > 0
    ensures id < Enqueued(es) && (HandlerRuns(es, id) == Allowed(Budget(es, id)) || Ended(NoHandler, es, id))
  {
    JobsEndExactlySo(es, id);
    EveryJobIsInOnePlace(es, id);
    if Ended(LastFailure, es, id) {
      LastFailureUsesTheBudget(es, id);
    }
  }

  /** The handler of a job is running with as many attempts as it has had runs, out of its budget. */
  lemma RunningJobs(es: seq<Event>, p: nat)
    requires Interleaving(es) && p < |Run(es).pollers| && Run(es).pollers[p].running.Some?
    ensures var job := Run(es).pollers[p].running.value;
      && job.id < Enqueued(es) && job.maxAttempts == Budget(es, job.id)
      && 0 < job.attempts == HandlerRuns(es, job.id)
  {
    InvAlways(es);
    OneRecordEach(es);
    assert PollerOk(Run(es), p);
    var id := Run(es).pollers[p].running.value.id;
    RunsAreCounted(es, id);
    assert InBudget(Run(es).history[id]);
  }

  /**
   * A handler that fails before its attempts are used up has its job queued again, once and otherwise as it was:
   * with its attempts, the message, and a delay of 1, 2, 3, 5, 8, 13, 21 and from then on 30 seconds.
   */
  lemma FailureIsRetried(es: seq<Event>, p: nat, now: int, message: string)
    requires Interleaving(es) && p < |Run(es).pollers| && Run(es).pollers[p].running.Some?
    ensures
      var s, s', job := Run(es), Run(es + [Fail(p, now, message)]), Run(es).pollers[p].running.value;
      && job.attempts > 0 && (forall j | j in s.queue :: j.id != job.id)
      && s'.pollers == s.pollers[p := s.pollers[p].(running := None)] && s'.completed == s.completed
      && if job.attempts < job.maxAttempts then
           var seconds := if job.attempts <= 8 then [1, 2, 3, 5, 8, 13, 21, 30][job.attempts - 1] else 30;
           && s'.queue == s.queue + {Job(job.id, job.kind, job.maxAttempts, job.attempts, now + 1000 * seconds, message)}
           && s'.dead == s.dead
         else
           s'.queue == s.queue && s'.dead == s.dead + multiset{job.id}
  {
    hide Interleaving, Step, Located, Snapshots, QueueOk, PollerOk;
    InvAlways(es);
    var s, e := Run(es), Fail(p, now, message);
    assert (es + [e])[..|es|] == es;
    LocatedFacts(s, e);
    RunningIsNotQueued(s, p);
    AnswerOfFailure(s, p, now, message);
  }

  lemma RunningIsNotQueued(s: System, p: nat)
    requires p < |s.pollers| && s.pollers[p].running.Some? && PollerOk(s, p) && Budgeted(s)
    requires forall j :: QueueOk(s, j)
    ensures s.pollers[p].running.value.attempts > 0
    ensures forall j | j in s.queue :: j.id != s.pollers[p].running.value.id
  {
    var job := s.pollers[p].running.value;
    assert InBudget(s.history[job.id]);
    forall j | j in s.queue ensures j.id != job.id {
      assert QueueOk(s, j);
    }
  }

  lemma AnswerOfFailure(s: System, p: nat, now: int, message: string)
    requires p < |s.pollers| && s.pollers[p].running.Some? && s.pollers[p].running.value.attempts > 0
    ensures
      var s', job := Step(s, Fail(p, now, message)), s.pollers[p].running.value;
      && s'.pollers == s.pollers[p := s.pollers[p].(running := None)] && s'.completed == s.completed
      && if job.attempts < job.maxAttempts then
           var seconds := if job.attempts <= 8 then [1, 2, 3, 5, 8, 13, 21, 30][job.attempts - 1] else 30;
           && s'.queue == s.queue + {Job(job.id, job.kind, job.maxAttempts, job.attempts, now + 1000 * seconds, message)}
           && s'.dead == s.dead
         else
           s'.queue == s.queue && s'.dead == s.dead + multiset{job.id}
  {}

  /** A claim hands the job to the handler with one attempt more and otherwise as it was queued. */
  lemma ClaimStartsTheJob(s: System, p: nat, handled: bool)
    requires Possible(s, Claim(p, handled))
    ensures
      var s', job := Step(s, Claim(p, handled)), s.pollers[p].todo[0];
      && s'.queue == s.queue - {job} && s'.completed == s.completed
      && s'.pollers[p].todo == s.pollers[p].todo[1..] && |s'.pollers| == |s.pollers|
      && (forall i | 0 <= i < |s.pollers| && i != p :: s'.pollers[i] == s.pollers[i])
      && (job in s.queue && handled ==>
            s'.pollers[p].running == Some(Job(job.id, job.kind, job.maxAttempts, job.attempts + 1, job.nextRetryAt, job.error)))
      && (job !in s.queue || !handled ==> s'.pollers[p].running == None)
      && s'.dead == s.dead + (if job in s.queue && !handled then multiset{job.id} else multiset{})
  {}

  /** A new job has had no attempts and is due when its caller asked for. */
  lemma NewJobs(es: seq<Event>, kind: string, maxAttempts: int, at: int)
    ensures var s' := Run(es + [Enqueue(kind, maxAttempts, at)]);
      && s'.queue == Run(es).queue + {Job(Enqueued(es), kind, maxAttempts, 0, at, "")}
      && s'.pollers == Run(es).pollers && s'.completed == Run(es).completed && s'.dead == Run(es).dead
  {
    OneRecordEach(es);
    assert (es + [Enqueue(kind, maxAttempts, at)])[..|es|] == es;
  }

  /** A text that has left the queue never matches again, so no stale snapshot claims a later incarnation. */
  lemma StaleTextsNeverMatch(es: seq<Event>, a: nat, b: nat, job: Job)
    requires Interleaving(es) && a <= b <= |es|
    ensures job in Run(es[..a]).queue && job !in Run(es[..b]).queue ==> job !in Run(es).queue
  {
    assert es[..|es|] == es;
    if job in Run(es[..a]).queue && job !in Run(es[..b]).queue {
      QueuedOrPast(es, a, b, job);
      PastForever(es, b, |es|, job);
      InvAlways(es);
      PastIsNotQueued(Run(es), job);
    }
  }

  lemma {:induction false} QueuedOrPast(es: seq<Event>, a: nat, b: nat, job: Job)
    requires Interleaving(es) && a <= b <= |es|
    requires job in Run(es[..a]).queue
    ensures job in Run(es[..b]).queue || Past(Run(es[..b]), job)
  {
    hide Run, Step, Past, Possible, Interleaving;
    if a < b {
      QueuedOrPast(es, a, b - 1, job);
      NextStep(es, b - 1);
      PastStays(Run(es[..b - 1]), es[b - 1], job);
    }
  }

  lemma {:induction false} PastForever(es: seq<Event>, a: nat, b: nat, job: Job)
    requires Interleaving(es) && a <= b <= |es|
    requires Past(Run(es[..a]), job)
    ensures Past(Run(es[..b]), job)
  {
    hide Run, Step, Past, Possible, Interleaving;
    if a < b {
      PastForever(es, a, b - 1, job);
      NextStep(es, b - 1);
      PastStays(Run(es[..b - 1]), es[b - 1], job);
    }
  }

  lemma NextStep(es: seq<Event>, n: nat)
    requires Interleaving(es) && n < |es|
    ensures Inv(Run(es[..n])) && Possible(Run(es[..n]), es[n])
    ensures Run(es[..n + 1]) == Step(Run(es[..n]), es[n])
  {
    Prefix(es, n);
    InvAlways(es[..n]);
    assert es[..n + 1][..n] == es[..n];
  }

  /** Delays never shrink from one attempt to the next; up to the cap each is the sum of the two before it. */
  lemma DelaysGrow(a: nat, b: nat)
    requires 0 < a <= b
    ensures 1000 <= Backoff(a) <= Backoff(b) <= 30000
    ensures 3 <= a < 8 ==> Backoff(a) == Backoff(a - 1) + Backoff(a - 2)
    ensures a >= 8 ==> Backoff(a) == 30000
  {}

  // ----- termination ---------------------------------------------------------------------

  ghost function Remaining(r: Record): int {
    match r.place
    case Queued(_) => 2 * (Allowed(r.budget) - r.runs)
    case Running(_, _) => 2 * (Allowed(r.budget) - r.runs) + 1
    case _ => 0
  }

  ghost function AllRemaining(h: seq<Record>): int {
    if h == [] then 0 else AllRemaining(h[..|h| - 1]) + Remaining(h[|h| - 1])
  }

  ghost function AllTodo(ps: seq<Poller>): nat {
    if ps == [] then 0 else AllTodo(ps[..|ps| - 1]) + |ps[|ps| - 1].todo|
  }

  /** How many more events the work at hand can cause. */
  ghost function Work(s: System): int {
    AllRemaining(s.history) + AllTodo(s.pollers)
  }

  lemma {:induction false} RemainingAfter(h: seq<Record>, i: nat, r: Record)
    requires i < |h|
    ensures AllRemaining(h[i := r]) == AllRemaining(h) - Remaining(h[i]) + Remaining(r)
  {
    var n := |h| - 1;
    if i == n {
      assert h[i := r][..n] == h[..n];
    } else {
      RemainingAfter(h[..n], i, r);
      assert h[i := r][..n] == h[..n][i := r];
    }
  }

  lemma {:induction false} TodoAfter(ps: seq<Poller>, i: nat, q: Poller)
    requires i < |ps|
    ensures AllTodo(ps[i := q]) == AllTodo(ps) - |ps[i].todo| + |q.todo|
  {
    var n := |ps| - 1;
    if i == n {
      assert ps[i := q][..n] == ps[..n];
    } else {
      TodoAfter(ps[..n], i, q);
      assert ps[i := q][..n] == ps[..n][i := q];
    }
  }

  lemma {:induction false} RemainingIsNat(h: seq<Record>)
    requires forall i | 0 <= i < |h| :: h[i].runs <= Allowed(h[i].budget)
    ensures AllRemaining(h) >= 0
  {
    if h != [] {
      RemainingIsNat(h[..|h| - 1]);
    }
  }

  /** Every claim and every answer of a handler uses up some of the work. */
  lemma WorkFalls(s: System, e: Event)
    requires Inv(s) && Possible(s, e) && !e.Enqueue? && !e.Poll?
    ensures 0 <= Work(Step(s, e)) < Work(s)
  {
    hide Located, Snapshots, AllRemaining, AllTodo;
    var s' := Step(s, e);
    StepKeeps(s, e);
    RemainingIsNat(s'.history);
    LocatedFacts(s, e);
    TodoAfter(s.pollers, e.p, s'.pollers[e.p]);
    var id := if e.Claim? then s.pollers[e.p].todo[0].id else s.pollers[e.p].running.value.id;
    if id < |s.history| {
      RemainingAfter(s.history, id, s'.history[id]);
      assert s'.history == s.history[id := s'.history[id]];
    }
  }

  /** Once nothing is enqueued or polled any more, the pollers come to rest. */
  lemma {:induction false} PollersComeToRest(es: seq<Event>, n: nat)
    requires Interleaving(es) && n <= |es|
    requires forall i | n <= i < |es| :: !es[i].Enqueue? && !es[i].Poll?
    ensures |es| - n <= Work(Run(es[..n])) - Work(Run(es)) && Work(Run(es)) >= 0
  {
    if n == |es| {
      assert es[..n] == es;
      InvAlways(es);
      RemainingIsNat(Run(es).history);
    } else {
      var m := |es| - 1;
      Prefix(es, m);
      PollersComeToRest(es[..m], n);
      assert es[..m][..n] == es[..n];
      NextStep(es, m);
      WorkFalls(Run(es[..m]), es[m]);
    }
  }
}

/**
 * The retry queue under overlapping pollers. A step is what one async function does between two
 * awaits; Redis and the handler answer between steps, in any order.
 */
module RetryQueues {
  import opened Wrappers

  /** The text stored in the sorted set; an id is its issue number, the score is nextRetryAt. */
  datatype Job = Job(id: nat, kind: string, maxAttempts: int, attempts: nat, nextRetryAt: int, error: string)

  /** One call of processDueJobs: the rest of its snapshot, and the job whose handler it awaits. */
  datatype Poller = Poller(todo: seq<Job>, running: Option<Job>)

  /** History of a job: attempts allowed, handler runs begun, and where the job was last put. */
  datatype Place = Queued(job: Job) | Running(p: nat, job: Job) | Completed | Dead

  datatype Record = Record(budget: int, runs: nat, place: Place)

  datatype System = System(
    queue: set<Job>, pollers: seq<Poller>, completed: multiset<nat>, dead: multiset<nat>, history: seq<Record>)

  const INITIAL := System({}, [], multiset{}, multiset{}, [])

  const BACKOFF_DELAYS_MS: seq<int> := [1000, 2000, 3000, 5000, 8000, 13000, 21000, 30000]

  const BATCH := 10

  function Backoff(attempts: nat): int
    requires attempts > 0
  {
    BACKOFF_DELAYS_MS[if attempts - 1 < 7 then attempts - 1 else 7]
  }

  datatype Event =
    | Enqueue(kind: string, maxAttempts: int, at: int)
    | Poll(now: int, snapshot: seq<Job>)
    | Claim(p: nat, handled: bool)
    | Succeed(p: nat)
    | Fail(p: nat, now: int, message: string)

  /** What zrangebyscore may answer: up to ten due members, all of them if there are fewer. */
  ghost predicate Due(queue: set<Job>, now: int, snapshot: seq<Job>) {
    && |snapshot| <= BATCH
    && (forall i | 0 <= i < |snapshot| :: snapshot[i] in queue && 0 <= snapshot[i].nextRetryAt <= now)
    && (forall i, j | 0 <= i < j < |snapshot| ::
          snapshot[i] != snapshot[j] && snapshot[i].nextRetryAt <= snapshot[j].nextRetryAt)
    && (forall j | j in queue && 0 <= j.nextRetryAt <= now && j !in snapshot ::
          |snapshot| == BATCH && forall i | 0 <= i < BATCH :: snapshot[i].nextRetryAt <= j.nextRetryAt)
  }

  function Moved(h: seq<Record>, id: nat, place: Place): seq<Record> {
    if id < |h| then h[id := h[id].(place := place)] else h
  }

  function Ran(h: seq<Record>, id: nat): seq<Record> {
    if id < |h| then h[id := h[id].(runs := h[id].runs + 1)] else h
  }

  function Step(s: System, e: Event): System {
    match e
    case Enqueue(kind, maxAttempts, at) =>
      var job := Job(|s.history|, kind, maxAttempts, 0, at, "");
      s.(queue := s.queue + {job}, history := s.history + [Record(maxAttempts, 0, Queued(job))])
    case Poll(_, snapshot) =>
      s.(pollers := s.pollers + [Poller(snapshot, None)])
    case Claim(p, handled) =>
      if p >= |s.pollers| || s.pollers[p].todo == [] then s
      else
        var q := s.pollers[p];
        var job, job' := q.todo[0], q.todo[0].(attempts := q.todo[0].attempts + 1);
        if job !in s.queue then
          s.(pollers := s.pollers[p := q.(todo := q.todo[1..])])
        else if !handled then
          s.(queue := s.queue - {job}, pollers := s.pollers[p := q.(todo := q.todo[1..])],
             dead := s.dead + multiset{job.id}, history := Moved(s.history, job.id, Dead))
        else
          s.(queue := s.queue - {job}, pollers := s.pollers[p := Poller(q.todo[1..], Some(job'))],
             history := Ran(Moved(s.history, job.id, Running(p, job')), job.id))
    case Succeed(p) =>
      if p >= |s.pollers| || s.pollers[p].running.None? then s
      else
        var q := s.pollers[p];
        s.(pollers := s.pollers[p := q.(running := None)], completed := s.completed + multiset{q.running.value.id},
           history := Moved(s.history, q.running.value.id, Completed))
    case Fail(p, now, message) =>
      if p >= |s.pollers| || s.pollers[p].running.None? || s.pollers[p].running.value.attempts == 0 then s
      else
        var q := s.pollers[p];
        var job := q.running.value.(error := message);
        var s' := s.(pollers := s.pollers[p := q.(running := None)]);
        if job.attempts >= job.maxAttempts then
          s'.(dead := s.dead + multiset{job.id}, history := Moved(s.history, job.id, Dead))
        else
          var again := job.(nextRetryAt := now + Backoff(job.attempts));
          s'.(queue := s.queue + {again}, history := Moved(s.history, job.id, Queued(again)))
  }

  /** The events a run may contain; Redis and the handlers decide which. */
  ghost predicate Possible(s: System, e: Event) {
    match e
    case Poll(now, snapshot) => Due(s.queue, now, snapshot)
    case Claim(p, _) => p < |s.pollers| && s.pollers[p].running.None? && s.pollers[p].todo != []
    case Succeed(p) => p < |s.pollers| && s.pollers[p].running.Some?
    case Fail(p, _, _) => p < |s.pollers| && s.pollers[p].running.Some?
    case Enqueue(_, _, _) => true
  }

  function Run(es: seq<Event>): System {
    if es == [] then INITIAL else Step(Run(es[..|es| - 1]), es[|es| - 1])
  }

  ghost predicate Interleaving(es: seq<Event>) {
    forall i | 0 <= i < |es| :: Possible(Run(es[..i]), es[i])
  }

  /** The sorted set and its pollers, changed in place between awaits. */
  class RetryQueue {
    var handlers: set<string>
    var queue: set<Job>
    var pollers: seq<Poller>
    var completed: multiset<nat>
    var dead: multiset<nat>
    var issued: nat
    ghost var history: seq<Record>

    ghost predicate Valid() reads this { issued == |history| }

    ghost function View(): System reads this {
      System(queue, pollers, completed, dead, history)
    }

    constructor ()
      ensures Valid() && View() == INITIAL && handlers == {}
    {
      handlers, queue, pollers, completed, dead, issued, history :=
        {}, {}, [], multiset{}, multiset{}, 0, [];
    }

    method RegisterHandler(kind: string)
      modifies `handlers
      ensures handlers == old(handlers) + {kind}
    {
      handlers := handlers + {kind};
    }

    method Enqueue(kind: string, maxAttempts: int, now: int, delay: int) returns (id: nat)
      requires Valid()
      modifies this
      ensures Valid() && handlers == old(handlers) && id == old(issued) && issued == id + 1
      ensures View() == Step(old(View()), Event.Enqueue(kind, maxAttempts, now + delay))
    {
      id := issued;
      var job := Job(id, kind, maxAttempts, 0, now + delay, "");
      issued := issued + 1;
      queue := queue + {job};
      history := history + [Record(maxAttempts, 0, Queued(job))];
    }

    /** processDueJobs up to its first await: what zrangebyscore answered becomes its work list. */
    method ProcessDueJobs(now: int, snapshot: seq<Job>) returns (p: nat)
      requires Valid() && Due(queue, now, snapshot)
      modifies `pollers
      ensures p < |pollers| && Valid() && View() == Step(old(View()), Poll(now, snapshot))
    {
      p := |pollers|;
      pollers := pollers + [Poller(snapshot, None)];
    }

    /** zrem of the next entry, and what follows up to the call of the handler. */
    method ClaimNext(p: nat) returns (claimed: bool)
      requires Valid() && p < |pollers| && pollers[p].running.None? && pollers[p].todo != []
      modifies this
      ensures Valid() && handlers == old(handlers) && claimed == (old(pollers[p].todo[0]) in old(queue))
      ensures View() == Step(old(View()), Claim(p, old(pollers[p].todo[0]).kind in handlers))
    {
      var job := pollers[p].todo[0];
      pollers := pollers[p := pollers[p].(todo := pollers[p].todo[1..])];
      claimed := job in queue;
      if !claimed {
        return;
      }
      queue := queue - {job};
      if job.kind !in handlers {
        SendToDeadLetter(job);
        return;
      }
      job := job.(attempts := job.attempts + 1);
      pollers := pollers[p := pollers[p].(running := Some(job))];
      history := Ran(Moved(history, job.id, Running(p, job)), job.id);
    }

    method HandlerResolved(p: nat)
      requires Valid() && p < |pollers| && pollers[p].running.Some?
      modifies this
      ensures Valid() && handlers == old(handlers) && View() == Step(old(View()), Succeed(p))
    {
      var id := pollers[p].running.value.id;
      completed := completed + multiset{id};
      history := Moved(history, id, Completed);
      pollers := pollers[p := pollers[p].(running := None)];
    }

    method HandlerRejected(p: nat, now: int, message: string)
      requires Valid() && p < |pollers| && pollers[p].running.Some?
      requires pollers[p].running.value.attempts > 0
      modifies this
      ensures Valid() && handlers == old(handlers) && View() == Step(old(View()), Fail(p, now, message))
    {
      var job := pollers[p].running.value.(error := message);
      pollers := pollers[p := pollers[p].(running := None)];
      if job.attempts >= job.maxAttempts {
        SendToDeadLetter(job);
      } else {
        job := job.(nextRetryAt := now + Backoff(job.attempts));
        queue := queue + {job};
        history := Moved(history, job.id, Queued(job));
      }
    }

    method SendToDeadLetter(job: Job)
      requires Valid()
      modifies `dead, `history
      ensures Valid() && dead == old(dead) + multiset{job.id} && history == Moved(old(history), job.id, Dead)
    {
      dead := dead + multiset{job.id};
      history := Moved(history, job.id, Dead);
    }
  }
}

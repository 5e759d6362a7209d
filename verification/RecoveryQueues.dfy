/** internal/runtimeio/recovery.go: the retry queue, with any number of callers and keys. Every critical section
    under the queue's mutex is one step; between the steps every goroutine inside Run, and every armed timer, which
    is a Run to come, is an actor. */
module RecoveryQueues {

  type Key = nat

  const RETRY_DELAY: nat := 30_000
  const YIELD: nat := 100

  /** timer names the actor that is, or was, this job's timer. active: its cancel function is set. */
  datatype Job = Job(serial: nat, timer: nat, active: bool)

  datatype Phase =
    | Armed(key: Key, at: int)
    | Entering(key: Key)
    | Waiting(key: Key, serial: nat)
    | Active(key: Key, serial: nat, cancelled: bool)

  /** An attempt that was dispatched, and when it ended. */
  datatype Attempt = Attempt(key: Key, start: int, end: int)

  datatype Queue = Queue(jobs: map<Key, Job>, closed: bool, running: bool, nextAttempt: int,
                         actors: map<nat, Phase>, supply: nat, now: int, since: int, past: seq<Attempt>)

  datatype Step =
    | Schedule(key: Key)
    | Call(key: Key)           // somebody calls Run
    | Fire(actor: nat)         // an armed timer calls Run
    | Enter(actor: nat)        // the critical section at the head of the loop of Run
    | Yield(actor: nat)        // a waiting Run looks again
    | Leave(actor: nat)        // the parent of a waiting Run is cancelled
    | Finish(actor: nat, ok: bool)
    | Stop
    | Tick(time: nat)

  const EMPTY := Queue(map[], false, false, 0, map[], 0, 0, 0, [])

  /** A job gets a new timer. */
  function Rearm(q: Queue, key: Key, job: Job): Queue {
    q.(jobs := q.jobs[key := job.(timer := q.supply)], supply := q.supply + 1,
       actors := q.actors[q.supply := Armed(key, q.now + RETRY_DELAY)])
  }

  /** Stopping a timer that has fired has no effect: its Run is on its way. */
  function StopTimer(q: Queue, job: Job): Queue {
    if job.timer in q.actors && q.actors[job.timer].Armed? then q.(actors := q.actors - {job.timer}) else q
  }

  function EnterStep(q: Queue, a: nat): Queue
    requires a in q.actors && q.actors[a].Entering?
  {
    var key := q.actors[a].key;
    if q.closed || key !in q.jobs || q.jobs[key].active then q.(actors := q.actors - {a})
    else
      var job := q.jobs[key];
      var q1 := StopTimer(q, job);
      if q.running || q.now < q.nextAttempt then q1.(actors := q1.actors[a := Waiting(key, job.serial)])
      else q1.(actors := q1.actors[a := Active(key, job.serial, false)], running := true, since := q.now,
               jobs := q.jobs[key := job.(active := true)])
  }

  function LeaveStep(q: Queue, a: nat): Queue
    requires a in q.actors && q.actors[a].Waiting?
  {
    var Waiting(key, serial) := q.actors[a];
    var q1 := q.(actors := q.actors - {a});
    if !q.closed && key in q.jobs && q.jobs[key].serial == serial && !q.jobs[key].active
    then Rearm(q1, key, q.jobs[key]) else q1
  }

  function FinishStep(q: Queue, a: nat, ok: bool): Queue
    requires a in q.actors && q.actors[a].Active?
  {
    var key, serial := q.actors[a].key, q.actors[a].serial;
    var q1 := q.(actors := q.actors - {a}, running := false, nextAttempt := q.now + YIELD,
                 past := q.past + [Attempt(key, q.since, q.now)]);
    if q.closed || key !in q.jobs || q.jobs[key].serial != serial then q1
    else if ok then q1.(jobs := q.jobs - {key})
    else Rearm(q1, key, q.jobs[key].(active := false))
  }

  /** Timers of the jobs are stopped, and active attempts are cancelled. */
  function StopStep(q: Queue): Queue {
    q.(closed := true, jobs := map[],
       actors := map a | a in q.actors && !(q.actors[a].Armed? && OwnTimer(q, a)) ::
         if q.actors[a].Active? && OwnAttempt(q, a) then q.actors[a].(cancelled := true) else q.actors[a])
  }

  predicate OwnTimer(q: Queue, a: nat)
    requires a in q.actors
  {
    q.actors[a].key in q.jobs && q.jobs[q.actors[a].key].timer == a
  }

  predicate OwnAttempt(q: Queue, a: nat)
    requires a in q.actors && q.actors[a].Active?
  {
    q.actors[a].key in q.jobs && q.jobs[q.actors[a].key].serial == q.actors[a].serial && q.jobs[q.actors[a].key].active
  }

  function Next(q: Queue, step: Step): Queue {
    match step
    case Schedule(key) =>
      if q.closed || key in q.jobs then q else Rearm(q.(supply := q.supply + 1), key, Job(q.supply, 0, false))
    case Call(key) => q.(actors := q.actors[q.supply := Entering(key)], supply := q.supply + 1)
    case Fire(a) =>
      if a in q.actors && q.actors[a].Armed? && q.actors[a].at <= q.now
      then q.(actors := q.actors[a := Entering(q.actors[a].key)]) else q
    case Enter(a) => if a in q.actors && q.actors[a].Entering? then EnterStep(q, a) else q
    case Yield(a) =>
      if a in q.actors && q.actors[a].Waiting? then q.(actors := q.actors[a := Entering(q.actors[a].key)]) else q
    case Leave(a) => if a in q.actors && q.actors[a].Waiting? then LeaveStep(q, a) else q
    case Finish(a, ok) => if a in q.actors && q.actors[a].Active? then FinishStep(q, a, ok) else q
    case Stop => StopStep(q)
    case Tick(time) => q.(now := q.now + time)
  }

  /******* The invariant *******/

  /** Some actor will look at the job: a timer, a Run on its way, a Run waiting for this very job, or its attempt. */
  ghost predicate Attended(q: Queue, key: Key)
    requires key in q.jobs
  {
    exists a :: a in q.actors && Attends(q.actors[a], key, q.jobs[key].serial)
  }

  predicate Attends(p: Phase, key: Key, serial: nat) {
    p.key == key && ((p.Waiting? || p.Active?) ==> p.serial == serial)
  }

  ghost predicate Ids(q: Queue) {
    && (forall a <- q.actors :: a < q.supply)
    && (forall k <- q.jobs :: q.jobs[k].serial < q.supply && q.jobs[k].timer < q.supply)
    && (forall k <- q.jobs :: q.jobs[k].timer in q.actors && q.actors[q.jobs[k].timer].Armed? ==> q.actors[q.jobs[k].timer].key == k)
  }

  /** One attempt at a time; running says whether there is one, and its job, unless Stop took it, knows it. */
  ghost predicate OneAttempt(q: Queue) {
    && (forall a <- q.actors, b <- q.actors :: q.actors[a].Active? && q.actors[b].Active? ==> a == b)
    && (q.running <==> exists a :: a in q.actors && q.actors[a].Active?)
    && (forall k <- q.jobs :: q.jobs[k].active ==> exists a :: a in q.actors && q.actors[a].Active? && Attends(q.actors[a], k, q.jobs[k].serial))
    && (forall a <- q.actors :: q.actors[a].Active? ==> if q.closed then q.actors[a].cancelled else OwnAttempt(q, a))
  }

  ghost predicate NoneLost(q: Queue) {
    && (q.closed ==> q.jobs == map[])
    && (forall k <- q.jobs :: Attended(q, k))
  }

  /** A pause after every attempt. */
  ghost predicate Pauses(q: Queue) {
    && (q.running ==> q.since <= q.now && Paused(q.past, q.since))
    && Paused(q.past, q.nextAttempt) && q.nextAttempt <= q.now + YIELD
    && (forall i, j | 0 <= i < j < |q.past| :: q.past[i].end + YIELD <= q.past[j].start)
  }

  ghost predicate Inv(q: Queue) {
    Ids(q) && OneAttempt(q) && NoneLost(q) && Pauses(q)
  }

  /** An attempt that starts at time t leaves a pause after every earlier one. */
  ghost predicate Paused(past: seq<Attempt>, t: int) {
    forall i | 0 <= i < |past| :: past[i].end + YIELD <= t
  }

  lemma Initially()
    ensures Inv(EMPTY)
  {
  }

  /******* Every step keeps it *******/

  lemma NextIds(q: Queue, step: Step)
    requires Ids(q)
    ensures Ids(Next(q, step)) && q.supply <= Next(q, step).supply
  {
    hide OwnTimer, OwnAttempt;
    if step.Stop? {
      StopIds(q);
    } else if Ends(q, step) {
      FinishIds(q, step.actor, step.ok);
    } else {
      OtherIds(q, step);
    }
  }

  lemma StopIds(q: Queue)
    requires Ids(q)
    ensures Ids(StopStep(q))
  {
    hide OwnTimer, OwnAttempt;
  }

  lemma FinishIds(q: Queue, a: nat, ok: bool)
    requires Ids(q) && Ends(q, Finish(a, ok))
    ensures Ids(FinishStep(q, a, ok)) && q.supply <= FinishStep(q, a, ok).supply
  {
  }

  lemma OtherIds(q: Queue, step: Step)
    requires Ids(q) && !step.Stop? && !Ends(q, step)
    ensures Ids(Next(q, step)) && q.supply <= Next(q, step).supply
  {
    hide StopStep, FinishStep;
  }

  lemma NextPauses(q: Queue, step: Step)
    requires Pauses(q) && OneAttempt(q)
    ensures Pauses(Next(q, step))
  {
    assert Ends(q, step) ==> q.running;
    hide OneAttempt, OwnTimer, OwnAttempt, Rearm, StopTimer;
    NextPast(q, step);
  }

  /** What a step does to the history of attempts. */
  lemma NextPast(q: Queue, step: Step)
    ensures var q' := Next(q, step);
      && (Ends(q, step) ==> q'.past == q.past + [Attempt(q.actors[step.actor].key, q.since, q.now)] && q'.nextAttempt == q.now + YIELD && !q'.running)
      && (!Ends(q, step) ==> q'.past == q.past && q'.nextAttempt == q.nextAttempt)
      && (Dispatches(q, step) ==> q'.since == q.now)
      && (!Dispatches(q, step) ==> q'.since == q.since && (q'.running ==> q.running))
      && q.now <= q'.now && (Ends(q, step) || Dispatches(q, step) ==> q'.now == q.now)
  {
    hide OwnTimer, OwnAttempt;
  }

  /** What is said about attempts depends on the active actors and jobs only. */
  lemma SameAttempts(q: Queue, q': Queue)
    requires OneAttempt(q) && q'.running == q.running && q'.closed == q.closed
    requires forall a <- q.actors :: q.actors[a].Active? ==> a in q'.actors && q'.actors[a] == q.actors[a]
    requires forall a <- q'.actors :: q'.actors[a].Active? ==> a in q.actors && q'.actors[a] == q.actors[a]
    requires forall k <- q.jobs :: k in q'.jobs && q'.jobs[k].serial == q.jobs[k].serial && q'.jobs[k].active == q.jobs[k].active
    requires forall k <- q'.jobs :: k in q.jobs || !q'.jobs[k].active
    ensures OneAttempt(q')
  {
  }

  predicate Dispatches(q: Queue, step: Step) {
    && step.Enter? && step.actor in q.actors && q.actors[step.actor].Entering?
    && !q.closed && q.actors[step.actor].key in q.jobs && !q.jobs[q.actors[step.actor].key].active
    && !q.running && q.nextAttempt <= q.now
  }

  predicate Ends(q: Queue, step: Step) {
    step.Finish? && step.actor in q.actors && q.actors[step.actor].Active?
  }

  lemma NextAttempt(q: Queue, step: Step)
    requires Ids(q) && OneAttempt(q) && (q.closed ==> q.jobs == map[])
    ensures OneAttempt(Next(q, step))
  {
    hide OneAttempt;
    if Dispatches(q, step) {
      DispatchOne(q, step.actor);
    } else if Ends(q, step) {
      FinishOne(q, step.actor, step.ok);
    } else if step.Stop? {
      StopOne(q);
    } else {
      OtherAttempts(q, step);
    }
  }

  /** Any other step neither starts nor ends an attempt. */
  lemma OtherAttempts(q: Queue, step: Step)
    requires Ids(q) && OneAttempt(q) && !Dispatches(q, step) && !Ends(q, step) && !step.Stop?
    ensures OneAttempt(Next(q, step))
  {
    hide OneAttempt, FinishStep, StopStep;
    SameAttempts(q, Next(q, step));
  }

  lemma DispatchOne(q: Queue, a: nat)
    requires Ids(q) && OneAttempt(q) && Dispatches(q, Enter(a))
    ensures OneAttempt(EnterStep(q, a))
  {
    var key, q' := q.actors[a].key, EnterStep(q, a);
    assert forall b <- q.actors :: !q.actors[b].Active?;
    assert q'.actors[a] == Active(key, q.jobs[key].serial, false);
    assert Attends(q'.actors[a], key, q'.jobs[key].serial);
  }

  lemma FinishOne(q: Queue, a: nat, ok: bool)
    requires Ids(q) && OneAttempt(q) && Ends(q, Finish(a, ok)) && (q.closed ==> q.jobs == map[])
    ensures OneAttempt(FinishStep(q, a, ok))
  {
  }

  lemma StopOne(q: Queue)
    requires OneAttempt(q)
    ensures OneAttempt(StopStep(q))
  {
    var q' := StopStep(q);
    if q.running {
      var a :| a in q.actors && q.actors[a].Active?;
      assert a in q'.actors && q'.actors[a].Active?;
    }
  }

  /** No step takes the last actor of a job away while the job stays. */
  lemma NextAttends(q: Queue, step: Step, key: Key)
    requires Ids(q) && OneAttempt(q) && (key in q.jobs ==> Attended(q, key) && !q.closed) && key in Next(q, step).jobs
    ensures Attended(Next(q, step), key)
  {
    var q' := Next(q, step);
    if key !in q.jobs || q.jobs[key].serial != q'.jobs[key].serial {
      assert step == Schedule(key);
      assert Attends(q'.actors[q.supply + 1], key, q'.jobs[key].serial);
    } else {
      var a :| a in q.actors && Attends(q.actors[a], key, q.jobs[key].serial);
      if a in q'.actors && Attends(q'.actors[a], key, q.jobs[key].serial) {
      } else {
        Replaced(q, step, key, a);
      }
    }
  }

  /** The actor a of the job is gone: a new timer, the caller that stopped it, or the attempt has taken over. */
  lemma Replaced(q: Queue, step: Step, key: Key, a: nat)
    requires Ids(q) && OneAttempt(q) && key in q.jobs && !q.closed && a in q.actors && Attends(q.actors[a], key, q.jobs[key].serial)
    requires key in Next(q, step).jobs && Next(q, step).jobs[key].serial == q.jobs[key].serial
    requires !(a in Next(q, step).actors && Attends(Next(q, step).actors[a], key, q.jobs[key].serial))
    ensures Attended(Next(q, step), key)
  {
    hide OwnTimer, OwnAttempt, Attended;
    if q.jobs[key].active && !(step.Finish? && step.actor == a) {
      StillActive(q, step, key, a);
    } else {
      TakenOver(q, step, key, a);
    }
  }

  /** A timer is gone although the job is active: its attempt is still there. */
  lemma StillActive(q: Queue, step: Step, key: Key, a: nat)
    requires Ids(q) && OneAttempt(q) && key in q.jobs && q.jobs[key].active && !q.closed && a in q.actors
    requires key in Next(q, step).jobs && Next(q, step).jobs[key].serial == q.jobs[key].serial
    requires !(step.Finish? && step.actor == a) && Attends(q.actors[a], key, q.jobs[key].serial)
    requires !(a in Next(q, step).actors && Attends(Next(q, step).actors[a], key, q.jobs[key].serial))
    ensures Attended(Next(q, step), key)
  {
    var q' := Next(q, step);
    var b :| b in q.actors && q.actors[b].Active? && Attends(q.actors[b], key, q.jobs[key].serial);
    assert b in q'.actors && Attends(q'.actors[b], key, q'.jobs[key].serial);
  }

  /** A new timer, or the caller that stopped the old one, has taken over. */
  lemma TakenOver(q: Queue, step: Step, key: Key, a: nat)
    requires Ids(q) && key in q.jobs && !q.closed && a in q.actors && Attends(q.actors[a], key, q.jobs[key].serial)
    requires !q.jobs[key].active || (step.Finish? && step.actor == a)
    requires key in Next(q, step).jobs && Next(q, step).jobs[key].serial == q.jobs[key].serial
    requires !(a in Next(q, step).actors && Attends(Next(q, step).actors[a], key, q.jobs[key].serial))
    ensures Attended(Next(q, step), key)
  {
    var q' := Next(q, step);
    hide OwnTimer, OwnAttempt;
    if step.Enter? {
      assert Attends(q'.actors[step.actor], key, q'.jobs[key].serial);
    } else {
      hide EnterStep;
      assert Attends(q'.actors[q.supply], key, q'.jobs[key].serial);
    }
  }

  lemma NextKeeps(q: Queue, step: Step)
    requires Inv(q)
    ensures Inv(Next(q, step))
  {
    NextIds(q, step);
    NextPauses(q, step);
    NextAttempt(q, step);
    var q' := Next(q, step);
    hide Ids, OneAttempt, Pauses, Attended;
    forall k | k in q'.jobs ensures Attended(q', k) {
      NextAttends(q, step, k);
    }
    ClosedIsEmpty(q, step);
  }

  lemma ClosedIsEmpty(q: Queue, step: Step)
    requires q.closed ==> q.jobs == map[]
    ensures Next(q, step).closed ==> Next(q, step).jobs == map[]
  {
  }

  /******* Runs *******/

  function After(q: Queue, steps: seq<Step>): Queue {
    if steps == [] then q else Next(After(q, steps[..|steps| - 1]), steps[|steps| - 1])
  }

  /** In every run: attempts never overlap and leave a pause between them; running says whether there is one; every
      job that is registered has a timer, a Run on its way or waiting for it, or is the active attempt. */
  lemma {:induction false} EveryRun(steps: seq<Step>)
    ensures var q := After(EMPTY, steps);
      && Inv(q)
      && (forall k <- q.jobs :: Attended(q, k))
      && (forall a <- q.actors, b <- q.actors :: q.actors[a].Active? && q.actors[b].Active? ==> a == b)
      && (q.running <==> exists a :: a in q.actors && q.actors[a].Active?)
      && (forall i, j | 0 <= i < j < |q.past| :: q.past[i].end + YIELD <= q.past[j].start)
  {
    if steps != [] {
      EveryRun(steps[..|steps| - 1]);
      NextKeeps(After(EMPTY, steps[..|steps| - 1]), steps[|steps| - 1]);
    }
  }

  /** A job leaves only by the success of its own attempt, or by Stop. */
  lemma LeavesOnlyBySuccessOrStop(q: Queue, step: Step, key: Key)
    requires Inv(q) && key in q.jobs
    ensures (key in Next(q, step).jobs && Next(q, step).jobs[key].serial == q.jobs[key].serial) <==>
      !(step.Stop? || (step.Finish? && step.ok && step.actor in q.actors && q.actors[step.actor].Active?
                       && q.actors[step.actor].key == key))
  {
    assert !q.closed;
    if step.Finish? && step.actor in q.actors && q.actors[step.actor].Active? {
      assert OwnAttempt(q, step.actor);
    }
  }

  /** After Stop the queue stays closed and empty, what is active is cancelled, and nothing is dispatched: at most
      the attempt that was active then still ends. */
  lemma {:induction false} NothingAfterStop(q: Queue, steps: seq<Step>)
    requires Inv(q) && q.closed
    ensures var q' := After(q, steps);
      && Inv(q') && q'.closed && q'.jobs == map[]
      && (forall a <- q'.actors :: q'.actors[a].Active? ==> a in q.actors && q.actors[a] == q'.actors[a] && q'.actors[a].cancelled)
      && q.past <= q'.past && |q'.past| + (if q'.running then 1 else 0) == |q.past| + (if q.running then 1 else 0)
      && (q.running && !q'.running ==> q'.past[|q.past|].start == q.since)
      && (q'.running ==> q'.since == q.since)
  {
    if steps != [] {
      var q1 := After(q, steps[..|steps| - 1]);
      NothingAfterStop(q, steps[..|steps| - 1]);
      NextKeeps(q1, steps[|steps| - 1]);
      ClosedStep(q1, steps[|steps| - 1]);
    }
  }

  lemma ClosedStep(q: Queue, step: Step)
    requires Inv(q) && q.closed
    ensures var q' := Next(q, step);
      && q'.closed
      && (forall a <- q'.actors :: q'.actors[a].Active? ==> a in q.actors && q.actors[a] == q'.actors[a])
      && (if step.Finish? && step.actor in q.actors && q.actors[step.actor].Active?
          then q.running && !q'.running && q'.past == q.past + [Attempt(q.actors[step.actor].key, q.since, q.now)]
          else q'.running == q.running && q'.past == q.past && q'.since == q.since)
  {
  }

  /******* The queue itself *******/

  /** The fields of the queue, and the goroutines and timers that the Go runtime keeps for it. */
  class RecoveryQueue {
    var jobs: map<Key, Job>
    var closed: bool
    var running: bool
    var nextAttempt: int
    var actors: map<nat, Phase>
    var supply: nat
    var now: int
    ghost var since: int
    ghost var past: seq<Attempt>

    ghost function Q(): Queue
      reads this
    {
      Queue(jobs, closed, running, nextAttempt, actors, supply, now, since, past)
    }

    constructor ()
      ensures Q() == EMPTY && Inv(Q())
    {
      jobs, closed, running, nextAttempt := map[], false, false, 0;
      actors, supply, now := map[], 0, 0;
      since, past := 0, [];
    }

    method Spawn(p: Phase) returns (a: nat)
      modifies this`actors, this`supply
      ensures a == old(supply) && supply == a + 1 && actors == old(actors)[a := p]
    {
      a := supply;
      actors, supply := actors[a := p], a + 1;
    }

    method StopTimer(a: nat)
      modifies this`actors
      ensures actors == if a in old(actors) && old(actors)[a].Armed? then old(actors) - {a} else old(actors)
    {
      if a in actors && actors[a].Armed? {
        actors := actors - {a};
      }
    }

    /** A job gets a new timer. */
    method ArmTimer(key: Key, job: Job)
      modifies this`jobs, this`actors, this`supply
      ensures Q() == Rearm(old(Q()), key, job) && (!job.active ==> Rearmed(key))
    {
      var timer := Spawn(Armed(key, now + RETRY_DELAY));
      jobs := jobs[key := job.(timer := timer)];
    }

    /** The actor belongs to the job that is registered under its key now. */
    predicate Owns(a: nat)
      requires a in actors && (actors[a].Waiting? || actors[a].Active?)
      reads this
    {
      actors[a].key in jobs && jobs[actors[a].key].serial == actors[a].serial
    }

    /** The job waits for its timer, which fires after the retry delay. */
    predicate Rearmed(key: Key)
      reads this
    {
      && key in jobs && !jobs[key].active
      && jobs[key].timer in actors && actors[jobs[key].timer] == Armed(key, now + RETRY_DELAY)
    }

    lemma Scheduled(q: Queue, key: Key)
      ensures Next(q, Step.Schedule(key)) ==
        if q.closed || key in q.jobs then q else Rearm(q.(supply := q.supply + 1), key, Job(q.supply, 0, false))
    {
    }

    method Schedule(key: Key)
      requires Inv(Q())
      modifies this
      ensures Inv(Q()) && Q() == Next(old(Q()), Step.Schedule(key))
      ensures !closed && key !in old(jobs) ==> Rearmed(key)
    {
      hide Inv, Next, EnterStep, LeaveStep, FinishStep, StopStep, Rearmed;
      ghost var q := Q();
      NextKeeps(q, Step.Schedule(key));
      Scheduled(q, key);
      if closed || key in jobs {
        return;
      }
      var serial := supply;
      supply := supply + 1;
      ArmTimer(key, Job(serial, 0, false));
      assert Q() == Rearm(q.(supply := q.supply + 1), key, Job(q.supply, 0, false));
    }

    /** The head of the loop of Run: give up, wait, or dispatch one attempt. */
    method Head(a: nat) returns (dispatched: bool)
      requires Inv(Q()) && a in actors && actors[a].Entering?
      modifies this
      ensures Inv(Q()) && Q() == Next(old(Q()), Enter(a))
      ensures dispatched <==> Dispatches(old(Q()), Enter(a))
      ensures dispatched <==> a in actors && actors[a].Active?
    {
      NextKeeps(Q(), Enter(a));
      assert !running ==> forall b <- actors :: !actors[b].Active?;
      hide Inv, LeaveStep, FinishStep, StopStep;
      var key := actors[a].key;
      if closed || key !in jobs || jobs[key].active {
        actors := actors - {a};
        return false;
      }
      var job := jobs[key];
      StopTimer(job.timer);
      if running || now < nextAttempt {
        actors := actors[a := Waiting(key, job.serial)];
        return false;
      }
      running, since := true, now;
      jobs := jobs[key := job.(active := true)];
      actors := actors[a := Active(key, job.serial, false)];
      return true;
    }

    /** A waiting Run whose parent is cancelled puts the timer back. */
    method ParentDone(a: nat)
      requires Inv(Q()) && a in actors && actors[a].Waiting?
      modifies this
      ensures Inv(Q()) && Q() == Next(old(Q()), Leave(a))
      ensures old(!closed && Owns(a) && !jobs[actors[a].key].active) ==> Rearmed(old(actors)[a].key)
    {
      NextKeeps(Q(), Leave(a));
      assert Next(Q(), Leave(a)) == LeaveStep(Q(), a);
      hide Inv, EnterStep, FinishStep, StopStep, Next, Rearmed;
      ghost var q := Q();
      var key, serial := actors[a].key, actors[a].serial;
      actors := actors - {a};
      if !closed && key in jobs && jobs[key].serial == serial && !jobs[key].active {
        ArmTimer(key, jobs[key]);
      }
      assert Q() == LeaveStep(q, a);
    }

    lemma Finished(q: Queue, a: nat, ok: bool)
      requires a in q.actors && q.actors[a].Active?
      ensures Next(q, Finish(a, ok)) == FinishStep(q, a, ok)
    {
    }

    /** The end of an attempt. */
    method Done(a: nat, ok: bool)
      requires Inv(Q()) && a in actors && actors[a].Active?
      modifies this
      ensures Inv(Q()) && Q() == Next(old(Q()), Finish(a, ok)) && !running
      ensures old(!closed && Owns(a)) ==> if ok then old(actors)[a].key !in jobs else Rearmed(old(actors)[a].key)
    {
      hide Inv, EnterStep, LeaveStep, StopStep, Next, Rearmed;
      ghost var q := Q();
      NextKeeps(q, Finish(a, ok));
      Finished(q, a, ok);
      var key, serial := actors[a].key, actors[a].serial;
      past := past + [Attempt(key, since, now)];
      actors := actors - {a};
      running := false;
      nextAttempt := now + YIELD;
      if closed || key !in jobs || jobs[key].serial != serial {
        assert Q() == FinishStep(q, a, ok);
        return;
      }
      if ok {
        jobs := jobs - {key};
        assert Q() == FinishStep(q, a, ok);
        return;
      }
      ArmTimer(key, jobs[key].(active := false));
      assert Q() == FinishStep(q, a, ok);
    }

    /** The actors once the jobs with these keys are gone. */
    ghost function Without(q: Queue, keys: set<Key>): map<nat, Phase> {
      map a | a in q.actors && !(q.actors[a].Armed? && q.actors[a].key in keys && OwnTimer(q, a)) ::
        if q.actors[a].Active? && q.actors[a].key in keys && OwnAttempt(q, a) then q.actors[a].(cancelled := true) else q.actors[a]
    }

    /** The context of the attempt at this job is cancelled. */
    function Cancelled(actors: map<nat, Phase>, key: Key, serial: nat): map<nat, Phase> {
      map a | a in actors ::
        if actors[a].Active? && actors[a].key == key && actors[a].serial == serial then actors[a].(cancelled := true) else actors[a]
    }

    /** One job is taken out: its timer is stopped, and its attempt is cancelled. */
    lemma TakenOut(q: Queue, keys: set<Key>, key: Key, actors0: map<nat, Phase>, actors1: map<nat, Phase>, actors2: map<nat, Phase>)
      requires Ids(q) && key in q.jobs && actors0 == Without(q, keys)
      requires var t := q.jobs[key].timer; actors1 == if t in actors0 && actors0[t].Armed? then actors0 - {t} else actors0
      requires actors2 == if q.jobs[key].active then Cancelled(actors1, key, q.jobs[key].serial) else actors1
      ensures actors2 == Without(q, keys + {key})
    {
      var after := Without(q, keys + {key});
      forall a: nat
        ensures a in actors2 <==> a in after
        ensures a in actors2 ==> actors2[a] == after[a]
      {
      }
    }

    lemma TakenAll(q: Queue)
      ensures Without(q, {}) == q.actors && Without(q, q.jobs.Keys) == StopStep(q).actors
    {
    }

    lemma OneLess(jobs: map<Key, Job>, done: set<Key>, key: Key)
      ensures jobs - done - {key} == jobs - (done + {key})
      ensures key in jobs - done ==> |jobs - done - {key}| < |jobs - done|
    {
      if key in jobs - done {
        assert (jobs - done).Keys == (jobs - done - {key}).Keys + {key};
      }
    }

    lemma AllDone(q: Queue, done: set<Key>)
      requires q.jobs - done == map[]
      ensures Without(q, done) == Without(q, q.jobs.Keys)
    {
      forall k | k in q.jobs ensures k in done {
        assert k !in q.jobs - done;
      }
    }

    lemma StopIs(q: Queue)
      ensures Next(q, Step.Stop) == StopStep(q)
      ensures StopStep(q) == q.(closed := true, jobs := map[], actors := StopStep(q).actors)
    {
    }

    method Stop()
      requires Inv(Q())
      modifies this
      ensures Inv(Q()) && Q() == Next(old(Q()), Step.Stop)
    {
      ghost var q := Q();
      NextKeeps(q, Step.Stop);
      assert Ids(q);
      hide Inv, Ids, Next, Without, StopStep;
      TakenAll(q);
      StopIs(q);
      closed := true;
      TakeAll(q);
    }

    /** Every job is taken out. */
    method TakeAll(ghost q: Queue)
      requires Ids(q) && jobs == q.jobs && actors == q.actors && Without(q, {}) == q.actors
      modifies this`jobs, this`actors
      ensures jobs == map[] && actors == Without(q, q.jobs.Keys)
    {
      hide Ids, Without, Cancelled;
      ghost var done: set<Key> := {};
      while jobs != map[]
        invariant jobs == q.jobs - done && actors == Without(q, done)
        decreases |jobs|
      {
        var key :| key in jobs;
        var job := jobs[key];
        ghost var actors0 := actors;
        StopTimer(job.timer);
        ghost var actors1 := actors;
        if job.active {
          actors := Cancelled(actors, key, job.serial);
        }
        TakenOut(q, done, key, actors0, actors1, actors);
        OneLess(q.jobs, done, key);
        jobs := jobs - {key};
        done := done + {key};
      }
      AllDone(q, done);
    }
  }
}

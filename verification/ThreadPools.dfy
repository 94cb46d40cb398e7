/** The thread pool (src/thread_pool.cpp) as interleaved steps of any number of
    workers, submitters, one thread that adds workers and one that destroys. A
    step is what a thread does between two points where another may come in. */
module ThreadPools {

  type Job = nat

  /** Where a worker is in its loop. */
  datatype Pc =
    | Top                 // about to test the flag
    | Locking             // the flag was clear; about to lock the queue mutex
    | Holding             // owns the mutex; about to look at the queue
    | Waiting             // inside the timed wait, which has given the mutex up
    | Woken               // the wait has returned, for whatever reason, with the mutex
    | Popped(job: Job)    // owns the mutex; took a job off the queue
    | Running(job: Job)
    | Exited

  /** A worker and its local variable `lock_held`. */
  datatype Worker = Worker(pc: Pc, lockHeld: bool)

  datatype Submitter = Outside | WantsLock(job: Job) | HasLock(job: Job) | Pushed

  datatype Owner = Nobody | ByWorker(i: nat) | BySubmitter(j: nat)

  datatype Destroyer = NotCalled | Polling | Returned

  /** `uncounted` threads are created but not yet added to `numThreads`. The last
      three fields record history: the jobs in the order in which they were pushed,
      those in the order in which they were popped, and those that have run. */
  datatype Pool = Pool(
    owner: Owner,
    queue: seq<Job>,
    isDestroying: bool,
    numThreads: int,
    uncounted: nat,
    workers: seq<Worker>,
    submitters: seq<Submitter>,
    destroyer: Destroyer,
    submitted: seq<Job>,
    taken: seq<Job>,
    finished: multiset<Job>)

  datatype Action =
    | Work(i: nat)              // the next step of worker i
    | Submit(j: nat, job: Job)  // the next step of submitter j
    | CreateThread
    | CountThread
    | SetFlag
    | SeeNoThreads

  function Start(submitters: nat): Pool {
    Pool(Nobody, [], false, 0, 0, [], seq(submitters, j => Outside), NotCalled, [], [], multiset{})
  }

  predicate Blocks(pc: Pc) { pc.Locking? || pc.Waiting? }

  predicate Enabled(s: Pool, a: Action) {
    match a
    case Work(i) =>
      && i < |s.workers| && !s.workers[i].pc.Exited?
      && (Blocks(s.workers[i].pc) ==> s.owner == Nobody)
    case Submit(j, job) =>
      j < |s.submitters| && (s.submitters[j].WantsLock? ==> s.owner == Nobody)
    case CreateThread => true
    case CountThread => s.uncounted > 0
    case SetFlag => s.destroyer == NotCalled
    case SeeNoThreads => s.destroyer == Polling && s.numThreads == 0
  }

  function Pop(s: Pool, i: nat): Pool
    requires i < |s.workers| && s.queue != []
  {
    s.(queue := s.queue[1..],
       taken := s.taken + [s.queue[0]],
       workers := s.workers[i := Worker(Popped(s.queue[0]), s.workers[i].lockHeld)])
  }

  function WorkerStep(s: Pool, i: nat): Pool
    requires Enabled(s, Work(i))
  {
    var held := s.workers[i].lockHeld;
    match s.workers[i].pc
    case Top =>
      if s.isDestroying then
        s.(numThreads := s.numThreads - 1, workers := s.workers[i := Worker(Exited, held)])
      else s.(workers := s.workers[i := Worker(Locking, held)])
    case Locking => s.(owner := ByWorker(i), workers := s.workers[i := Worker(Holding, true)])
    case Holding =>
      if s.queue != [] then Pop(s, i)
      else s.(owner := Nobody, workers := s.workers[i := Worker(Waiting, held)])
    case Waiting => s.(owner := ByWorker(i), workers := s.workers[i := Worker(Woken, held)])
    case Woken =>
      if s.queue != [] then Pop(s, i)
      else s.(owner := Nobody, workers := s.workers[i := Worker(Top, false)])
    case Popped(job) => s.(owner := Nobody, workers := s.workers[i := Worker(Running(job), false)])
    case Running(job) =>
      s.(finished := s.finished + multiset{job}, workers := s.workers[i := Worker(Top, held)])
  }

  function SubmitterStep(s: Pool, j: nat, job: Job): Pool
    requires Enabled(s, Submit(j, job))
  {
    match s.submitters[j]
    case Outside => s.(submitters := s.submitters[j := WantsLock(job)])
    case WantsLock(mine) => s.(owner := BySubmitter(j), submitters := s.submitters[j := HasLock(mine)])
    case HasLock(mine) =>
      s.(queue := s.queue + [mine], submitted := s.submitted + [mine],
         submitters := s.submitters[j := Pushed])
    case Pushed => s.(owner := Nobody, submitters := s.submitters[j := Outside])
  }

  function Step(s: Pool, a: Action): Pool
    requires Enabled(s, a)
  {
    match a
    case Work(i) => WorkerStep(s, i)
    case Submit(j, job) => SubmitterStep(s, j, job)
    case CreateThread => s.(uncounted := s.uncounted + 1, workers := s.workers + [Worker(Top, false)])
    case CountThread => s.(uncounted := s.uncounted - 1, numThreads := s.numThreads + 1)
    case SetFlag => s.(isDestroying := true, destroyer := Polling)
    case SeeNoThreads => s.(destroyer := Returned)
  }

  predicate IsRun(s: Pool, actions: seq<Action>)
    decreases |actions|
  {
    actions != [] ==> Enabled(s, actions[0]) && IsRun(Step(s, actions[0]), actions[1..])
  }

  function After(s: Pool, actions: seq<Action>): Pool
    requires IsRun(s, actions)
    decreases |actions|
  {
    if actions == [] then s else After(Step(s, actions[0]), actions[1..])
  }

  // ---- what every step keeps ----

  predicate Owns(pc: Pc) { pc.Holding? || pc.Woken? || pc.Popped? }

  /** Real ownership of the mutex by each thread is what its control point says. */
  predicate LockDiscipline(s: Pool) {
    && (forall i | 0 <= i < |s.workers| :: s.owner == ByWorker(i) <==> Owns(s.workers[i].pc))
    && (forall j | 0 <= j < |s.submitters| ::
         s.owner == BySubmitter(j) <==> s.submitters[j].HasLock? || s.submitters[j].Pushed?)
    && (s.owner.ByWorker? ==> s.owner.i < |s.workers|)
    && (s.owner.BySubmitter? ==> s.owner.j < |s.submitters|)
  }

  /** `lock_held` is set exactly while the worker owns the mutex or has lent it to
      the timed wait. */
  predicate LocalsAgree(s: Pool) {
    forall i | 0 <= i < |s.workers| ::
      s.workers[i].lockHeld <==> Owns(s.workers[i].pc) || s.workers[i].pc.Waiting?
  }

  /** How many workers have `job` in their hands: taken and not finished. */
  function InHand(workers: seq<Worker>, job: Job): nat {
    if workers == [] then 0 else InHand(workers[1..], job) + Holds(workers[0], job)
  }

  function Holds(w: Worker, job: Job): nat {
    if (w.pc.Popped? || w.pc.Running?) && w.pc.job == job then 1 else 0
  }

  function Alive(workers: seq<Worker>): nat {
    if workers == [] then 0 else Alive(workers[1..]) + (if workers[0].pc.Exited? then 0 else 1)
  }

  ghost predicate JobsConserved(s: Pool) {
    && s.submitted == s.taken + s.queue
    && forall job :: multiset(s.taken)[job] == s.finished[job] + InHand(s.workers, job)
  }

  predicate ThreadsCounted(s: Pool) {
    && s.numThreads + s.uncounted == Alive(s.workers)
    && (s.isDestroying <==> s.destroyer != NotCalled)
  }

  ghost predicate Inv(s: Pool) {
    LockDiscipline(s) && LocalsAgree(s) && JobsConserved(s) && ThreadsCounted(s)
  }

  lemma {:induction false} UpdateHands(workers: seq<Worker>, i: nat, w: Worker, job: Job)
    requires i < |workers|
    ensures InHand(workers[i := w], job) + Holds(workers[i], job)
         == InHand(workers, job) + Holds(w, job)
  {
    hide Holds;
    if i == 0 {
      assert workers[0 := w][1..] == workers[1..];
    } else {
      UpdateHands(workers[1..], i - 1, w, job);
      assert workers[i := w][1..] == workers[1..][i - 1 := w];
    }
  }

  lemma {:induction false} UpdateCounts(workers: seq<Worker>, i: nat, w: Worker)
    requires i < |workers|
    ensures Alive(workers[i := w]) + (if workers[i].pc.Exited? then 0 else 1)
         == Alive(workers) + (if w.pc.Exited? then 0 else 1)
    ensures TotalRank(workers[i := w]) + Rank(workers[i].pc) == TotalRank(workers) + Rank(w.pc)
  {
    if i == 0 {
      assert workers[0 := w][1..] == workers[1..];
    } else {
      UpdateCounts(workers[1..], i - 1, w);
      assert workers[i := w][1..] == workers[1..][i - 1 := w];
    }
  }

  lemma {:induction false} AddWorker(workers: seq<Worker>)
    ensures forall job :: InHand(workers + [Worker(Top, false)], job) == InHand(workers, job)
    ensures Alive(workers + [Worker(Top, false)]) == Alive(workers) + 1
  {
    var more := workers + [Worker(Top, false)];
    if workers != [] {
      AddWorker(workers[1..]);
      assert more[1..] == workers[1..] + [Worker(Top, false)];
    } else {
      assert more == [Worker(Top, false)] && more[1..] == [];
    }
  }

  lemma PopKeepsJobs(s: Pool, i: nat)
    requires i < |s.workers| && s.queue != [] && JobsConserved(s)
    requires forall job :: Holds(s.workers[i], job) == 0
    ensures JobsConserved(Pop(s, i))
  {
    hide InHand, Alive, Rank;
    forall job
      ensures multiset(Pop(s, i).taken)[job] == s.finished[job] + InHand(Pop(s, i).workers, job)
    {
      UpdateHands(s.workers, i, Worker(Popped(s.queue[0]), s.workers[i].lockHeld), job);
    }
    assert s.queue == [s.queue[0]] + s.queue[1..];
  }

  lemma FinishKeepsJobs(s: Pool, i: nat)
    requires JobsConserved(s) && Enabled(s, Work(i)) && s.workers[i].pc.Running?
    ensures JobsConserved(WorkerStep(s, i))
  {
    hide InHand;
    var s' := WorkerStep(s, i);
    forall job
      ensures multiset(s'.taken)[job] == s'.finished[job] + InHand(s'.workers, job)
    {
      UpdateHands(s.workers, i, s'.workers[i], job);
    }
  }

  lemma OtherStepKeepsJobs(s: Pool, i: nat, w: Worker, s': Pool)
    requires JobsConserved(s) && i < |s.workers| && s'.workers == s.workers[i := w]
    requires forall job :: Holds(w, job) == Holds(s.workers[i], job)
    requires (s'.submitted, s'.taken, s'.queue, s'.finished) == (s.submitted, s.taken, s.queue, s.finished)
    ensures JobsConserved(s')
  {
    hide InHand, Holds;
    forall job
      ensures multiset(s'.taken)[job] == s'.finished[job] + InHand(s'.workers, job)
    {
      UpdateHands(s.workers, i, w, job);
    }
  }

  lemma WorkerStepKeepsJobs(s: Pool, i: nat)
    requires JobsConserved(s) && Enabled(s, Work(i))
    ensures JobsConserved(WorkerStep(s, i))
  {
    hide InHand, JobsConserved;
    var w := s.workers[i];
    if (w.pc.Holding? || w.pc.Woken?) && s.queue != [] {
      PopKeepsJobs(s, i);
    } else if w.pc.Running? {
      FinishKeepsJobs(s, i);
    } else {
      OtherStepKeepsJobs(s, i, WorkerStep(s, i).workers[i], WorkerStep(s, i));
    }
  }

  lemma WorkerStepKeepsLock(s: Pool, i: nat)
    requires LockDiscipline(s) && LocalsAgree(s) && Enabled(s, Work(i))
    ensures LockDiscipline(WorkerStep(s, i)) && LocalsAgree(WorkerStep(s, i))
  {
  }

  lemma WorkerStepKeepsInv(s: Pool, i: nat)
    requires Inv(s) && Enabled(s, Work(i))
    ensures Inv(WorkerStep(s, i))
  {
    WorkerStepKeepsJobs(s, i);
    WorkerStepKeepsLock(s, i);
    hide InHand, Alive, JobsConserved, LockDiscipline, LocalsAgree, TotalRank, Rank;
    UpdateCounts(s.workers, i, WorkerStep(s, i).workers[i]);
  }

  lemma SubmitterStepKeepsInv(s: Pool, j: nat, job: Job)
    requires Inv(s) && Enabled(s, Submit(j, job))
    ensures Inv(SubmitterStep(s, j, job))
  {
    hide InHand, Alive;
    assert SubmitterStep(s, j, job).workers == s.workers;
  }

  lemma StepKeepsInv(s: Pool, a: Action)
    requires Inv(s) && Enabled(s, a)
    ensures Inv(Step(s, a))
  {
    match a
    case Work(i) => WorkerStepKeepsInv(s, i);
    case Submit(j, job) => SubmitterStepKeepsInv(s, j, job);
    case CreateThread => AddWorker(s.workers);
    case _ =>
  }

  lemma {:induction false} RunKeepsInv(s: Pool, actions: seq<Action>)
    requires Inv(s) && IsRun(s, actions)
    ensures Inv(After(s, actions))
    decreases |actions|
  {
    if actions != [] {
      hide Inv, Enabled, Step;
      StepKeepsInv(s, actions[0]);
      RunKeepsInv(Step(s, actions[0]), actions[1..]);
    }
  }

  // ---- results over all interleavings ----

  /** Jobs leave the queue in the order in which they were added, and each is at
      every moment in exactly one state: queued, in one worker's hands, or run. */
  lemma JobsAreConservedInOrder(submitters: nat, actions: seq<Action>)
    requires IsRun(Start(submitters), actions)
    ensures var s := After(Start(submitters), actions);
            && s.submitted == s.taken + s.queue
            && forall job ::
                 multiset(s.submitted)[job]
                 == multiset(s.queue)[job] + InHand(s.workers, job) + s.finished[job]
  {
    RunKeepsInv(Start(submitters), actions);
  }

  /** The mutex has one owner at most; a worker's `lock_held` tells the truth
      everywhere outside the timed wait; no job runs, and the flag is never read,
      while the worker owns the mutex. */
  lemma WorkersObeyTheLock(submitters: nat, actions: seq<Action>, i: nat, k: nat)
    requires IsRun(Start(submitters), actions)
    requires i < |After(Start(submitters), actions).workers|
    requires k < |After(Start(submitters), actions).workers|
    ensures var s := After(Start(submitters), actions);
            var w := s.workers[i];
            && (Owns(w.pc) && Owns(s.workers[k].pc) ==> i == k)
            && (!w.pc.Waiting? ==> (w.lockHeld <==> s.owner == ByWorker(i)))
            && (w.pc.Waiting? ==> w.lockHeld && s.owner != ByWorker(i))
            && (w.pc.Running? || w.pc.Top? || w.pc.Exited? ==> !w.lockHeld && s.owner != ByWorker(i))
  {
    RunKeepsInv(Start(submitters), actions);
  }

  // ---- shutdown ----

  /** How many steps a worker has left once the flag is set. */
  function Rank(pc: Pc): nat {
    match pc
    case Exited => 0
    case Top => 1
    case Running(_) => 2
    case Popped(_) => 3
    case Woken => 4
    case Waiting => 5
    case Holding => 6
    case Locking => 7
  }

  function TotalRank(workers: seq<Worker>): nat {
    if workers == [] then 0 else TotalRank(workers[1..]) + Rank(workers[0].pc)
  }

  predicate NoNewThreads(actions: seq<Action>) {
    forall k | 0 <= k < |actions| :: actions[k] != CreateThread
  }

  function WorkerSteps(actions: seq<Action>): nat {
    if actions == [] then 0 else WorkerSteps(actions[1..]) + (if actions[0].Work? then 1 else 0)
  }

  lemma ShutdownStep(s: Pool, a: Action)
    requires s.isDestroying && Enabled(s, a) && a != CreateThread
    ensures Step(s, a).isDestroying
    ensures TotalRank(Step(s, a).workers) + (if a.Work? then 1 else 0) <= TotalRank(s.workers)
  {
    if a.Work? {
      hide TotalRank, Alive;
      var s' := WorkerStep(s, a.i);
      UpdateCounts(s.workers, a.i, s'.workers[a.i]);
      assert s'.workers == s.workers[a.i := s'.workers[a.i]];
    }
  }

  /** Once the flag is set, the workers together take no more steps than their
      ranks allow, however long the others go on: every worker step uses one up. */
  lemma {:induction false} ShutdownIsBounded(s: Pool, actions: seq<Action>)
    requires s.isDestroying && IsRun(s, actions) && NoNewThreads(actions)
    ensures After(s, actions).isDestroying
    ensures WorkerSteps(actions) + TotalRank(After(s, actions).workers) <= TotalRank(s.workers)
    decreases |actions|
  {
    if actions != [] {
      assert actions[0] != CreateThread;
      assert NoNewThreads(actions[1..]);
      hide Enabled, Step, Rank;
      ShutdownStep(s, actions[0]);
      ShutdownIsBounded(Step(s, actions[0]), actions[1..]);
    }
  }

  predicate AllExited(s: Pool) {
    forall i | 0 <= i < |s.workers| :: s.workers[i].pc.Exited?
  }

  /** As long as some worker has not exited, some worker can take a step, unless a
      submitter owns the mutex; then that submitter can, and it never waits while
      it does. */
  lemma SomebodyCanMove(submitters: nat, actions: seq<Action>)
    requires IsRun(Start(submitters), actions)
    requires !AllExited(After(Start(submitters), actions))
    ensures var s := After(Start(submitters), actions);
            if s.owner.BySubmitter?
            then forall job :: Enabled(s, Submit(s.owner.j, job))
            else exists i :: Enabled(s, Work(i))
  {
    RunKeepsInv(Start(submitters), actions);
    var s := After(Start(submitters), actions);
    var i :| 0 <= i < |s.workers| && !s.workers[i].pc.Exited?;
    if s.owner.ByWorker? {
      assert Owns(s.workers[s.owner.i].pc);
      assert Enabled(s, Work(s.owner.i));
    } else if s.owner == Nobody {
      assert Enabled(s, Work(i));
    }
  }

  /** The jobs that worker `i` begins to run in the course of `actions`. */
  function JobsBegun(s: Pool, actions: seq<Action>, i: nat): nat
    requires IsRun(s, actions)
    decreases |actions|
  {
    if actions == [] then 0 else
      JobsBegun(Step(s, actions[0]), actions[1..], i)
      + (if actions[0] == Work(i) && s.workers[i].pc.Popped? then 1 else 0)
  }

  function MayBegin(pc: Pc): nat {
    if pc.Top? || pc.Running? || pc.Exited? then 0 else 1
  }

  lemma {:induction false} JobsBegunAreBounded(s: Pool, actions: seq<Action>, i: nat)
    requires s.isDestroying && IsRun(s, actions) && NoNewThreads(actions) && i < |s.workers|
    ensures JobsBegun(s, actions, i) <= MayBegin(s.workers[i].pc)
    decreases |actions|
  {
    if actions != [] {
      assert actions[0] != CreateThread;
      assert NoNewThreads(actions[1..]);
      hide IsRun, NoNewThreads;
      JobsBegunAreBounded(Step(s, actions[0]), actions[1..], i);
    }
  }

  /** Once the flag is set, no worker begins more than one job. */
  lemma AtMostOneMoreJob(s: Pool, actions: seq<Action>, i: nat)
    requires s.isDestroying && IsRun(s, actions) && NoNewThreads(actions) && i < |s.workers|
    ensures JobsBegun(s, actions, i) <= 1
  {
    JobsBegunAreBounded(s, actions, i);
  }

  lemma {:induction false} NoneAlive(workers: seq<Worker>)
    ensures Alive(workers) == 0 <==> forall i | 0 <= i < |workers| :: workers[i].pc.Exited?
    ensures Alive(workers) == 0 ==> forall job :: InHand(workers, job) == 0
  {
    if workers != [] {
      NoneAlive(workers[1..]);
      assert forall i | 1 <= i < |workers| :: workers[i] == workers[1..][i - 1];
      if forall i | 0 <= i < |workers| :: workers[i].pc.Exited? {
        assert forall i | 0 <= i < |workers| - 1 :: workers[1..][i] == workers[i + 1];
      }
    }
  }

  /** When the count of threads is seen at zero, all workers have exited if and only
      if no thread is still waiting to be counted by the call that created it. */
  lemma ZeroThreadsMeansAllExited(submitters: nat, actions: seq<Action>)
    requires IsRun(Start(submitters), actions)
    requires After(Start(submitters), actions).numThreads == 0
    ensures var s := After(Start(submitters), actions);
            && (AllExited(s) <==> s.uncounted == 0)
            && (s.uncounted == 0 ==> !s.owner.ByWorker? && forall job :: InHand(s.workers, job) == 0)
  {
    RunKeepsInv(Start(submitters), actions);
    NoneAlive(After(Start(submitters), actions).workers);
  }

  /** Without that, the zero means nothing: a pool destroyed before its first thread
      is counted lets `destroy` return while the thread lives. */
  lemma DestroyCanReturnTooEarly()
    ensures var early := [CreateThread, SetFlag, SeeNoThreads];
            && IsRun(Start(0), early)
            && After(Start(0), early).destroyer == Returned
            && !AllExited(After(Start(0), early))
  {
    var s1 := Step(Start(0), CreateThread);
    var s2 := Step(s1, SetFlag);
    var s3 := Step(s2, SeeNoThreads);
    assert [CreateThread, SetFlag, SeeNoThreads][1..] == [SetFlag, SeeNoThreads];
    assert [SetFlag, SeeNoThreads][1..] == [SeeNoThreads];
    assert [SeeNoThreads][1..] == [];
    assert IsRun(s3, []) && IsRun(s2, [SeeNoThreads]) && IsRun(s1, [SetFlag, SeeNoThreads]);
    assert s3.workers[0].pc == Top;
  }

  /** And then nothing comes back to life: no worker takes a step and no job is
      taken, whatever the submitters do. */
  lemma {:induction false} ExitedForGood(s: Pool, actions: seq<Action>)
    requires AllExited(s) && IsRun(s, actions) && NoNewThreads(actions)
    ensures var s' := After(s, actions);
            AllExited(s') && s'.workers == s.workers && s'.taken == s.taken
    ensures WorkerSteps(actions) == 0
    decreases |actions|
  {
    if actions != [] {
      assert actions[0] != CreateThread;
      assert NoNewThreads(actions[1..]);
      ExitedForGood(Step(s, actions[0]), actions[1..]);
    }
  }

  /** `destroy` returns only to a pool at rest that stays at rest: on every run in
      which all created threads had been counted by then. */
  lemma DestroyReturnsForGood(submitters: nat, before: seq<Action>, after: seq<Action>)
    requires IsRun(Start(submitters), before)
    requires var s := After(Start(submitters), before);
             && s.uncounted == 0 && Enabled(s, SeeNoThreads)
             && IsRun(Step(s, SeeNoThreads), after) && NoNewThreads(after)
    ensures var s := After(Start(submitters), before);
            var s' := After(Step(s, SeeNoThreads), after);
            && AllExited(s') && !s'.owner.ByWorker?
            && (forall job :: InHand(s'.workers, job) == 0)
            && s'.taken == s.taken && WorkerSteps(after) == 0
  {
    ZeroThreadsMeansAllExited(submitters, before);
    RunKeepsInv(Start(submitters), before);
    var s := After(Start(submitters), before);
    hide IsRun, NoNewThreads;
    RunKeepsInv(Step(s, SeeNoThreads), after);
    ExitedForGood(Step(s, SeeNoThreads), after);
  }
}

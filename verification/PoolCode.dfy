/** The functions of the thread pool as the source writes them: each is a sequence of
    its thread's steps in ThreadPools. Other threads come in where it waits. */
module PoolCode {
  import opened ThreadPools
  import opened ByteStrings

  lemma {:induction false} AppendStep(s: Pool, actions: seq<Action>, a: Action)
    requires IsRun(s, actions) && Enabled(After(s, actions), a)
    ensures IsRun(s, actions + [a]) && After(s, actions + [a]) == Step(After(s, actions), a)
    decreases |actions|
  {
    hide Enabled, Step;
    if actions == [] {
      assert [] + [a] == [a] && [a][1..] == [];
      assert IsRun(Step(s, a), []);
    } else {
      AppendStep(Step(s, actions[0]), actions[1..], a);
      assert (actions + [a])[1..] == actions[1..] + [a];
    }
  }

  lemma {:induction false} AppendRun(s: Pool, actions: seq<Action>, more: seq<Action>)
    requires IsRun(s, actions) && IsRun(After(s, actions), more)
    ensures IsRun(s, actions + more) && After(s, actions + more) == After(After(s, actions), more)
    decreases |actions|
  {
    hide Enabled, Step;
    if actions == [] {
      assert [] + more == more;
    } else {
      AppendRun(Step(s, actions[0]), actions[1..], more);
      assert (actions + more)[1..] == actions[1..] + more;
    }
  }

  /** What other threads than worker `i` may do, one after the other. */
  predicate DoneByOthers(s: Pool, i: nat, others: seq<Action>) {
    IsRun(s, others) && Work(i) !in others
  }

  lemma {:induction false} OthersLeaveMeAlone(s: Pool, i: nat, others: seq<Action>)
    requires i < |s.workers| && DoneByOthers(s, i, others)
    ensures var s' := After(s, others);
            i < |s'.workers| && s'.workers[i] == s.workers[i]
    decreases |others|
  {
    if others != [] {
      assert others[0] != Work(i);
      OthersLeaveMeAlone(Step(s, others[0]), i, others[1..]);
    }
  }

  /** The pool as worker `i` leaves it when it goes to sleep for work. */
  function Asleep(s: Pool, i: nat): Pool
    requires i < |s.workers|
  {
    s.(owner := Nobody, workers := s.workers[i := Worker(Waiting, true)])
  }

  /** The others let worker `i` have the mutex again after all this. */
  predicate LetWake(s: Pool, i: nat, others: seq<Action>)
    requires i < |s.workers|
  {
    DoneByOthers(Asleep(s, i), i, others) && After(Asleep(s, i), others).owner == Nobody
  }

  class ThreadPool {
    var numThreads: int
    var jobQueue: seq<Job>
    var queueMutex: Owner
    var isDestroying: bool

    // the other threads, and history
    var uncounted: nat
    var workers: seq<Worker>
    var submitters: seq<Submitter>
    var destroyer: Destroyer
    var submitted: seq<Job>
    var taken: seq<Job>
    var finished: multiset<Job>

    function View(): Pool
      reads this
    {
      Pool(queueMutex, jobQueue, isDestroying, numThreads, uncounted, workers, submitters,
           destroyer, submitted, taken, finished)
    }

    constructor (submitters: nat)
      ensures View() == Start(submitters)
    {
      numThreads, jobQueue, queueMutex, isDestroying := 0, [], Nobody, false;
      uncounted, workers, destroyer := 0, [], NotCalled;
      this.submitters := seq(submitters, j => Outside);
      submitted, taken, finished := [], [], multiset{};
    }

    method AddThread() returns (rc: int)
      modifies this
      ensures rc == 0
      ensures View() == After(old(View()), [CreateThread, CountThread])
    {
      ghost var s := View();
      workers, uncounted := workers + [Worker(Top, false)], uncounted + 1;
      assert View() == Step(s, CreateThread);
      numThreads, uncounted := numThreads + 1, uncounted - 1;
      assert View() == Step(Step(s, CreateThread), CountThread);
      AppendStep(s, [], CreateThread);
      AppendStep(s, [CreateThread], CountThread);
      return 0;
    }

    // ---- the steps of a submitter ----

    ghost predicate Did(before: Pool, a: Action)
      reads this
    {
      Enabled(before, a) && View() == Step(before, a)
    }

    method AskForQueue(j: nat, job: Job)
      requires j < |submitters| && submitters[j] == Outside
      modifies this`submitters
      ensures Did(old(View()), Submit(j, job)) && submitters == old(submitters)[j := WantsLock(job)]
    {
      submitters := submitters[j := WantsLock(job)];
    }

    method LockQueue(j: nat, job: Job)
      requires j < |submitters| && submitters[j] == WantsLock(job) && queueMutex == Nobody
      modifies this`submitters, this`queueMutex
      ensures Did(old(View()), Submit(j, job)) && submitters == old(submitters)[j := HasLock(job)]
      ensures queueMutex == BySubmitter(j)
    {
      queueMutex, submitters := BySubmitter(j), submitters[j := HasLock(job)];
    }

    method PushJob(j: nat, job: Job)
      requires j < |submitters| && submitters[j] == HasLock(job)
      modifies this`submitters, this`jobQueue, this`submitted
      ensures Did(old(View()), Submit(j, job)) && submitters == old(submitters)[j := Pushed]
      ensures jobQueue == old(jobQueue) + [job] && submitted == old(submitted) + [job]
    {
      jobQueue := jobQueue + [job];
      submitted, submitters := submitted + [job], submitters[j := Pushed];
    }

    method UnlockQueue(j: nat, job: Job)
      requires j < |submitters| && submitters[j] == Pushed
      modifies this`submitters, this`queueMutex
      ensures Did(old(View()), Submit(j, job)) && submitters == old(submitters)[j := Outside]
      ensures queueMutex == Nobody
    {
      queueMutex, submitters := Nobody, submitters[j := Outside];
    }

    method AddJob(j: nat, job: Job, ghost before: Pool, ghost steps: seq<Action>)
      returns (rc: int, ghost steps': seq<Action>)
      requires j < |submitters| && submitters[j] == Outside && queueMutex == Nobody
      requires IsRun(before, steps) && View() == After(before, steps)
      modifies this`submitters, this`queueMutex, this`jobQueue, this`submitted
      ensures rc == 0
      ensures var a := Submit(j, job); steps' == steps + [a, a, a, a]
      ensures IsRun(before, steps') && View() == After(before, steps')
      ensures jobQueue == old(jobQueue) + [job] && submitted == old(submitted) + [job]
      ensures queueMutex == Nobody && submitters == old(submitters)
    {
      hide IsRun, After, Enabled, Step;
      ghost var a := Submit(j, job);
      AskForQueue(j, job);
      AppendStep(before, steps, a);
      LockQueue(j, job);
      AppendStep(before, steps + [a], a);
      PushJob(j, job);
      AppendStep(before, steps + [a] + [a], a);
      UnlockQueue(j, job);
      AppendStep(before, steps + [a] + [a] + [a], a);
      steps' := steps + [a] + [a] + [a] + [a];
      return 0, steps';
    }

    // ---- the steps of a worker ----

    method MoveTo(i: nat, pc: Pc, held: bool)
      requires i < |workers|
      modifies this`workers
      ensures workers == old(workers)[i := Worker(pc, held)]
    {
      workers := workers[i := Worker(pc, held)];
    }

    method PopJob(i: nat) returns (job: Job)
      requires i < |workers| && jobQueue != []
      requires workers[i].lockHeld && (workers[i].pc.Holding? || workers[i].pc.Woken?)
      modifies this`jobQueue, this`taken, this`workers
      ensures Did(old(View()), Work(i)) && job == old(jobQueue)[0] && jobQueue == old(jobQueue)[1..]
      ensures taken == old(taken) + [job] && workers == old(workers)[i := Worker(Popped(job), true)]
    {
      job := jobQueue[0];
      jobQueue := jobQueue[1..];
      taken := taken + [job];
      MoveTo(i, Popped(job), true);
    }

    /** Lets the mutex go, with a job to run or without one. */
    method LetGo(i: nat)
      requires i < |workers| && workers[i].lockHeld
      requires workers[i].pc.Popped? || (workers[i].pc.Woken? && jobQueue == [])
      modifies this`queueMutex, this`workers
      ensures Did(old(View()), Work(i)) && queueMutex == Nobody
      ensures var pc := old(workers)[i].pc;
              workers == old(workers)[i := Worker(if pc.Popped? then Running(pc.job) else Top, false)]
    {
      queueMutex := Nobody;
      MoveTo(i, if workers[i].pc.Popped? then Running(workers[i].pc.job) else Top, false);
    }

    method RunJob(i: nat, job: Job)
      requires i < |workers| && workers[i] == Worker(Running(job), false)
      modifies this`finished, this`workers
      ensures Did(old(View()), Work(i)) && finished == old(finished) + multiset{job}
      ensures workers == old(workers)[i := Worker(Top, false)]
    {
      finished := finished + multiset{job};
      MoveTo(i, Top, false);
    }

    /** Called with the mutex held and returns with it released. If there is a job
        it takes the oldest, lets the mutex go and runs the job. */
    method ProcessJobUnsafe(i: nat, lockHeld: bool, ghost before: Pool, ghost steps: seq<Action>)
      returns (held: bool, ghost steps': seq<Action>)
      requires lockHeld && queueMutex == ByWorker(i)
      requires i < |workers| && workers[i].lockHeld
      requires workers[i].pc.Woken? || (workers[i].pc.Holding? && jobQueue != [])
      requires IsRun(before, steps) && View() == After(before, steps)
      modifies this`jobQueue, this`taken, this`workers, this`queueMutex, this`finished
      ensures !held && queueMutex == Nobody
      ensures steps' == steps + if old(jobQueue) == [] then [Work(i)] else [Work(i), Work(i), Work(i)]
      ensures IsRun(before, steps') && View() == After(before, steps')
      ensures old(jobQueue) != [] ==>
                && taken == old(taken) + [old(jobQueue)[0]] && jobQueue == old(jobQueue)[1..]
                && finished == old(finished) + multiset{old(jobQueue)[0]}
      ensures old(jobQueue) == [] ==> (jobQueue, taken, finished) == old((jobQueue, taken, finished))
      ensures workers == old(workers)[i := Worker(Top, false)]
    {
      hide IsRun, After, Enabled, Step;
      held, steps' := lockHeld, steps;
      if jobQueue != [] {
        var job := PopJob(i);
        AppendStep(before, steps', Work(i));
        steps' := steps' + [Work(i)];
        LetGo(i);
        held := false;
        AppendStep(before, steps', Work(i));
        steps' := steps' + [Work(i)];
        RunJob(i, job);
        AppendStep(before, steps', Work(i));
        steps' := steps' + [Work(i)];
      }
      if held {
        LetGo(i);
        held := false;
        AppendStep(before, steps', Work(i));
        steps' := steps' + [Work(i)];
      }
    }

    /** Other threads do this, whatever it is. */
    method Others(others: seq<Action>)
      requires IsRun(View(), others)
      modifies this
      ensures View() == After(old(View()), others)
    {
      var s := After(View(), others);
      numThreads, jobQueue, queueMutex, isDestroying := s.numThreads, s.queue, s.owner, s.isDestroying;
      uncounted, workers, submitters, destroyer := s.uncounted, s.workers, s.submitters, s.destroyer;
      submitted, taken, finished := s.submitted, s.taken, s.finished;
    }

    /** The wait for work: it gives the mutex up, other threads do what they like, and
        at some moment it has the mutex again, whether there is a job or not. */
    method TimedWait(i: nat, others: seq<Action>, ghost before: Pool, ghost steps: seq<Action>)
      returns (ghost steps': seq<Action>)
      requires i < |workers| && workers[i] == Worker(Holding, true) && queueMutex == ByWorker(i)
      requires jobQueue == [] && LetWake(View(), i, others)
      requires IsRun(before, steps) && View() == After(before, steps)
      modifies this
      ensures IsRun(before, steps') && View() == After(before, steps')
      ensures steps' == steps + [Work(i)] + others + [Work(i)]
      ensures i < |workers| && workers[i] == Worker(Woken, true) && queueMutex == ByWorker(i)
      ensures var s := After(Asleep(old(View()), i), others);
              View() == s.(owner := ByWorker(i), workers := workers)
    {
      hide IsRun, After;
      queueMutex := Nobody;
      MoveTo(i, Waiting, true);
      AppendStep(before, steps, Work(i));
      assert View() == Asleep(old(View()), i);
      OthersLeaveMeAlone(View(), i, others);
      Others(others);
      AppendRun(before, steps + [Work(i)], others);
      queueMutex := ByWorker(i);
      MoveTo(i, Woken, true);
      AppendStep(before, steps + [Work(i)] + others, Work(i));
      steps' := steps + [Work(i)] + others + [Work(i)];
    }

    /** One turn of a worker's loop; `others` is what other threads do should it wait. */
    method LoopOnce(i: nat, others: seq<Action>)
      returns (exited: bool, ghost steps: seq<Action>)
      requires i < |workers| && workers[i] == Worker(Top, false) && queueMutex == Nobody
      requires !isDestroying && jobQueue == [] ==> LetWake(View(), i, others)
      modifies this
      ensures IsRun(old(View()), steps) && View() == After(old(View()), steps)
      ensures forall k | 0 <= k < |steps| :: steps[k] == Work(i) || steps[k] in others
      ensures exited <==> old(isDestroying)
      ensures exited ==> numThreads == old(numThreads) - 1 && taken == old(taken)
      ensures !exited ==> queueMutex == Nobody && i < |workers| && workers[i] == Worker(Top, false)
      ensures !exited ==>
                var s := if old(jobQueue) != [] then old(View()) else After(Asleep(old(View()), i), others);
                if s.queue == [] then (jobQueue, taken, finished) == (s.queue, s.taken, s.finished)
                else (jobQueue, taken, finished)
                     == (s.queue[1..], s.taken + [s.queue[0]], s.finished + multiset{s.queue[0]})
    {
      ghost var s := View();
      assert IsRun(s, []) && After(s, []) == s;
      hide IsRun, After, LetWake;
      steps := [];
      var lockHeld := false;
      if isDestroying {
        numThreads := numThreads - 1;
        MoveTo(i, Exited, false);
        AppendStep(s, [], Work(i));
        return true, [] + [Work(i)];
      }
      MoveTo(i, Locking, false);
      AppendStep(s, steps, Work(i));
      steps := steps + [Work(i)];

      queueMutex, lockHeld := ByWorker(i), true;
      MoveTo(i, Holding, true);
      AppendStep(s, steps, Work(i));
      steps := steps + [Work(i)];

      hide Enabled, Step;
      if jobQueue != [] {
        lockHeld, steps := ProcessJobUnsafe(i, lockHeld, s, steps);
      } else {
        assert LetWake(View(), i, others) by { SameAsleep(s, View(), i, others); }
        assert Asleep(View(), i) == Asleep(s, i);
        steps := TimedWait(i, others, s, steps);
        lockHeld, steps := ProcessJobUnsafe(i, lockHeld, s, steps);
      }
      return false, steps;
    }

    method SetDestroying()
      requires destroyer == NotCalled
      modifies this`isDestroying, this`destroyer
      ensures Did(old(View()), SetFlag) && isDestroying && destroyer == Polling
    {
      isDestroying, destroyer := true, Polling;
    }

    method Return()
      requires destroyer == Polling && numThreads == 0
      modifies this`destroyer
      ensures Did(old(View()), SeeNoThreads) && destroyer == Returned
    {
      destroyer := Returned;
    }

    /** Sets the flag and polls the count of threads; before each look at it the other
        threads do what `rounds` says. If it returns, all threads have exited exactly if
        none of them was still to be counted. */
    method Destroy(rounds: seq<seq<Action>>) returns (returned: bool, ghost steps: seq<Action>)
      requires Inv(View()) && destroyer == NotCalled
      requires AreRounds(View().(isDestroying := true, destroyer := Polling), rounds)
      modifies this
      ensures IsRun(old(View()), steps) && View() == After(old(View()), steps)
      ensures Inv(View()) && isDestroying
      ensures returned <==> destroyer == Returned
      ensures returned ==> numThreads == 0 && (AllExited(View()) <==> uncounted == 0)
    {
      ghost var s := View();
      assert IsRun(s, []) && After(s, []) == s;
      hide IsRun, After, Inv;
      hide Enabled, Step;
      SetDestroying();
      AppendStep(s, [], SetFlag);
      steps := [] + [SetFlag];
      var k := 0;
      while k < |rounds| && numThreads != 0
        invariant k <= |rounds| && AreRounds(View(), rounds[k..])
        invariant IsRun(s, steps) && View() == After(s, steps)
        invariant isDestroying && destroyer == Polling
      {
        assert rounds[k..][1..] == rounds[k + 1..];
        OthersPoll(View(), rounds[k]);
        AppendRun(s, steps, rounds[k]);
        Others(rounds[k]);
        steps := steps + rounds[k];
        k := k + 1;
      }
      returned := numThreads == 0;
      if returned {
        Return();
        AppendStep(s, steps, SeeNoThreads);
        steps := steps + [SeeNoThreads];
      }
      RunKeepsInv(s, steps);
      CountIsTrue(View());
    }
  }

  /** What others do in the course of a poll: neither the flag nor the return of
      `destroy` is theirs. */
  predicate AreRounds(s: Pool, rounds: seq<seq<Action>>)
    decreases |rounds|
  {
    rounds != [] ==>
      && IsRun(s, rounds[0]) && SetFlag !in rounds[0] && SeeNoThreads !in rounds[0]
      && AreRounds(After(s, rounds[0]), rounds[1..])
  }

  lemma {:induction false} OthersPoll(s: Pool, others: seq<Action>)
    requires IsRun(s, others) && SetFlag !in others && SeeNoThreads !in others
    ensures After(s, others).destroyer == s.destroyer
    ensures s.isDestroying ==> After(s, others).isDestroying
    decreases |others|
  {
    if others != [] {
      assert others[0] in others;
      OthersPoll(Step(s, others[0]), others[1..]);
    }
  }

  lemma CountIsTrue(s: Pool)
    requires Inv(s)
    ensures s.numThreads == 0 ==> (AllExited(s) <==> s.uncounted == 0)
  {
    NoneAlive(s.workers);
  }

  lemma SameAsleep(s: Pool, t: Pool, i: nat, others: seq<Action>)
    requires i < |s.workers| && i < |t.workers| && Asleep(s, i) == Asleep(t, i) && LetWake(s, i, others)
    ensures LetWake(t, i, others)
  {
  }
}

/** The pipeline with its three pools as they are: every job is pushed, popped, run and
    finished by the lock steps of a thread pool. What the pipeline takes for single
    steps, a push and the start of a job, are steps of these. */
module PooledServer {
  import opened Pipeline
  import PI = PipelineInvariant
  import PL = PipelineLaws
  import TP = ThreadPools
  import Connections
  import opened Commands

  /** `kinds` says which pool each worker belongs to. Submitter `j` of a pool is worker
      `j`, or the epoll thread if `j` is their number. `broken` records whether a pool
      has ever pushed or popped when the pipeline could not follow. */
  datatype System = System(kinds: seq<PoolName>, net: Server, pools: map<PoolName, TP.Pool>, broken: bool)

  datatype Step =
    | Net(a: Action)                       // a step of the pipeline that no pool sees
    | Private(p: PoolName, b: TP.Action)   // a step of a pool that the pipeline does not see
    | Take(w: nat)                         // worker w pops a job
    | Finish(w: nat)                       // the job of worker w returns
    | Ask(j: nat)                          // thread j calls `add_job`
    | PushJob(p: PoolName, j: nat)         // and pushes

  /** The number of worker `w` among the workers of its pool. */
  function Desk(kinds: seq<PoolName>, w: nat): nat
    requires w < |kinds|
  {
    HeadCount(kinds[..w], kinds[w])
  }

  function HeadCount(kinds: seq<PoolName>, p: PoolName): nat {
    if kinds == [] then 0 else
      HeadCount(kinds[..|kinds| - 1], p) + if kinds[|kinds| - 1] == p then 1 else 0
  }

  lemma {:induction false} HeadCountGrows(kinds: seq<PoolName>, w: nat, v: nat)
    requires w < v < |kinds| && kinds[w] == kinds[v]
    ensures Desk(kinds, w) < Desk(kinds, v)
    decreases v
  {
    assert kinds[..v][..v - 1] == kinds[..v - 1];
    if v - 1 > w {
      CountGrows(kinds, kinds[w], w + 1, v);
    }
    assert kinds[..w + 1][..w] == kinds[..w];
  }

  lemma {:induction false} CountGrows(kinds: seq<PoolName>, p: PoolName, a: nat, b: nat)
    requires a <= b <= |kinds|
    ensures HeadCount(kinds[..a], p) <= HeadCount(kinds[..b], p)
    decreases b - a
  {
    if a < b {
      assert kinds[..b][..b - 1] == kinds[..b - 1];
      CountGrows(kinds, p, a, b - 1);
    }
  }

  lemma DesksDiffer(kinds: seq<PoolName>, w: nat, v: nat)
    requires w < |kinds| && v < |kinds| && w != v && kinds[w] == kinds[v]
    ensures Desk(kinds, w) != Desk(kinds, v)
  {
    if w < v {
      HeadCountGrows(kinds, w, v);
    } else {
      HeadCountGrows(kinds, v, w);
    }
  }

  function Start(kinds: seq<PoolName>): System {
    var empty := TP.Start(|kinds| + 1);
    System(kinds, Pipeline.Start(kinds),
           map[ReadPool := empty, ParsePool := empty, WritePool := empty], false)
  }

  // ---- steps ----

  predicate Complete(s: System) {
    && (forall p: PoolName :: p in s.pools)
    && |s.net.workers| == |s.kinds|
  }

  /** Worker `w` of the pipeline sits in its pool, and is at this point of the loop. */
  predicate Sits(s: System, w: nat)
    requires Complete(s) && w < |s.kinds|
  {
    Desk(s.kinds, w) < |s.pools[s.kinds[w]].workers|
  }

  function PcOf(s: System, w: nat): TP.Pc
    requires Complete(s) && w < |s.kinds| && Sits(s, w)
  {
    s.pools[s.kinds[w]].workers[Desk(s.kinds, w)].pc
  }

  /** The step of a worker in which it takes a job off the queue. */
  predicate Pops(pool: TP.Pool, i: nat) {
    && i < |pool.workers| && pool.queue != []
    && (pool.workers[i].pc.Holding? || pool.workers[i].pc.Woken?)
  }

  /** The job that thread `j` has to push next, and where. */
  function Offer(net: Server, j: nat): seq<(PoolName, Ref)> {
    if j == |net.workers| then
      if net.epoller.LockedState? then [(ReadPool, net.epoller.ref)] else []
    else if j < |net.workers| && net.workers[j].task.Busy? then
      match net.workers[j].task.pc
      case ReadDone => [(ParsePool, net.workers[j].task.ref)]
      case ParseDone => [(WritePool, net.workers[j].task.ref)]
      case _ => []
    else []
  }

  /** The step in which thread `j` pushes. */
  function PushAction(net: Server, j: nat): Action {
    if j == |net.workers| then EpollerNext else Continue(j)
  }

  predicate IsPush(net: Server, a: Action) {
    || (a.EpollerNext? && net.epoller.LockedState?)
    || (a.Continue? && Offer(net, a.w) != [])
  }

  predicate Enabled(s: System, a: Step)
    requires Complete(s)
  {
    match a
    case Net(a') =>
      && Pipeline.Enabled(s.net, a') && !a'.StartJob? && !IsPush(s.net, a')
      && (PL.OfWorker(a') ==> a'.w < |s.kinds| && Sits(s, a'.w) && PcOf(s, a'.w).Running?)
    case Private(p, b) =>
      && TP.Enabled(s.pools[p], b)
      && (match b
          case Work(i) => !Pops(s.pools[p], i) && !s.pools[p].workers[i].pc.Running?
          case Submit(j, _) => s.pools[p].submitters[j].WantsLock? || s.pools[p].submitters[j].Pushed?
          case CreateThread => |s.pools[p].workers| < HeadCount(s.kinds, p)
          case _ => true)
    case Take(w) =>
      && w < |s.kinds| && Pops(s.pools[s.kinds[w]], Desk(s.kinds, w))
    case Finish(w) =>
      && w < |s.kinds| && Sits(s, w) && PcOf(s, w).Running? && s.net.workers[w].task.Free?
      && (forall p: PoolName :: w < |s.pools[p].submitters| && s.pools[p].submitters[w].Outside?)
    case Ask(j) =>
      && Offer(s.net, j) != []
      && j < |s.pools[Offer(s.net, j)[0].0].submitters|
      && s.pools[Offer(s.net, j)[0].0].submitters[j].Outside?
    case PushJob(p, j) =>
      j < |s.pools[p].submitters| && s.pools[p].submitters[j].HasLock?
  }

  /** What each side sees of a step. */
  function NetPart(s: System, a: Step): seq<Action>
    requires Complete(s) && Enabled(s, a)
  {
    match a
    case Net(a') => [a']
    case Take(w) => [StartJob(w)]
    case PushJob(_, j) => [PushAction(s.net, j)]
    case _ => []
  }

  function PoolPart(s: System, a: Step, p: PoolName): seq<TP.Action>
    requires Complete(s) && Enabled(s, a)
  {
    match a
    case Net(_) => []
    case Private(q, b) => if q == p then [b] else []
    case Take(w) => if s.kinds[w] == p then [TP.Work(Desk(s.kinds, w))] else []
    case Finish(w) => if s.kinds[w] == p then [TP.Work(Desk(s.kinds, w))] else []
    case Ask(j) => if Offer(s.net, j)[0].0 == p then [TP.Submit(j, Offer(s.net, j)[0].1)] else []
    case PushJob(q, j) => if q == p then [TP.Submit(j, s.pools[p].submitters[j].job)] else []
  }

  lemma PoolPartIsEnabled(s: System, a: Step, p: PoolName)
    requires Complete(s) && Enabled(s, a) && PoolPart(s, a, p) != []
    ensures TP.Enabled(s.pools[p], PoolPart(s, a, p)[0])
  {
  }

  lemma OneAtMost(s: System, a: Step, p: PoolName)
    requires Complete(s) && Enabled(s, a)
    ensures |PoolPart(s, a, p)| <= 1
  {
  }

  function After1(s: System, a: Step, p: PoolName): TP.Pool
    requires Complete(s) && Enabled(s, a)
  {
    var part := PoolPart(s, a, p);
    if part == [] then s.pools[p] else PoolPartIsEnabled(s, a, p); TP.Step(s.pools[p], part[0])
  }

  function Do(s: System, a: Step): System
    requires Complete(s) && Enabled(s, a)
  {
    var part := NetPart(s, a);
    var follows := part == [] || Pipeline.Enabled(s.net, part[0]);
    s.(net := if part == [] || !follows then s.net else Pipeline.Step(s.net, part[0]),
       pools := map p: PoolName | p in s.pools :: After1(s, a, p),
       broken := s.broken || !follows)
  }

  lemma DoIsComplete(s: System, a: Step)
    requires Complete(s) && Enabled(s, a)
    ensures Complete(Do(s, a))
  {
    hide Enabled, Pipeline.Enabled, After1;
    var part := NetPart(s, a);
    if part != [] && Pipeline.Enabled(s.net, part[0]) {
      PL.OneWorkerMoves(s.net, part[0]);
    }
  }

  // ---- what holds the two together ----

  /** A worker has a job in the pipeline only while its pool thread has popped it or
      runs it, and then it is that job. */
  predicate DeskFits(s: System, w: nat)
    requires Complete(s) && w < |s.kinds|
  {
    FitsDesk(s.net.workers[w].task, s.pools[s.kinds[w]].workers, Desk(s.kinds, w), s.kinds[w])
  }

  predicate FitsDesk(task: Task, crew: seq<TP.Worker>, i: nat, kind: PoolName) {
    if i >= |crew| then task.Free?
    else match crew[i].pc
         case Popped(job) => task.Busy? && task.ref == job && task.pc == StartPc(kind)
         case Running(job) => task.Busy? ==> task.ref == job
         case _ => task.Free?
  }

  /** A thread inside `add_job` is there with the job that it has to push. */
  predicate SubmitterFits(s: System, p: PoolName, j: nat)
    requires Complete(s) && j < |s.pools[p].submitters|
  {
    match s.pools[p].submitters[j]
    case WantsLock(job) => Offer(s.net, j) == [(p, job)]
    case HasLock(job) => Offer(s.net, j) == [(p, job)]
    case _ => true
  }

  ghost predicate Glued(s: System, at: PI.Places) {
    && Complete(s) && !s.broken
    && PI.Inv(s.net, at)
    && (forall w | 0 <= w < |s.kinds| :: s.net.workers[w].pool == s.kinds[w] && DeskFits(s, w))
    && (forall p: PoolName :: p in s.net.queues && s.pools[p].queue == s.net.queues[p])
    && (forall p: PoolName, j | 0 <= j < |s.pools[p].submitters| :: SubmitterFits(s, p, j))
  }

  // ---- frames ----

  lemma QueueFrame(net: Server, a: Action)
    requires Pipeline.Enabled(net, a)
    ensures !a.StartJob? && !IsPush(net, a) ==> Pipeline.Step(net, a).queues == net.queues
    ensures net.epoller.LockedState? && !a.EpollerNext? ==>
              Pipeline.Step(net, a).epoller == net.epoller
  {
    hide Answers, Connections.Record, ParsedCommand, Connections.WireBytes;
  }

  lemma OffersStay(net: Server, a: Action, j: nat)
    requires Pipeline.Enabled(net, a) && Offer(net, j) != [] && a != PushAction(net, j)
    ensures Offer(Pipeline.Step(net, a), j) == Offer(net, j)
  {
    hide Pipeline.Step;
    PL.OneWorkerMoves(net, a);
    QueueFrame(net, a);
    if j < |net.workers| && (PL.OfWorker(a) || a.StartJob?) && a.w == j {
      NoOtherStep(net, a, j);
    }
  }

  lemma NoOtherStep(net: Server, a: Action, j: nat)
    requires j < |net.workers| && Offer(net, j) != [] && (PL.OfWorker(a) || a.StartJob?) && a.w == j
    requires a != Continue(j)
    ensures !Pipeline.Enabled(net, a)
  {
  }

  /** What the private steps of a pool leave alone. */
  lemma PrivateFrame(s: System, p: PoolName, b: TP.Action)
    requires Complete(s) && Enabled(s, Private(p, b))
    ensures var pool, pool' := s.pools[p], TP.Step(s.pools[p], b);
            && pool'.queue == pool.queue
            && PrivatelyMoved(pool.workers, pool'.workers)
            && |pool'.submitters| == |pool.submitters|
            && (forall j | 0 <= j < |pool.submitters| ::
                 || pool'.submitters[j] == pool.submitters[j]
                 || pool'.submitters[j].Outside?
                 || (pool.submitters[j].WantsLock?
                     && pool'.submitters[j] == TP.HasLock(pool.submitters[j].job)))
  {
  }

  predicate NoJob(pc: TP.Pc) { !pc.Popped? && !pc.Running? }

  // ---- the steps keep the two together ----

  lemma NetKeepsGlue(s: System, at: PI.Places, a: Action) returns (at': PI.Places)
    requires Glued(s, at) && Enabled(s, Net(a))
    ensures Glued(Do(s, Net(a)), at')
  {
    hide PI.Inv, Pipeline.Step, Pipeline.Enabled, Offer;
    at' := PL.StepKeepsInv(s.net, at, a);
    PL.OneWorkerMoves(s.net, a);
    QueueFrame(s.net, a);
    var s' := Do(s, Net(a));
    DoIsComplete(s, Net(a));
    assert s'.pools == s.pools;
    forall w | 0 <= w < |s'.kinds|
      ensures s'.net.workers[w].pool == s'.kinds[w] && DeskFits(s', w)
    {
      assert DeskFits(s, w);
    }
    forall p: PoolName, j | 0 <= j < |s'.pools[p].submitters|
      ensures SubmitterFits(s', p, j)
    {
      assert SubmitterFits(s, p, j);
      var submitter := s.pools[p].submitters[j];
      if submitter.WantsLock? || submitter.HasLock? {
        NotThePush(s.net, a, j);
        OffersStay(s.net, a, j);
      }
    }
  }

  lemma NotThePush(net: Server, a: Action, j: nat)
    requires Offer(net, j) != [] && !IsPush(net, a)
    ensures a != PushAction(net, j)
  {
  }

  lemma PrivateDoes(s: System, p: PoolName, b: TP.Action)
    requires Complete(s) && Enabled(s, Private(p, b))
    ensures var s' := Do(s, Private(p, b));
            && Complete(s') && TP.Enabled(s.pools[p], b)
            && s'.pools[p] == TP.Step(s.pools[p], b)
            && (forall q: PoolName :: q != p ==> s'.pools[q] == s.pools[q])
            && s'.net == s.net && s'.broken == s.broken && s'.kinds == s.kinds
  {
    hide TP.Step, Pipeline.Step, Pipeline.Enabled, TP.Enabled;
    DoIsComplete(s, Private(p, b));
    PoolPartIsEnabled(s, Private(p, b), p);
  }

  lemma PrivateKeepsDesk(s: System, at: PI.Places, p: PoolName, b: TP.Action, v: nat)
    requires Glued(s, at) && Enabled(s, Private(p, b)) && v < |s.kinds|
    ensures var s' := Do(s, Private(p, b));
            Complete(s') && s'.kinds == s.kinds
            && s'.net.workers[v].pool == s'.kinds[v] && DeskFits(s', v)
  {
    hide PI.Inv, TP.Step, TP.Enabled, Offer, Pipeline.Enabled, Pipeline.Step, Do, Desk, SubmitterFits, Pops,
      FitsDesk, Enabled, PrivatelyMoved;
    PrivateFrame(s, p, b);
    PrivateDoes(s, p, b);
    assert DeskFits(s, v);
    if s.kinds[v] == p {
      DeskMoves(s.net.workers[v].task, s.pools[p].workers, TP.Step(s.pools[p], b).workers, Desk(s.kinds, v), p);
    }
  }

  lemma DeskMoves(task: Task, crew: seq<TP.Worker>, crew': seq<TP.Worker>, i: nat, kind: PoolName)
    requires FitsDesk(task, crew, i, kind) && PrivatelyMoved(crew, crew')
    ensures FitsDesk(task, crew', i, kind)
  {
  }

  /** No worker has taken or finished a job; one may have let the mutex go. */
  predicate PrivatelyMoved(before: seq<TP.Worker>, after: seq<TP.Worker>) {
    && |after| >= |before|
    && (forall i | 0 <= i < |before| ::
         || after[i].pc == before[i].pc
         || (NoJob(before[i].pc) && NoJob(after[i].pc))
         || (before[i].pc.Popped? && after[i].pc == TP.Running(before[i].pc.job)))
    && (forall i | |before| <= i < |after| :: NoJob(after[i].pc))
  }

  lemma PrivateKeepsGlue(s: System, at: PI.Places, p: PoolName, b: TP.Action)
    requires Glued(s, at) && Enabled(s, Private(p, b))
    ensures Glued(Do(s, Private(p, b)), at)
  {
    hide PI.Inv, TP.Step, TP.Enabled, Offer, Pipeline.Enabled, Pipeline.Step, Do, DeskFits, Pops;
    PrivateFrame(s, p, b);
    PrivateDoes(s, p, b);
    hide Enabled;
    var s' := Do(s, Private(p, b));
    forall v | 0 <= v < |s'.kinds|
      ensures s'.net.workers[v].pool == s'.kinds[v] && DeskFits(s', v)
    {
      PrivateKeepsDesk(s, at, p, b, v);
    }
    forall q: PoolName, j | 0 <= j < |s'.pools[q].submitters|
      ensures SubmitterFits(s', q, j)
    {
      assert SubmitterFits(s, q, j);
    }
  }

  lemma PopFrame(pool: TP.Pool, i: nat)
    requires Pops(pool, i)
    ensures TP.Enabled(pool, TP.Work(i))
    ensures var pool' := TP.Step(pool, TP.Work(i));
            && pool'.queue == pool.queue[1..] && pool'.submitters == pool.submitters
            && |pool'.workers| == |pool.workers|
            && pool'.workers[i].pc == TP.Popped(pool.queue[0])
            && forall k | 0 <= k < |pool.workers| && k != i :: pool'.workers[k] == pool.workers[k]
  {
  }

  lemma StartFrame(net: Server, w: nat)
    requires Pipeline.Enabled(net, StartJob(w))
    ensures var net' := Pipeline.Step(net, StartJob(w));
            var p := net.workers[w].pool;
            && net'.queues == net.queues[p := net.queues[p][1..]] && net'.epoller == net.epoller
            && net'.workers[w].task.Busy? && net'.workers[w].task.ref == net.queues[p][0]
            && net'.workers[w].task.pc == StartPc(p)
  {
  }

  /** When a pool pops, the worker is free in the pipeline and the job is there. */
  lemma PipelineCanStart(s: System, at: PI.Places, w: nat)
    requires Glued(s, at) && Enabled(s, Take(w))
    ensures Pipeline.Enabled(s.net, StartJob(w)) && s.net.workers[w].pool == s.kinds[w]
  {
    hide PI.Inv, Offer, Desk;
    assert DeskFits(s, w);
    PL.EntryFacts(s.net, at, s.kinds[w], 0);
  }

  lemma TakeKeepsDesk(s: System, at: PI.Places, w: nat, v: nat)
    requires Glued(s, at) && Enabled(s, Take(w)) && v < |s.kinds|
    ensures var s' := Do(s, Take(w));
            Complete(s') && s'.kinds == s.kinds
            && s'.net.workers[v].pool == s'.kinds[v] && DeskFits(s', v)
  {
    hide PI.Inv, TP.Step, TP.Enabled, Pipeline.Step, Pipeline.Enabled, Offer, Do, Desk, SubmitterFits;
    PipelineCanStart(s, at, w);
    PL.OneWorkerMoves(s.net, StartJob(w));
    StartFrame(s.net, w);
    PopFrame(s.pools[s.kinds[w]], Desk(s.kinds, w));
    TakeDoes(s, w);
    assert DeskFits(s, v);
    if v != w && s.kinds[v] == s.kinds[w] {
      DesksDiffer(s.kinds, v, w);
    }
  }

  lemma TakeKeepsSubmitter(s: System, at: PI.Places, w: nat, q: PoolName, j: nat)
    requires Glued(s, at) && Enabled(s, Take(w)) && j < |s.pools[q].submitters|
    ensures var s' := Do(s, Take(w));
            Complete(s') && s'.pools[q].submitters == s.pools[q].submitters && SubmitterFits(s', q, j)
  {
    hide PI.Inv, TP.Step, TP.Enabled, Pipeline.Step, Pipeline.Enabled, Offer, Do, Desk, DeskFits;
    PipelineCanStart(s, at, w);
    PopFrame(s.pools[s.kinds[w]], Desk(s.kinds, w));
    TakeDoes(s, w);
    assert SubmitterFits(s, q, j);
    var submitter := s.pools[q].submitters[j];
    if submitter.WantsLock? || submitter.HasLock? {
      assert StartJob(w) != PushAction(s.net, j);
      OffersStay(s.net, StartJob(w), j);
    }
  }

  lemma TakeKeepsGlue(s: System, at: PI.Places, w: nat) returns (at': PI.Places)
    requires Glued(s, at) && Enabled(s, Take(w))
    ensures Glued(Do(s, Take(w)), at')
  {
    hide PI.Inv, TP.Step, TP.Enabled, Pipeline.Step, Pipeline.Enabled, Do, Desk, DeskFits,
      SubmitterFits;
    PipelineCanStart(s, at, w);
    at' := PL.StepKeepsInv(s.net, at, StartJob(w));
    StartFrame(s.net, w);
    PopFrame(s.pools[s.kinds[w]], Desk(s.kinds, w));
    TakeDoes(s, w);
    var s' := Do(s, Take(w));
    forall v | 0 <= v < |s'.kinds|
      ensures s'.net.workers[v].pool == s'.kinds[v] && DeskFits(s', v)
    {
      TakeKeepsDesk(s, at, w, v);
    }
    forall q: PoolName, j | 0 <= j < |s'.pools[q].submitters|
      ensures SubmitterFits(s', q, j)
    {
      TakeKeepsSubmitter(s, at, w, q, j);
    }
  }

  lemma FinishFrame(pool: TP.Pool, i: nat)
    requires i < |pool.workers| && pool.workers[i].pc.Running?
    ensures TP.Enabled(pool, TP.Work(i))
    ensures var pool' := TP.Step(pool, TP.Work(i));
            && pool'.queue == pool.queue && pool'.submitters == pool.submitters
            && |pool'.workers| == |pool.workers|
            && NoJob(pool'.workers[i].pc)
            && forall k | 0 <= k < |pool.workers| && k != i :: pool'.workers[k] == pool.workers[k]
  {
  }

  /** What three kinds of steps make of the pools and of the pipeline. */
  lemma TakeDoes(s: System, w: nat)
    requires Complete(s) && Enabled(s, Take(w)) && Pipeline.Enabled(s.net, StartJob(w))
    ensures var s' := Do(s, Take(w));
            var p, i := s.kinds[w], Desk(s.kinds, w);
            && Complete(s') && TP.Enabled(s.pools[p], TP.Work(i))
            && s'.pools[p] == TP.Step(s.pools[p], TP.Work(i))
            && (forall q: PoolName :: q != p ==> s'.pools[q] == s.pools[q])
            && s'.net == Pipeline.Step(s.net, StartJob(w))
            && s'.broken == s.broken && s'.kinds == s.kinds
  {
    hide TP.Step, Pipeline.Step, Pipeline.Enabled, TP.Enabled;
    DoIsComplete(s, Take(w));
    PoolPartIsEnabled(s, Take(w), s.kinds[w]);
  }

  lemma FinishDoes(s: System, w: nat)
    requires Complete(s) && Enabled(s, Finish(w))
    ensures var s' := Do(s, Finish(w));
            var p, i := s.kinds[w], Desk(s.kinds, w);
            && Complete(s') && TP.Enabled(s.pools[p], TP.Work(i))
            && s'.pools[p] == TP.Step(s.pools[p], TP.Work(i))
            && (forall q: PoolName :: q != p ==> s'.pools[q] == s.pools[q])
            && s'.net == s.net && s'.broken == s.broken && s'.kinds == s.kinds
  {
    hide TP.Step, Pipeline.Step, Pipeline.Enabled, TP.Enabled;
    DoIsComplete(s, Finish(w));
    PoolPartIsEnabled(s, Finish(w), s.kinds[w]);
  }

  lemma AskDoes(s: System, j: nat)
    requires Complete(s) && Enabled(s, Ask(j))
    ensures var s' := Do(s, Ask(j));
            var (p, job) := Offer(s.net, j)[0];
            && Complete(s') && TP.Enabled(s.pools[p], TP.Submit(j, job))
            && s'.pools[p] == TP.Step(s.pools[p], TP.Submit(j, job))
            && (forall q: PoolName :: q != p ==> s'.pools[q] == s.pools[q])
            && s'.net == s.net && s'.broken == s.broken && s'.kinds == s.kinds
  {
    hide TP.Step, Pipeline.Step, Pipeline.Enabled, TP.Enabled;
    DoIsComplete(s, Ask(j));
    PoolPartIsEnabled(s, Ask(j), Offer(s.net, j)[0].0);
  }

  lemma FinishKeepsDesk(s: System, at: PI.Places, w: nat, v: nat)
    requires Glued(s, at) && Enabled(s, Finish(w)) && v < |s.kinds|
    ensures var s' := Do(s, Finish(w));
            Complete(s') && s'.kinds == s.kinds
            && s'.net.workers[v].pool == s'.kinds[v] && DeskFits(s', v)
  {
    hide PI.Inv, TP.Step, TP.Enabled, Offer, Pipeline.Enabled, Pipeline.Step, Do, Desk, SubmitterFits;
    FinishFrame(s.pools[s.kinds[w]], Desk(s.kinds, w));
    FinishDoes(s, w);
    assert DeskFits(s, v);
    if v != w && s.kinds[v] == s.kinds[w] {
      DesksDiffer(s.kinds, v, w);
    }
  }

  lemma FinishKeepsGlue(s: System, at: PI.Places, w: nat)
    requires Glued(s, at) && Enabled(s, Finish(w))
    ensures Glued(Do(s, Finish(w)), at)
  {
    hide PI.Inv, TP.Step, TP.Enabled, Offer, Pipeline.Enabled, Pipeline.Step, Do, Desk, DeskFits;
    FinishFrame(s.pools[s.kinds[w]], Desk(s.kinds, w));
    FinishDoes(s, w);
    var s' := Do(s, Finish(w));
    forall v | 0 <= v < |s'.kinds|
      ensures s'.net.workers[v].pool == s'.kinds[v] && DeskFits(s', v)
    {
      FinishKeepsDesk(s, at, w, v);
    }
    forall q: PoolName, j | 0 <= j < |s'.pools[q].submitters|
      ensures SubmitterFits(s', q, j)
    {
      assert SubmitterFits(s, q, j);
    }
  }

  /** The two steps of `add_job` that the pipeline cares for. */
  lemma SubmitFrame(pool: TP.Pool, j: nat, job: TP.Job)
    requires j < |pool.submitters|
    requires pool.submitters[j].Outside? || pool.submitters[j] == TP.HasLock(job)
    ensures TP.Enabled(pool, TP.Submit(j, job))
    ensures var pool' := TP.Step(pool, TP.Submit(j, job));
            && pool'.workers == pool.workers
            && pool'.queue == pool.queue + (if pool.submitters[j].Outside? then [] else [job])
            && |pool'.submitters| == |pool.submitters|
            && pool'.submitters[j] == (if pool.submitters[j].Outside? then TP.WantsLock(job) else TP.Pushed)
            && forall k | 0 <= k < |pool.submitters| && k != j :: pool'.submitters[k] == pool.submitters[k]
  {
    assert pool.queue + [] == pool.queue;
  }

  /** The pools have not moved any worker, nor the pipeline this one, unless it let go
      of a job that runs. */
  lemma SameDesk(s: System, s': System, v: nat)
    requires Complete(s) && Complete(s') && s'.kinds == s.kinds
    requires forall p: PoolName :: s'.pools[p].workers == s.pools[p].workers
    requires v < |s.kinds| && DeskFits(s, v)
    requires || s'.net.workers[v] == s.net.workers[v]
             || (Sits(s, v) && PcOf(s, v).Running? && s'.net.workers[v].task.Free?)
    ensures DeskFits(s', v)
  {
    hide Desk;
  }

  lemma AskKeepsGlue(s: System, at: PI.Places, j: nat)
    requires Glued(s, at) && Enabled(s, Ask(j))
    ensures Glued(Do(s, Ask(j)), at)
  {
    hide PI.Inv, TP.Step, TP.Enabled, Pipeline.Enabled, Pipeline.Step, Do, DeskFits;
    var (p, job) := Offer(s.net, j)[0];
    assert Offer(s.net, j) == [(p, job)];
    hide Offer;
    SubmitFrame(s.pools[p], j, job);
    assert s.pools[p].queue + [] == s.pools[p].queue;
    AskDoes(s, j);
    hide Enabled;
    var s' := Do(s, Ask(j));
    forall v | 0 <= v < |s'.kinds|
      ensures s'.net.workers[v].pool == s'.kinds[v] && DeskFits(s', v)
    {
      assert DeskFits(s, v);
      SameDesk(s, s', v);
    }
    forall q: PoolName, k | 0 <= k < |s'.pools[q].submitters|
      ensures SubmitterFits(s', q, k)
    {
      assert SubmitterFits(s, q, k);
    }
  }

  lemma WorkersOffer(net: Server, at: PI.Places, p: PoolName, w: nat, job: Ref)
    requires PI.Inv(net, at) && w < |net.workers| && Offer(net, w) == [(p, job)]
    requires forall q: PoolName :: q in net.queues
    ensures Pipeline.Enabled(net, Continue(w))
    ensures var net' := ContinueStep(net, w);
            && net'.queues == net.queues[p := net.queues[p] + [job]]
            && |net'.workers| == |net.workers| && net'.workers[w].task.Free?
  {
    hide PI.Inv, PI.SocketsOf, PI.InOrder;
    PI.TaskFacts(net, at, w);
  }

  lemma EpollersOffer(net: Server, p: PoolName, job: Ref)
    requires Offer(net, |net.workers|) == [(p, job)] && ReadPool in net.queues
    ensures Pipeline.Enabled(net, EpollerNext)
    ensures var net' := EpollerStep(net);
            && net'.queues == net.queues[p := net.queues[p] + [job]]
            && net'.workers == net.workers && !net'.epoller.LockedState?
  {
  }

  lemma OfferedPush(net: Server, at: PI.Places, p: PoolName, j: nat, job: Ref)
    requires PI.Inv(net, at) && Offer(net, j) == [(p, job)]
    requires forall q: PoolName :: q in net.queues
    ensures Pipeline.Enabled(net, PushAction(net, j))
    ensures var net' := Pipeline.Step(net, PushAction(net, j));
            && net'.queues == net.queues[p := net.queues[p] + [job]]
            && |net'.workers| == |net.workers|
            && (j < |net.workers| ==> net'.workers[j].task.Free?)
            && Offer(net', j) == []
  {
    hide PI.Inv, Pipeline.Enabled, ContinueStep, EpollerStep;
    if j < |net.workers| {
      WorkersOffer(net, at, p, j, job);
    } else {
      EpollersOffer(net, p, job);
    }
  }

  lemma PushDoes(s: System, at: PI.Places, p: PoolName, j: nat)
    requires Glued(s, at) && Enabled(s, PushJob(p, j))
    ensures var s' := Do(s, PushJob(p, j));
            var job, a := s.pools[p].submitters[j].job, PushAction(s.net, j);
            && Complete(s') && TP.Enabled(s.pools[p], TP.Submit(j, job))
            && s'.pools[p] == TP.Step(s.pools[p], TP.Submit(j, job))
            && (forall q: PoolName :: q != p ==> s'.pools[q] == s.pools[q])
            && Offer(s.net, j) == [(p, job)] && Pipeline.Enabled(s.net, a)
            && s'.net == Pipeline.Step(s.net, a)
            && s'.broken == s.broken && s'.kinds == s.kinds
  {
    hide PI.Inv, TP.Step, Pipeline.Step, Pipeline.Enabled, TP.Enabled, Offer, DeskFits;
    assert SubmitterFits(s, p, j);
    OfferedPush(s.net, at, p, j, s.pools[p].submitters[j].job);
    DoIsComplete(s, PushJob(p, j));
    PoolPartIsEnabled(s, PushJob(p, j), p);
  }

  lemma PushKeepsDesk(s: System, at: PI.Places, p: PoolName, j: nat, v: nat)
    requires Glued(s, at) && Enabled(s, PushJob(p, j)) && v < |s.kinds|
    ensures var s' := Do(s, PushJob(p, j));
            Complete(s') && s'.kinds == s.kinds
            && s'.net.workers[v].pool == s'.kinds[v] && DeskFits(s', v)
  {
    hide PI.Inv, TP.Step, TP.Enabled, Pipeline.Step, Pipeline.Enabled, Offer, Do, Sits, PcOf, DeskFits,
      SubmitterFits;
    var job := s.pools[p].submitters[j].job;
    PushDoes(s, at, p, j);
    OfferedPush(s.net, at, p, j, job);
    PL.OneWorkerMoves(s.net, PushAction(s.net, j));
    SubmitFrame(s.pools[p], j, job);
    assert DeskFits(s, v);
    if v == j {
      PushesWhileRunning(s, v, p, job);
    }
    SameDesk(s, Do(s, PushJob(p, j)), v);
  }

  lemma PushKeepsSubmitter(s: System, at: PI.Places, p: PoolName, j: nat, q: PoolName, k: nat)
    requires Glued(s, at) && Enabled(s, PushJob(p, j)) && k < |s.pools[q].submitters|
    ensures var s' := Do(s, PushJob(p, j));
            Complete(s') && |s'.pools[q].submitters| == |s.pools[q].submitters| && SubmitterFits(s', q, k)
  {
    hide PI.Inv, TP.Step, TP.Enabled, Pipeline.Step, Pipeline.Enabled, Offer, Do, Desk, DeskFits;
    var job := s.pools[p].submitters[j].job;
    PushDoes(s, at, p, j);
    OfferedPush(s.net, at, p, j, job);
    SubmitFrame(s.pools[p], j, job);
    assert SubmitterFits(s, q, k);
    var submitter := s.pools[q].submitters[k];
    if k != j && (submitter.WantsLock? || submitter.HasLock?) {
      OffersStay(s.net, PushAction(s.net, j), k);
    }
  }

  lemma PushKeepsGlue(s: System, at: PI.Places, p: PoolName, j: nat) returns (at': PI.Places)
    requires Glued(s, at) && Enabled(s, PushJob(p, j))
    ensures Glued(Do(s, PushJob(p, j)), at')
  {
    hide PI.Inv, TP.Step, TP.Enabled, Pipeline.Step, Pipeline.Enabled, Offer, Do, DeskFits, SubmitterFits;
    var job, a := s.pools[p].submitters[j].job, PushAction(s.net, j);
    PushDoes(s, at, p, j);
    OfferedPush(s.net, at, p, j, job);
    at' := PL.StepKeepsInv(s.net, at, a);
    SubmitFrame(s.pools[p], j, job);
    var s' := Do(s, PushJob(p, j));
    forall v | 0 <= v < |s'.kinds|
      ensures s'.net.workers[v].pool == s'.kinds[v] && DeskFits(s', v)
    {
      PushKeepsDesk(s, at, p, j, v);
    }
    forall q: PoolName, k | 0 <= k < |s'.pools[q].submitters|
      ensures SubmitterFits(s', q, k)
    {
      PushKeepsSubmitter(s, at, p, j, q, k);
    }
  }

  lemma PushesWhileRunning(s: System, w: nat, p: PoolName, job: Ref)
    requires Complete(s) && w < |s.kinds| && DeskFits(s, w) && Offer(s.net, w) == [(p, job)]
    ensures Sits(s, w) && PcOf(s, w).Running?
  {
  }

  lemma StepKeepsGlue(s: System, at: PI.Places, a: Step) returns (at': PI.Places)
    requires Glued(s, at) && Enabled(s, a)
    ensures Glued(Do(s, a), at')
  {
    hide Glued, Enabled, Do;
    at' := at;
    match a
    case Net(b) => at' := NetKeepsGlue(s, at, b);
    case Private(p, b) => PrivateKeepsGlue(s, at, p, b);
    case Take(w) => at' := TakeKeepsGlue(s, at, w);
    case Finish(w) => FinishKeepsGlue(s, at, w);
    case Ask(j) => AskKeepsGlue(s, at, j);
    case PushJob(p, j) => at' := PushKeepsGlue(s, at, p, j);
  }

  // ---- runs ----

  predicate IsRunOf(s: System, steps: seq<Step>)
    requires Complete(s)
    decreases |steps|
  {
    steps != [] ==>
      && Enabled(s, steps[0])
      && (DoIsComplete(s, steps[0]); IsRunOf(Do(s, steps[0]), steps[1..]))
  }

  function AfterAll(s: System, steps: seq<Step>): (s': System)
    requires Complete(s) && IsRunOf(s, steps)
    ensures Complete(s')
    decreases |steps|
  {
    if steps == [] then s else
      DoIsComplete(s, steps[0]);
      AfterAll(Do(s, steps[0]), steps[1..])
  }

  /** What the pipeline sees of a run, and what a pool sees. */
  function NetActions(s: System, steps: seq<Step>): seq<Action>
    requires Complete(s) && IsRunOf(s, steps)
    decreases |steps|
  {
    if steps == [] then [] else
      DoIsComplete(s, steps[0]);
      NetPart(s, steps[0]) + NetActions(Do(s, steps[0]), steps[1..])
  }

  function PoolActions(s: System, steps: seq<Step>, p: PoolName): seq<TP.Action>
    requires Complete(s) && IsRunOf(s, steps)
    decreases |steps|
  {
    if steps == [] then [] else
      DoIsComplete(s, steps[0]);
      PoolPart(s, steps[0], p) + PoolActions(Do(s, steps[0]), steps[1..], p)
  }

  /** Whatever the pools do, the pipeline can follow. */
  lemma PipelineFollows(s: System, at: PI.Places, a: Step)
    requires Complete(s) && Glued(s, at) && Enabled(s, a) && NetPart(s, a) != []
    ensures Pipeline.Enabled(s.net, NetPart(s, a)[0])
    ensures Do(s, a).net == Pipeline.Step(s.net, NetPart(s, a)[0])
  {
    hide Glued, Enabled, Pipeline.Step;
    var at' := StepKeepsGlue(s, at, a);
    DoIsComplete(s, a);
    NotBroken(Do(s, a), at');
  }

  lemma NotBroken(s: System, at: PI.Places)
    requires Glued(s, at)
    ensures !s.broken
  {
  }

  lemma {:induction false} PipelineRuns(s: System, at: PI.Places, steps: seq<Step>)
    requires Complete(s) && Glued(s, at) && IsRunOf(s, steps)
    ensures Pipeline.IsRun(s.net, NetActions(s, steps))
    ensures Pipeline.After(s.net, NetActions(s, steps)) == AfterAll(s, steps).net
    decreases |steps|
  {
    hide Glued, Pipeline.Step, Pipeline.Enabled, Enabled, PoolPart, After1;
    if steps != [] {
      var part := NetPart(s, steps[0]);
      DoIsComplete(s, steps[0]);
      var rest := NetActions(Do(s, steps[0]), steps[1..]);
      var at' := StepKeepsGlue(s, at, steps[0]);
      PipelineRuns(Do(s, steps[0]), at', steps[1..]);
      if part == [] {
        assert part + rest == rest;
      } else {
        PipelineFollows(s, at, steps[0]);
        assert (part + rest)[0] == part[0] && (part + rest)[1..] == rest;
      }
    }
  }

  lemma {:induction false} PoolRuns(s: System, steps: seq<Step>, p: PoolName)
    requires Complete(s) && IsRunOf(s, steps)
    ensures TP.IsRun(s.pools[p], PoolActions(s, steps, p))
    ensures TP.After(s.pools[p], PoolActions(s, steps, p)) == AfterAll(s, steps).pools[p]
    decreases |steps|
  {
    hide TP.Step, TP.Enabled, Enabled, NetPart, Pipeline.Step, Pipeline.Enabled, PoolPart;
    if steps != [] {
      var part := PoolPart(s, steps[0], p);
      DoIsComplete(s, steps[0]);
      var rest := PoolActions(Do(s, steps[0]), steps[1..], p);
      PoolRuns(Do(s, steps[0]), steps[1..], p);
      if part == [] {
        assert part + rest == rest;
      } else {
        PoolPartIsEnabled(s, steps[0], p);
        OneAtMost(s, steps[0], p);
        assert (part + rest)[0] == part[0] && (part + rest)[1..] == rest;
      }
    }
  }

  lemma {:induction false} RunKeepsGlue(s: System, at: PI.Places, steps: seq<Step>) returns (at': PI.Places)
    requires Complete(s) && Glued(s, at) && IsRunOf(s, steps)
    ensures Glued(AfterAll(s, steps), at')
    decreases |steps|
  {
    hide Glued, Enabled, Do;
    at' := at;
    if steps != [] {
      DoIsComplete(s, steps[0]);
      var next := StepKeepsGlue(s, at, steps[0]);
      at' := RunKeepsGlue(Do(s, steps[0]), next, steps[1..]);
    }
  }

  lemma StartIsComplete(kinds: seq<PoolName>)
    ensures Complete(Start(kinds))
  {
    forall p: PoolName
      ensures p in Start(kinds).pools
    {
      match p case ReadPool => case ParsePool => case WritePool =>
    }
  }

  lemma StartGlued(kinds: seq<PoolName>)
    ensures Glued(Start(kinds), map[])
  {
    hide PI.Inv;
    PL.StartInv(kinds);
    StartIsComplete(kinds);
    forall p: PoolName
      ensures p in Start(kinds).net.queues && Start(kinds).net.queues[p] == []
      ensures Start(kinds).pools[p] == TP.Start(|kinds| + 1)
    {
      match p case ReadPool => case ParsePool => case WritePool =>
    }
  }

  /** Over every interleaving of the pipeline's threads and of the lock steps of its
      three pools: each pool goes through a run of its own, and the pipeline through one
      of its own, so that all laws of both hold. The queues are the same; a worker has a
      job in the pipeline only while its pool thread has popped it or runs it, without
      the queue's mutex; and the jobs that were pushed are those taken, then those
      queued. */
  lemma PoolsServeThePipeline(kinds: seq<PoolName>, steps: seq<Step>)
    requires Complete(Start(kinds)) && IsRunOf(Start(kinds), steps)
    ensures var s := AfterAll(Start(kinds), steps);
            var net := NetActions(Start(kinds), steps);
            && Pipeline.IsRun(Pipeline.Start(kinds), net)
            && Pipeline.After(Pipeline.Start(kinds), net) == s.net
            && (forall p: PoolName ::
                 && TP.IsRun(TP.Start(|kinds| + 1), PoolActions(Start(kinds), steps, p))
                 && TP.After(TP.Start(|kinds| + 1), PoolActions(Start(kinds), steps, p)) == s.pools[p]
                 && p in s.net.queues && s.pools[p].queue == s.net.queues[p]
                 && s.pools[p].submitted == s.pools[p].taken + s.net.queues[p])
            && |s.kinds| == |s.net.workers|
            && (forall w | 0 <= w < |s.kinds| :: DeskFits(s, w))
            && !s.broken
  {
    hide IsRunOf, AfterAll, NetActions, PoolActions, DeskFits, PI.Inv, SubmitterFits, TP.IsRun, TP.After,
      Pipeline.IsRun, Pipeline.After;
    StartGlued(kinds);
    var at := RunKeepsGlue(Start(kinds), map[], steps);
    PipelineRuns(Start(kinds), map[], steps);
    forall p: PoolName
      ensures TP.IsRun(TP.Start(|kinds| + 1), PoolActions(Start(kinds), steps, p))
      ensures TP.After(TP.Start(|kinds| + 1), PoolActions(Start(kinds), steps, p))
           == AfterAll(Start(kinds), steps).pools[p]
      ensures var pool := AfterAll(Start(kinds), steps).pools[p]; pool.submitted == pool.taken + pool.queue
    {
      StartsEmpty(kinds, p);
      PoolRuns(Start(kinds), steps, p);
      TP.JobsAreConservedInOrder(|kinds| + 1, PoolActions(Start(kinds), steps, p));
    }
  }

  lemma StartsEmpty(kinds: seq<PoolName>, p: PoolName)
    ensures p in Start(kinds).pools && Start(kinds).pools[p] == TP.Start(|kinds| + 1)
  {
    match p case ReadPool => case ParsePool => case WritePool =>
  }
}

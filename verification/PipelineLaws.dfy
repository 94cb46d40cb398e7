/** What holds of the connection pipeline at every moment of every interleaving,
    for any number of workers in each pool. */
module PipelineLaws {
  import opened ByteStrings
  import opened RespObject
  import opened Commands
  import opened Connections
  import opened Pipeline
  import opened PipelineInvariant
  import RespSyntax

  // ---- all runs ----

  lemma EpollerNextKeepsInv(s: Server, at: Places) returns (at': Places)
    requires Inv(s, at) && Enabled(s, EpollerNext)
    ensures Inv(EpollerStep(s), at')
  {
    hide AcceptorPlaced, WaitingPlaced, EpollerPlaced, QueuesPlaced, WorkersPlaced, MapPlaced,
      StatesInOrder, SocketsOf, RefsBelow;
    at' := at;
    match s.epoller
    case Emptying => PollingKeepsInv(s, at, Arming, s.registered - s.epollSockets);
    case Arming => PollingKeepsInv(s, at, Polling, s.registered + s.epollSockets * s.open);
    case Harvesting(events) =>
      HarvestKeepsInv(s, at);
      at' := Harvested(at, events);
    case Dispatching(_) => NothingLeftKeepsInv(s, at);
    case FoundState(fd, ref, _) =>
      LockKeepsInv(s, at);
      at' := at[fd := Locked(ref)];
    case LockedState(fd, ref, _) =>
      DispatchKeepsInv(s, at);
      at' := at[fd := InQueue(ReadPool, ref)];
  }

  lemma NothingLeftKeepsInv(s: Server, at: Places)
    requires Inv(s, at) && s.epoller == Dispatching({})
    ensures Inv(s.(epoller := Emptying), at)
  {
    PollingKeepsInv(s, at, Emptying, s.registered);
  }

  lemma ContinueKeepsInv(s: Server, at: Places, w: nat) returns (at': Places)
    requires Inv(s, at) && Enabled(s, Continue(w))
    ensures Inv(ContinueStep(s, w), at')
  {
    hide Inv, SocketsOf, Answers;
    TaskFacts(s, at, w);
    var task := s.workers[w].task;
    var fd, ref := task.fd, task.ref;
    at' := at;
    match task.pc
    case ReadDone =>
      HandOnKeepsInv(s, at, w, ParsePool);
      at' := at[fd := InQueue(ParsePool, ref)];
    case ParseDone =>
      HandOnKeepsInv(s, at, w, WritePool);
      at' := at[fd := InQueue(WritePool, ref)];
    case WriteDone =>
      JobMovesKeepsInv(s, at, w, Requeueing, ResetConn(s.conns[ref]));
      at' := at[fd := AtWorker(w, ref, Requeueing)];
    case Requeueing =>
      RequeueKeepsInv(s, at, w);
      at' := at[fd := InEpoll];
    case Unlocking =>
      JobMovesKeepsInv(s, at, w, ErasingSocket, s.conns[ref].(token := false));
      at' := at[fd := AtWorker(w, ref, ErasingSocket)];
    case ErasingSocket =>
      EraseSocketKeepsInv(s, at, w);
      at' := at[fd := AtWorker(w, ref, ErasingEpoll)];
    case ErasingEpoll =>
      ForgetKeepsInv(s, at, w, ErasingProcessing, s.processingSockets);
      assert s.epollSockets - {fd} == s.epollSockets;
      at' := at[fd := AtWorker(w, ref, ErasingProcessing)];
    case ErasingProcessing =>
      ForgetKeepsInv(s, at, w, Closing, s.processingSockets - {fd});
      at' := at[fd := AtWorker(w, ref, Closing)];
    case Closing =>
      CloseKeepsInv(s, at, w);
      at' := at - {fd};
    case _ =>
  }

  lemma StepKeepsInv(s: Server, at: Places, a: Action) returns (at': Places)
    requires Inv(s, at) && Enabled(s, a)
    ensures Inv(Step(s, a), at')
  {
    hide AcceptorPlaced, WaitingPlaced, EpollerPlaced, QueuesPlaced, WorkersPlaced, MapPlaced,
      StatesInOrder, SocketsOf, RefsBelow, Answers;
    match a
    case Accept(fd) =>
      AcceptKeepsInv(s, at, fd);
      at' := at[fd := Accepted];
    case AcceptorNext =>
      if s.acceptor.JustAccepted? {
        MapSocketKeepsInv(s, at, s.acceptor.fd);
        at' := at[s.acceptor.fd := Mapped];
      } else {
        InsertSocketKeepsInv(s, at, s.acceptor.fd);
        at' := at[s.acceptor.fd := InEpoll];
      }
    case EpollReady(events) =>
      PollingKeepsInv(s, at, Harvesting(events), s.registered);
      at' := at;
    case EpollTimeout =>
      PollingKeepsInv(s, at, Emptying, s.registered);
      at' := at;
    case Choose(fd) =>
      ChooseKeepsInv(s, at, fd);
      at' := at[fd := Found(s.sockets[fd])];
    case EpollerNext => at' := EpollerNextKeepsInv(s, at);
    case StartJob(w) =>
      StartJobKeepsInv(s, at, w);
      var p := s.workers[w].pool;
      var ref := s.queues[p][0];
      at' := at[s.conns[ref].socket := AtWorker(w, ref, StartPc(p))];
    case Read(w, data, healthy) =>
      ReadKeepsInv(s, at, w, data, healthy);
      var task := ReadStep(s, w, data, healthy).workers[w].task;
      at' := at[task.fd := AtWorker(w, task.ref, task.pc)];
    case Execute(w, reply) =>
      var task := s.workers[w].task;
      ExecuteKeepsInv(s, at, w, s.conns[task.ref], reply);
      at' := at[task.fd := AtWorker(w, task.ref, ParseDone)];
    case Write(w, healthy) =>
      WriteKeepsInv(s, at, w, healthy);
      var task := WriteStep(s, w, healthy).workers[w].task;
      at' := at[task.fd := AtWorker(w, task.ref, task.pc)];
    case Continue(w) => at' := ContinueKeepsInv(s, at, w);
  }

  lemma {:induction false} RunKeepsInv(s: Server, at: Places, actions: seq<Action>) returns (at': Places)
    requires Inv(s, at) && IsRun(s, actions)
    ensures Inv(After(s, actions), at')
    decreases |actions|
  {
    hide Inv, Enabled, Step;
    at' := at;
    if actions != [] {
      var next := StepKeepsInv(s, at, actions[0]);
      at' := RunKeepsInv(Step(s, actions[0]), next, actions[1..]);
    }
  }

  lemma StartInv(pools: seq<PoolName>)
    ensures Inv(Start(pools), map[])
  {
    var queues := Start(pools).queues;
    forall p: PoolName
      ensures p in queues && queues[p] == []
    {
      match p case ReadPool => case ParsePool => case WritePool =>
    }
  }

  lemma InvOfRun(pools: seq<PoolName>, actions: seq<Action>) returns (at: Places)
    requires IsRun(Start(pools), actions)
    ensures Inv(After(Start(pools), actions), at)
  {
    StartInv(pools);
    at := RunKeepsInv(Start(pools), map[], actions);
  }

  // ---- one place ----

  /** The places in which a connection can be, read off the server itself. */
  datatype Location =
    | WithAcceptor
    | WaitingInEpoll
    | InReadySet
    | BeingDispatched
    | Queued(p: PoolName, k: nat)
    | HeldBy(w: nat)

  predicate LocatedAt(s: Server, fd: Fd, place: Location) {
    match place
    case WithAcceptor => s.acceptor == JustAccepted(fd) || s.acceptor == JustMapped(fd)
    case WaitingInEpoll => fd in s.epollSockets
    case InReadySet => fd in ReadyOf(s.epoller)
    case BeingDispatched => OfHands(s.epoller) && s.epoller.fd == fd
    case Queued(p, k) =>
      && p in s.queues && k < |s.queues[p]|
      && s.queues[p][k] in s.conns && s.conns[s.queues[p][k]].socket == fd
    case HeldBy(w) => w < |s.workers| && s.workers[w].task.Busy? && s.workers[w].task.fd == fd
  }

  /** What each location says about the map of places. */
  predicate Matches(st: Stage, place: Location) {
    match place
    case WithAcceptor => st.Accepted? || st.Mapped?
    case WaitingInEpoll => st.InEpoll?
    case InReadySet => st.InReady?
    case BeingDispatched => st.Found? || st.Locked?
    case Queued(p, _) => st.InQueue? && st.p == p
    case HeldBy(w) => st.AtWorker? && st.w == w
  }

  lemma LocationMatches(s: Server, at: Places, fd: Fd, place: Location)
    requires Inv(s, at) && LocatedAt(s, fd, place)
    ensures fd in at && Matches(at[fd], place)
    ensures place.Queued? ==> at[fd].ref == s.queues[place.p][place.k]
  {
    hide MapPlaced, StatesInOrder, RefsBelow, KernelInStep, Suits;
    if place.Queued? {
      assert EntryPlaced(place.p, s.queues[place.p][place.k], SocketsOf(s.conns), at);
    }
  }

  lemma LocationExists(s: Server, at: Places, fd: Fd) returns (place: Location)
    requires Inv(s, at) && fd in s.open
    ensures LocatedAt(s, fd, place)
  {
    hide MapPlaced, StatesInOrder, RefsBelow, KernelInStep, Suits;
    match at[fd]
    case Accepted => place := WithAcceptor;
    case Mapped => place := WithAcceptor;
    case InEpoll => place := WaitingInEpoll;
    case InReady => place := InReadySet;
    case Found(_) => place := BeingDispatched;
    case Locked(_) => place := BeingDispatched;
    case InQueue(p, ref) =>
      var k :| 0 <= k < |s.queues[p]| && s.queues[p][k] == ref;
      place := Queued(p, k);
    case AtWorker(w, _, _) => place := HeldBy(w);
  }

  lemma LocationIsUnique(s: Server, at: Places, fd: Fd, one: Location, other: Location)
    requires Inv(s, at) && LocatedAt(s, fd, one) && LocatedAt(s, fd, other)
    ensures one == other
  {
    hide MapPlaced, StatesInOrder, RefsBelow, KernelInStep, Suits, AcceptorPlaced,
      WaitingPlaced, EpollerPlaced, WorkersPlaced, SocketsOf;
    LocationMatches(s, at, fd, one);
    LocationMatches(s, at, fd, other);
    if one.Queued? && other.Queued? {
      assert AllDifferent(s.queues[one.p]);
    }
  }

  /** Every open connection is in exactly one place, and no closed one is anywhere:
      so no connection ever has two jobs, queued or running. */
  lemma ExactlyOnePlace(pools: seq<PoolName>, actions: seq<Action>, fd: Fd)
    requires IsRun(Start(pools), actions)
    ensures var s := After(Start(pools), actions);
            && (fd in s.open <==> exists p :: LocatedAt(s, fd, p))
            && (forall p, q | LocatedAt(s, fd, p) && LocatedAt(s, fd, q) :: p == q)
  {
    hide IsRun, After, LocatedAt, AcceptorPlaced, WaitingPlaced, EpollerPlaced, QueuesPlaced,
      WorkersPlaced, MapPlaced, StatesInOrder, RefsBelow, KernelInStep, SocketsOf;
    var at := InvOfRun(pools, actions);
    var s := After(Start(pools), actions);
    if fd in s.open {
      var p := LocationExists(s, at, fd);
    }
    forall p | LocatedAt(s, fd, p)
      ensures fd in s.open
    {
      LocationMatches(s, at, fd, p);
    }
    forall p, q | LocatedAt(s, fd, p) && LocatedAt(s, fd, q)
      ensures p == q
    {
      LocationIsUnique(s, at, fd, p, q);
    }
  }

  // ---- the mutex of a connection ----

  /** What holds of the mutexes: lookups always hit; a lock is always taken on a
      free mutex, of the connection's own state, so nobody blocks; an unlock always
      finds it locked; and the mutex is locked exactly from dispatch to release. */
  predicate TokensInOrder(s: Server) {
    && !s.assertFailed
    && (s.epoller.FoundState? ==>
         s.epoller.ref in s.conns && !s.conns[s.epoller.ref].token)
    && (s.epoller.LockedState? ==>
         s.epoller.ref in s.conns && s.conns[s.epoller.ref].token)
    && (forall p, k | p in s.queues && 0 <= k < |s.queues[p]| ::
         s.queues[p][k] in s.conns && s.conns[s.queues[p][k]].token)
    && (forall w | 0 <= w < |s.workers| && s.workers[w].task.Busy? :: TaskTokenInOrder(s, s.workers[w].task))
  }

  predicate TaskTokenInOrder(s: Server, task: Task)
    requires task.Busy?
  {
    && task.ref in s.conns
    && (task.pc.ErasingSocket? ==>
         task.fd in s.sockets && s.sockets[task.fd] == task.ref && !s.conns[task.ref].token)
    && (task.pc.Requeueing? ==> !s.conns[task.ref].token)
    && (BeforeErase(task.pc) && !task.pc.ErasingSocket? && !task.pc.Requeueing? ==>
         s.conns[task.ref].token)
  }

  /** In particular the two unlocks, of `reset` and of `close_and_cleanup`, are
      reached with the mutex locked, and the step after each has it unlocked. */
  lemma MutexIsAHandOffToken(pools: seq<PoolName>, actions: seq<Action>)
    requires IsRun(Start(pools), actions)
    ensures TokensInOrder(After(Start(pools), actions))
  {
    hide IsRun, After, AcceptorPlaced, WaitingPlaced, EpollerPlaced, WorkersPlaced,
      MapPlaced, StatesInOrder, RefsBelow, KernelInStep, ContentsAt;
    var at := InvOfRun(pools, actions);
    var s := After(Start(pools), actions);
    if OfHands(s.epoller) {
      HandFacts(s, at);
    }
    forall p, k | p in s.queues && 0 <= k < |s.queues[p]|
      ensures s.queues[p][k] in s.conns && s.conns[s.queues[p][k]].token
    {
      EntryFacts(s, at, p, k);
    }
    hide QueuesPlaced, SocketsOf, Inv;
    forall w | 0 <= w < |s.workers| && s.workers[w].task.Busy?
      ensures TaskTokenInOrder(s, s.workers[w].task)
    {
      TaskFacts(s, at, w);
    }
  }

  /** The mutex of a state is locked by one step only, the dispatch of its connection,
      and unlocked by two only, `reset` after a write and the first step of
      `close_and_cleanup`: between a dispatch and the next there is exactly one
      release, by whichever thread has the connection then. */
  lemma OneLockOneUnlock(pools: seq<PoolName>, actions: seq<Action>, a: Action, ref: Ref)
    requires IsRun(Start(pools), actions) && Enabled(After(Start(pools), actions), a)
    requires ref in After(Start(pools), actions).conns
    ensures var s := After(Start(pools), actions);
            var s' := Step(s, a);
            && ref in s'.conns
            && (!s.conns[ref].token && s'.conns[ref].token
                <==> a.EpollerNext? && s.epoller.FoundState? && s.epoller.ref == ref)
            && (s.conns[ref].token && !s'.conns[ref].token
                <==> a.Continue? && s.workers[a.w].task.ref == ref
                     && (s.workers[a.w].task.pc.WriteDone? || s.workers[a.w].task.pc.Unlocking?))
  {
    hide IsRun, After, Answers, ParsedCommand, Inv, WireBytes;
    MutexIsAHandOffToken(pools, actions);
    var s := After(Start(pools), actions);
    RefsAreFresh(pools, actions);
    if a.Continue? {
      assert TaskTokenInOrder(s, s.workers[a.w].task);
    }
  }

  lemma RefsAreFresh(pools: seq<PoolName>, actions: seq<Action>)
    requires IsRun(Start(pools), actions)
    ensures RefsBelow(After(Start(pools), actions).conns, After(Start(pools), actions).nextRef)
  {
    hide IsRun, After, AcceptorPlaced, WaitingPlaced, EpollerPlaced, QueuesPlaced, WorkersPlaced,
      MapPlaced, StatesInOrder, RefsBelow, KernelInStep, SocketsOf;
    var at := InvOfRun(pools, actions);
  }

  lemma EntryFacts(s: Server, at: Places, p: PoolName, k: nat)
    requires Inv(s, at) && p in s.queues && k < |s.queues[p]|
    ensures var ref := s.queues[p][k];
            ref in s.conns && InOrder(InQueue(p, ref), s.conns[ref])
  {
    hide AcceptorPlaced, WaitingPlaced, EpollerPlaced, WorkersPlaced, RefsBelow,
      KernelInStep, InOrder;
    assert EntryPlaced(p, s.queues[p][k], SocketsOf(s.conns), at);
  }

  ghost predicate WorkerCanMove(s: Server, w: nat)
    requires w < |s.workers|
  {
    if s.workers[w].task.Free? then
      s.workers[w].pool in s.queues && (s.queues[s.workers[w].pool] != [] ==> Enabled(s, StartJob(w)))
    else
      match s.workers[w].task.pc
      case ReadStart => forall data, healthy | NulFree(data) :: Enabled(s, Read(w, data, healthy))
      case ParseStart => exists reply :: Enabled(s, Execute(w, reply))
      case WriteStart => forall healthy :: Enabled(s, Write(w, healthy))
      case _ => Enabled(s, Continue(w))
  }

  ghost predicate EpollerCanMove(s: Server) {
    match s.epoller
    case Polling => Enabled(s, EpollTimeout)
    case Dispatching(ready) => ready != {} ==> exists fd :: Enabled(s, Choose(fd))
    case _ => Enabled(s, EpollerNext)
  }

  lemma WorkerIsNotStuck(s: Server, w: nat)
    requires w < |s.workers| && TokensInOrder(s)
    requires forall p: PoolName :: p in s.queues
    ensures WorkerCanMove(s, w)
  {
    hide Answers, NulFree;
    var task := s.workers[w].task;
    if task.Busy? {
      assert TaskTokenInOrder(s, task);
      if task.pc.ParseStart? {
        SomeAnswer(s.conns[task.ref].readData);
        var reply :| Answers(s.conns[task.ref].readData, reply);
        assert Enabled(s, Execute(w, reply));
      }
    }
  }

  lemma EpollerIsNotStuck(s: Server)
    requires TokensInOrder(s)
    requires forall p: PoolName :: p in s.queues
    ensures EpollerCanMove(s)
  {
    hide TaskTokenInOrder;
    if s.epoller.Dispatching? && s.epoller.ready != {} {
      var fd :| fd in s.epoller.ready;
      assert Enabled(s, Choose(fd));
    }
  }

  /** No thread is ever stuck: whatever the interleaving, each worker, the epoll
      thread and the accepting thread can take its next step; a free worker has one
      as soon as its queue has a job. */
  lemma NobodyIsStuck(pools: seq<PoolName>, actions: seq<Action>)
    requires IsRun(Start(pools), actions)
    ensures var s := After(Start(pools), actions);
            && (s.acceptor != Accepting ==> Enabled(s, AcceptorNext))
            && EpollerCanMove(s)
            && (forall w | 0 <= w < |s.workers| :: WorkerCanMove(s, w))
  {
    hide IsRun, After, AcceptorPlaced, WaitingPlaced, EpollerPlaced, WorkersPlaced, MapPlaced,
      StatesInOrder, RefsBelow, KernelInStep, SocketsOf, TokensInOrder,
      WorkerCanMove, EpollerCanMove;
    MutexIsAHandOffToken(pools, actions);
    var at := InvOfRun(pools, actions);
    var s := After(Start(pools), actions);
    assert forall p: PoolName :: p in s.queues;
    EpollerIsNotStuck(s);
    forall w | 0 <= w < |s.workers|
      ensures WorkerCanMove(s, w)
    {
      WorkerIsNotStuck(s, w);
    }
  }

  lemma SomeAnswer(batch: Bytes)
    ensures exists reply :: Answers(batch, reply)
  {
    hide RespSyntax.GetObject, KeysOf;
    var parsed := RespSyntax.GetObject(batch);
    if parsed.err != RespSyntax.SUCCESS {
      assert Answers(batch, ParseErrorReply(batch));
    } else {
      var command := parsed.value.value;
      var reply := match Classify(command)
                   case InvalidCommand => Reply(false, INVALID_COMMAND)
                   case GetCommand => Reply(false, NULL_BULK)
                   case SetCommand => Reply(false, STORED)
                   case DelCommand => Reply(false, Integer(0));
      assert Answers(batch, reply);
    }
  }

  // ---- the sockets that wait ----

  lemma WaitingFacts(epollSockets: set<Fd>, e: Epoller, sockets: map<Fd, Ref>, fdOf: map<Ref, Fd>, at: Places)
    requires WaitingPlaced(epollSockets, at) && EpollerPlaced(e, at) && MapPlaced(sockets, fdOf, at)
    ensures epollSockets <= sockets.Keys <= at.Keys
    ensures ReadyOf(e) !! epollSockets && ReadyOf(e) <= sockets.Keys
  {
    assert forall fd | fd in epollSockets :: At(at, fd, InEpoll);
    assert forall fd | fd in ReadyOf(e) :: At(at, fd, InReady);
  }

  /** What the kernel watches always waits, and what it reports is found there when
      the sockets are harvested, and in the map of all sockets: whatever was accepted
      or put back between arming, polling and harvesting. */
  lemma KernelWatchesOnlyWaitingSockets(pools: seq<PoolName>, actions: seq<Action>)
    requires IsRun(Start(pools), actions)
    ensures var s := After(Start(pools), actions);
            && s.registered <= s.epollSockets
            && s.epollSockets <= s.sockets.Keys
            && s.sockets.Keys <= s.open
            && (s.epoller.Harvesting? ==> s.epoller.events <= s.epollSockets && |s.epoller.events| <= 10)
            && (s.epoller.Arming? ==> s.registered == {})
            && (s.epoller.Dispatching? || OfHands(s.epoller) ==>
                 s.registered == {}
                 && s.epoller.ready !! s.epollSockets && s.epoller.ready <= s.sockets.Keys)
  {
    hide IsRun, After, AcceptorPlaced, WaitingPlaced, EpollerPlaced, QueuesPlaced, WorkersPlaced,
      MapPlaced, StatesInOrder, RefsBelow, SocketsOf;
    var at := InvOfRun(pools, actions);
    var s := After(Start(pools), actions);
    WaitingFacts(s.epollSockets, s.epoller, s.sockets, SocketsOf(s.conns), at);
  }

  // ---- what jobs find ----

  /** A read job starts from a clean state; a parse job has the bytes of one read and
      nothing else; a write job has an answer to those bytes, and neither the special
      error nor the default one. */
  lemma JobsFindWhatTheyNeed(pools: seq<PoolName>, actions: seq<Action>)
    requires IsRun(Start(pools), actions)
    ensures var s := After(Start(pools), actions);
            forall w | 0 <= w < |s.workers| && s.workers[w].task.Busy? ::
              s.workers[w].task.ref in s.conns
              && ContentsAtPc(s.workers[w].task.pc, s.conns[s.workers[w].task.ref])
  {
    hide IsRun, After, AcceptorPlaced, WaitingPlaced, EpollerPlaced, QueuesPlaced, WorkersPlaced,
      MapPlaced, StatesInOrder, RefsBelow, KernelInStep, SocketsOf, HasAnswer, HasBatch, Clean;
    var at := InvOfRun(pools, actions);
    var s := After(Start(pools), actions);
    forall w | 0 <= w < |s.workers| && s.workers[w].task.Busy?
      ensures s.workers[w].task.ref in s.conns
      ensures ContentsAtPc(s.workers[w].task.pc, s.conns[s.workers[w].task.ref])
    {
      TaskFacts(s, at, w);
    }
  }

  // ---- a step moves one worker at most ----

  predicate OfWorker(a: Action) { a.Read? || a.Execute? || a.Write? || a.Continue? }

  lemma ContinueMovesOne(s: Server, w: nat)
    requires Enabled(s, Continue(w))
    ensures w < |s.workers| == |ContinueStep(s, w).workers| && s.workers[w].task.Busy?
    ensures var worker' := ContinueStep(s, w).workers[w];
            && ContinueStep(s, w).workers == s.workers[w := worker']
            && worker'.pool == s.workers[w].pool
            && (worker'.task.Busy? ==> worker'.task.ref == s.workers[w].task.ref)
  {
    hide ResetConn;
  }

  lemma JobMovesOne(s: Server, a: Action)
    requires Enabled(s, a) && (a.Read? || a.Execute? || a.Write? || a.StartJob?)
    ensures a.w < |s.workers| == |Step(s, a).workers|
    ensures var worker' := Step(s, a).workers[a.w];
            && Step(s, a).workers == s.workers[a.w := worker']
            && worker'.pool == s.workers[a.w].pool
            && (a.StartJob? <==> s.workers[a.w].task.Free?)
            && (!a.StartJob? && worker'.task.Busy? ==> worker'.task.ref == s.workers[a.w].task.ref)
  {
    hide Answers, Record, ParsedCommand, WireBytes, AcceptorStep, EpollerStep, ChooseStep, ContinueStep;
  }

  lemma OneWorkerMoves(s: Server, a: Action)
    requires Enabled(s, a)
    ensures |Step(s, a).workers| == |s.workers|
    ensures if OfWorker(a) || a.StartJob? then
              && a.w < |s.workers|
              && Step(s, a).workers == s.workers[a.w := Step(s, a).workers[a.w]]
              && Step(s, a).workers[a.w].pool == s.workers[a.w].pool
              && (OfWorker(a) ==> s.workers[a.w].task.Busy?)
              && (OfWorker(a) && Step(s, a).workers[a.w].task.Busy? ==>
                   Step(s, a).workers[a.w].task.ref == s.workers[a.w].task.ref)
            else Step(s, a).workers == s.workers
  {
    if a.Continue? {
      hide Enabled, ContinueStep;
      ContinueMovesOne(s, a.w);
    } else if OfWorker(a) || a.StartJob? {
      hide Enabled, Step;
      JobMovesOne(s, a);
    } else {
      hide Enabled, ReadStep, ExecuteStep, WriteStep, ContinueStep, StartStep;
    }
  }

  /** A step changes one state at most: that of the job in hand, or the one whose mutex
      the epoll thread locks. */
  lemma OneStateMoves(s: Server, a: Action)
    requires Enabled(s, a) && s.nextRef !in s.conns
    ensures var s' := Step(s, a);
            forall ref | ref in s.conns ::
              && ref in s'.conns
              && (s'.conns[ref] != s.conns[ref] ==>
                   || (OfWorker(a) && s.workers[a.w].task.ref == ref)
                   || (a.EpollerNext? && s.epoller.FoundState? && s.epoller.ref == ref
                       && s'.conns[ref] == s.conns[ref].(token := true)))
  {
    if OfWorker(a) {
      hide AcceptorStep, EpollerStep, ChooseStep, StartStep, Answers, Record, ParsedCommand, WireBytes, ResetConn;
    } else if a.EpollerNext? {
      hide AcceptorStep, ChooseStep, StartStep, ReadStep, ExecuteStep, WriteStep, ContinueStep;
    } else {
      hide EpollerStep, ReadStep, ExecuteStep, WriteStep, ContinueStep;
    }
  }

  // ---- states are in different hands ----

  lemma DifferentRefs(s: Server, at: Places, w: nat, v: nat)
    requires Inv(s, at) && w != v
    requires w < |s.workers| && v < |s.workers|
    requires s.workers[w].task.Busy? && s.workers[v].task.Busy?
    ensures s.workers[w].task.ref != s.workers[v].task.ref
  {
    hide Inv;
    TaskFacts(s, at, w);
    TaskFacts(s, at, v);
  }

  lemma QueuedIsNotHeld(s: Server, at: Places, p: PoolName, k: nat, w: nat)
    requires Inv(s, at) && p in s.queues && k < |s.queues[p]|
    requires w < |s.workers| && s.workers[w].task.Busy?
    ensures s.queues[p][k] != s.workers[w].task.ref
  {
    hide AcceptorPlaced, WaitingPlaced, EpollerPlaced, WorkersPlaced, RefsBelow, KernelInStep, InOrder,
      MapPlaced, StatesInOrder;
    assert EntryPlaced(p, s.queues[p][k], SocketsOf(s.conns), at);
    hide QueuesPlaced, SocketsOf;
    TaskFacts(s, at, w);
  }

  // ---- the order of locks ----

  datatype Lock = AllSockets | StateMutex | EpollSockets | ProcessingSockets | StoreMutex | QueueMutex

  /** The stated hierarchy, extended to the locks it leaves out. */
  function Level(l: Lock): nat {
    match l
    case AllSockets => 1
    case StateMutex => 2
    case EpollSockets => 3
    case ProcessingSockets => 4
    case StoreMutex => 5
    case QueueMutex => 6
  }

  /** The locks that a step takes, each while it holds the ones before. */
  function LocksTaken(s: Server, a: Action): seq<Lock>
    requires Enabled(s, a)
  {
    match a
    case AcceptorNext => if s.acceptor.JustAccepted? then [AllSockets] else [EpollSockets]
    case EpollerNext =>
      (match s.epoller
       case Emptying => [EpollSockets]
       case Arming => [EpollSockets]
       case Harvesting(events) =>
         [AllSockets, EpollSockets] + if events == {} then [] else [ProcessingSockets]
       case FoundState(_, _, _) => [StateMutex]
       case LockedState(_, _, _) => [QueueMutex]
       case _ => [])
    case StartJob(_) => [QueueMutex]
    case Execute(_, _) => [StoreMutex]
    case Continue(w) =>
      (match s.workers[w].task.pc
       case ReadDone => [QueueMutex]
       case ParseDone => [QueueMutex]
       case Requeueing => [EpollSockets]
       case ErasingSocket => [AllSockets, StateMutex]
       case ErasingEpoll => [EpollSockets]
       case ErasingProcessing => [ProcessingSockets]
       case _ => [])
    case _ => []
  }

  /** The locks held already: the connection's mutex, by the thread that has the
      connection in hand. */
  function LocksHeld(s: Server, a: Action): seq<Lock>
    requires Enabled(s, a)
  {
    if a.EpollerNext? then if s.epoller.LockedState? then [StateMutex] else []
    else if a.Read? || a.Execute? || a.Write? || a.Continue? then
      if s.conns[s.workers[a.w].task.ref].token then [StateMutex] else []
    else []
  }

  predicate Ascending(locks: seq<Lock>) {
    forall i, j | 0 <= i < j < |locks| :: Level(locks[i]) < Level(locks[j])
  }

  /** Every lock is taken above all that the thread holds, so there is no cycle of
      threads that wait for each other. */
  lemma LocksAreTakenInOrder(pools: seq<PoolName>, actions: seq<Action>, a: Action)
    requires IsRun(Start(pools), actions) && Enabled(After(Start(pools), actions), a)
    ensures var s := After(Start(pools), actions);
            Ascending(LocksHeld(s, a) + LocksTaken(s, a))
  {
    hide IsRun, After, Answers;
    MutexIsAHandOffToken(pools, actions);
    var s := After(Start(pools), actions);
    if a.Continue? {
      assert TaskTokenInOrder(s, s.workers[a.w].task);
    }
  }


  /** What a step changes, it changes under the lock for it: the table of locks leaves
      none out. (The kernel itself guards the set of sockets it watches, and forgets a
      socket when it is closed.) */
  lemma ChangesAreLocked(pools: seq<PoolName>, actions: seq<Action>, a: Action)
    requires IsRun(Start(pools), actions) && Enabled(After(Start(pools), actions), a)
    ensures var s := After(Start(pools), actions);
            SetsAreLocked(s, a) && StatesAreLocked(s, a)
  {
    hide IsRun, After, Enabled, Inv, SetsAreLocked, StatesAreLocked, TokensInOrder;
    MutexIsAHandOffToken(pools, actions);
    RefsAreFresh(pools, actions);
    SetsChangeLocked(After(Start(pools), actions), a);
    StatesChangeLocked(After(Start(pools), actions), a);
  }

  predicate SetsAreLocked(s: Server, a: Action)
    requires Enabled(s, a)
  {
    var s', taken := Step(s, a), LocksTaken(s, a);
    && (s'.sockets != s.sockets ==> AllSockets in taken)
    && (s'.epollSockets != s.epollSockets ==> EpollSockets in taken)
    && (s'.registered != s.registered && !a.Continue? ==> EpollSockets in taken)
    && (s'.processingSockets != s.processingSockets ==> ProcessingSockets in taken)
    && (s'.queues != s.queues ==> QueueMutex in taken)
  }

  predicate StatesAreLocked(s: Server, a: Action)
    requires Enabled(s, a)
  {
    forall ref | ref in s.conns && ref in Step(s, a).conns && Step(s, a).conns[ref] != s.conns[ref] ::
      StateMutex in LocksHeld(s, a) + LocksTaken(s, a)
  }

  lemma SetsChangeLocked(s: Server, a: Action)
    requires Enabled(s, a)
    ensures SetsAreLocked(s, a)
  {
    hide SetsAreLocked, Enabled, Step;
    if a.Continue? {
      ContinueChangesLocked(s, a);
    } else if a.EpollerNext? {
      EpollerChangesLocked(s, a);
    } else {
      OthersChangeLocked(s, a);
    }
  }

  lemma ContinueChangesLocked(s: Server, a: Action)
    requires Enabled(s, a) && a.Continue?
    ensures SetsAreLocked(s, a)
  {
    hide AcceptorStep, EpollerStep, ChooseStep, StartStep, ReadStep, ExecuteStep, WriteStep, ResetConn;
  }

  lemma EpollerChangesLocked(s: Server, a: Action)
    requires Enabled(s, a) && a.EpollerNext?
    ensures SetsAreLocked(s, a)
  {
    hide AcceptorStep, ChooseStep, StartStep, ReadStep, ExecuteStep, WriteStep, ContinueStep;
  }

  lemma OthersChangeLocked(s: Server, a: Action)
    requires Enabled(s, a) && !a.EpollerNext? && !a.Continue?
    ensures SetsAreLocked(s, a)
  {
    hide EpollerStep, ContinueStep, Answers, Record, ParsedCommand, WireBytes;
  }

  lemma StatesChangeLocked(s: Server, a: Action)
    requires Enabled(s, a) && TokensInOrder(s) && s.nextRef !in s.conns
    ensures StatesAreLocked(s, a)
  {
    OneStateMoves(s, a);
    if OfWorker(a) {
      OneWorkerMoves(s, a);
      TaskLock(s, a.w);
      QuietWithoutMutex(s, a);
    }
    hide Step;
  }

  /** A job whose state is not locked leaves it alone. */
  lemma QuietWithoutMutex(s: Server, a: Action)
    requires Enabled(s, a) && OfWorker(a)
    requires s.workers[a.w].task.Busy? && TaskTokenInOrder(s, s.workers[a.w].task)
    ensures !s.conns[s.workers[a.w].task.ref].token ==> Step(s, a).conns == s.conns
  {
    hide Answers, Record, ParsedCommand, WireBytes, ResetConn;
  }

  lemma TaskLock(s: Server, w: nat)
    requires TokensInOrder(s) && w < |s.workers| && s.workers[w].task.Busy?
    ensures TaskTokenInOrder(s, s.workers[w].task)
  {
  }

  /** A thread in the middle of a step: it holds what it held before the step and the
      first `taken` locks of the step, and wants the next. */
  datatype Waiter = Waiter(a: Action, taken: nat)

  predicate Waits(s: Server, t: Waiter) {
    Enabled(s, t.a) && t.taken < |LocksTaken(s, t.a)|
  }

  function Wants(s: Server, t: Waiter): Lock
    requires Waits(s, t)
  {
    LocksTaken(s, t.a)[t.taken]
  }

  function Has(s: Server, t: Waiter): seq<Lock>
    requires Waits(s, t)
  {
    LocksHeld(s, t.a) + LocksTaken(s, t.a)[..t.taken]
  }

  lemma WantsAboveAllItHas(pools: seq<PoolName>, actions: seq<Action>, t: Waiter, l: Lock)
    requires IsRun(Start(pools), actions)
    requires Waits(After(Start(pools), actions), t) && l in Has(After(Start(pools), actions), t)
    ensures Level(l) < Level(Wants(After(Start(pools), actions), t))
  {
    hide IsRun, After, LocksHeld, LocksTaken, Enabled, Level;
    var s := After(Start(pools), actions);
    LocksAreTakenInOrder(pools, actions, t.a);
    var i :| 0 <= i < |Has(s, t)| && Has(s, t)[i] == l;
    var all := LocksHeld(s, t.a) + LocksTaken(s, t.a);
    assert all[i] == l && all[|LocksHeld(s, t.a)| + t.taken] == Wants(s, t);
  }

  function Next(ring: seq<Waiter>, i: nat): nat
    requires i < |ring|
  {
    if i + 1 < |ring| then i + 1 else 0
  }

  /** There is no ring of threads in which each wants a lock that the next one has,
      even if all locks of one kind are taken for one lock. */
  lemma NoRingOfWaiters(pools: seq<PoolName>, actions: seq<Action>, ring: seq<Waiter>)
    requires IsRun(Start(pools), actions) && ring != []
    requires forall i | 0 <= i < |ring| :: Waits(After(Start(pools), actions), ring[i])
    ensures var s := After(Start(pools), actions);
            exists i :: 0 <= i < |ring| && Wants(s, ring[i]) !in Has(s, ring[Next(ring, i)])
  {
    hide IsRun, After, Waits, Wants, Has, Level;
    var s := After(Start(pools), actions);
    if forall i | 0 <= i < |ring| :: Wants(s, ring[i]) in Has(s, ring[Next(ring, i)]) {
      assert forall i | 0 <= i < |ring| - 1 :: Next(ring, i) == i + 1;
      assert Next(ring, |ring| - 1) == 0;
      LevelsClimb(pools, actions, ring, |ring| - 1);
      WantsAboveAllItHas(pools, actions, ring[0], Wants(s, ring[|ring| - 1]));
      assert false;
    }
  }

  lemma {:induction false} LevelsClimb(pools: seq<PoolName>, actions: seq<Action>, ring: seq<Waiter>, k: nat)
    requires IsRun(Start(pools), actions) && k < |ring|
    requires forall i | 0 <= i < |ring| :: Waits(After(Start(pools), actions), ring[i])
    requires var s := After(Start(pools), actions);
             forall i | 0 <= i < |ring| - 1 :: Wants(s, ring[i]) in Has(s, ring[i + 1])
    ensures var s := After(Start(pools), actions);
            Level(Wants(s, ring[0])) <= Level(Wants(s, ring[k]))
  {
    hide IsRun, After, Waits, Wants, Has, Level;
    if k > 0 {
      LevelsClimb(pools, actions, ring, k - 1);
      WantsAboveAllItHas(pools, actions, ring[k], Wants(After(Start(pools), actions), ring[k - 1]));
    }
  }
}

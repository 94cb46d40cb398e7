/** What every step of the pipeline keeps. The invariant speaks of a map from each
    open socket to the one place that has it in hand; the map is found again after
    every step, it is not part of the server. */
module PipelineInvariant {
  import opened ByteStrings
  import opened RespObject
  import opened Commands
  import opened Connections
  import opened Pipeline

  datatype Stage =
    | Accepted | Mapped
    | InEpoll | InReady | Found(ref: Ref) | Locked(ref: Ref)
    | InQueue(p: PoolName, ref: Ref)
    | AtWorker(w: nat, ref: Ref, pc: Pc)

  type Places = map<Fd, Stage>

  predicate HasRef(st: Stage) { st.Found? || st.Locked? || st.InQueue? || st.AtWorker? }

  /** The steps of a job before `m_all_sockets` loses the socket. */
  predicate BeforeErase(pc: Pc) { !pc.ErasingEpoll? && !pc.ErasingProcessing? && !pc.Closing? }

  predicate InMap(st: Stage) { !st.Accepted? && (st.AtWorker? ==> BeforeErase(st.pc)) }

  /** The places in which a connection's mutex is locked. */
  predicate TokenHeld(st: Stage) {
    || st.Locked?
    || st.InQueue?
    || (st.AtWorker? && BeforeErase(st.pc) && !st.pc.Requeueing? && !st.pc.ErasingSocket?)
  }

  predicate Suits(p: PoolName, pc: Pc) {
    match pc
    case ReadStart => p == ReadPool
    case ReadDone => p == ReadPool
    case ParseStart => p == ParsePool
    case ParseDone => p == ParsePool
    case WriteStart => p == WritePool
    case WriteDone => p == WritePool
    case Requeueing => p == WritePool
    case _ => p != ParsePool
  }

  // ---- the contents of a state ----

  predicate HasBatch(c: Conn) {
    c.readData != [] && NulFree(c.readData) && Clean(c.(readData := []))
  }

  predicate HasAnswer(c: Conn) {
    && c.special == [] && c.response.Some? && Answers(c.readData, Reply(c.isError, c.response.value))
    && c.command == ParsedCommand(c.readData)
  }

  predicate ContentsAtPc(pc: Pc, c: Conn) {
    match pc
    case ReadStart => Clean(c)
    case Requeueing => Clean(c)
    case ReadDone => HasBatch(c)
    case ParseStart => HasBatch(c)
    case ParseDone => HasAnswer(c)
    case WriteStart => HasAnswer(c)
    case WriteDone => HasAnswer(c) && !c.isError
    case _ => true
  }

  predicate ContentsAt(st: Stage, c: Conn) {
    match st
    case InQueue(p, _) => ContentsAtPc(StartPc(p), c)
    case AtWorker(_, _, pc) => ContentsAtPc(pc, c)
    case _ => Clean(c)
  }

  predicate InOrder(st: Stage, c: Conn) {
    (c.token <==> TokenHeld(st)) && ContentsAt(st, c)
  }

  // ---- the parts of the invariant, each about one structure ----

  predicate At(at: Places, fd: Fd, st: Stage) { fd in at && at[fd] == st }

  predicate AcceptorPlaced(a: Acceptor, at: Places) {
    && (a.JustAccepted? ==> At(at, a.fd, Accepted))
    && (a.JustMapped? ==> At(at, a.fd, Mapped))
    && (forall fd | fd in at && at[fd].Accepted? :: a == JustAccepted(fd))
    && (forall fd | fd in at && at[fd].Mapped? :: a == JustMapped(fd))
  }

  predicate WaitingPlaced(epollSockets: set<Fd>, at: Places) {
    && (forall fd | fd in epollSockets :: At(at, fd, InEpoll))
    && (forall fd | fd in at && at[fd].InEpoll? :: fd in epollSockets)
  }

  function ReadyOf(e: Epoller): set<Fd> {
    if e.Dispatching? || e.FoundState? || e.LockedState? then e.ready else {}
  }

  predicate EpollerPlaced(e: Epoller, at: Places) {
    && (forall fd | fd in ReadyOf(e) :: At(at, fd, InReady))
    && (e.FoundState? ==> At(at, e.fd, Found(e.ref)))
    && (e.LockedState? ==> At(at, e.fd, Locked(e.ref)))
    && (forall fd | fd in at && at[fd].InReady? :: fd in ReadyOf(e))
    && (forall fd | fd in at && at[fd].Found? :: e.FoundState? && e.fd == fd && e.ref == at[fd].ref)
    && (forall fd | fd in at && at[fd].Locked? :: e.LockedState? && e.fd == fd && e.ref == at[fd].ref)
  }

  /** The sockets that states belong to; they never change. */
  function SocketsOf(conns: map<Ref, Conn>): map<Ref, Fd> {
    map ref | ref in conns :: conns[ref].socket
  }

  predicate EntryPlaced(p: PoolName, ref: Ref, fdOf: map<Ref, Fd>, at: Places) {
    ref in fdOf && At(at, fdOf[ref], InQueue(p, ref))
  }

  predicate AllDifferent(q: seq<Ref>) {
    forall k, l | 0 <= k < l < |q| :: q[k] != q[l]
  }

  ghost predicate QueuesPlaced(queues: map<PoolName, seq<Ref>>, fdOf: map<Ref, Fd>, at: Places) {
    && (forall p: PoolName :: p in queues)
    && (forall p | p in queues :: AllDifferent(queues[p]))
    && (forall p, k | p in queues && 0 <= k < |queues[p]| :: EntryPlaced(p, queues[p][k], fdOf, at))
    && (forall fd | fd in at && at[fd].InQueue? ::
         && at[fd].ref in fdOf && fdOf[at[fd].ref] == fd
         && at[fd].p in queues && at[fd].ref in queues[at[fd].p])
  }

  predicate WorkersPlaced(workers: seq<Worker>, at: Places) {
    && (forall w | 0 <= w < |workers| && workers[w].task.Busy? ::
         var task := workers[w].task;
         At(at, task.fd, AtWorker(w, task.ref, task.pc)) && Suits(workers[w].pool, task.pc))
    && (forall fd | fd in at && at[fd].AtWorker? ::
         at[fd].w < |workers| && workers[at[fd].w].task == Busy(fd, at[fd].ref, at[fd].pc))
  }

  predicate MapPlaced(sockets: map<Fd, Ref>, fdOf: map<Ref, Fd>, at: Places) {
    && (forall fd | fd in sockets ::
         fd in at && InMap(at[fd]) && sockets[fd] in fdOf && fdOf[sockets[fd]] == fd)
    && (forall fd | fd in at && InMap(at[fd]) :: fd in sockets)
    && (forall fd | fd in at && HasRef(at[fd]) ::
         && at[fd].ref in fdOf && fdOf[at[fd].ref] == fd
         && (InMap(at[fd]) ==> fd in sockets && sockets[fd] == at[fd].ref))
  }

  predicate StatesInOrder(sockets: map<Fd, Ref>, conns: map<Ref, Conn>, at: Places) {
    forall fd | fd in sockets ::
      fd in at && sockets[fd] in conns && InOrder(at[fd], conns[sockets[fd]])
  }

  predicate RefsBelow(conns: map<Ref, Conn>, nextRef: Ref) {
    forall ref | ref in conns :: ref < nextRef
  }

  predicate KernelInStep(registered: set<Fd>, epollSockets: set<Fd>, e: Epoller) {
    && registered <= epollSockets
    && (e.Harvesting? ==> e.events <= epollSockets && |e.events| <= 10)
    && (e.Arming? || e.Dispatching? || OfHands(e) ==> registered == {})
  }

  ghost predicate Inv(s: Server, at: Places) {
    && at.Keys == s.open
    && AcceptorPlaced(s.acceptor, at)
    && WaitingPlaced(s.epollSockets, at)
    && EpollerPlaced(s.epoller, at)
    && QueuesPlaced(s.queues, SocketsOf(s.conns), at)
    && WorkersPlaced(s.workers, at)
    && MapPlaced(s.sockets, SocketsOf(s.conns), at)
    && StatesInOrder(s.sockets, s.conns, at)
    && RefsBelow(s.conns, s.nextRef)
    && KernelInStep(s.registered, s.epollSockets, s.epoller)
    && !s.assertFailed
  }

  // ---- frames: a structure is untouched by moves between other places ----

  predicate OfAcceptor(st: Stage) { st.Accepted? || st.Mapped? }
  predicate OfEpoller(st: Stage) { st.InReady? || st.Found? || st.Locked? }

  /** `at` and `at'` agree on the sockets in the places that `kind` describes. */
  predicate Agree(at: Places, at': Places, kind: Stage -> bool) {
    && (forall fd | fd in at && kind(at[fd]) :: At(at', fd, at[fd]))
    && (forall fd | fd in at' && kind(at'[fd]) :: At(at, fd, at'[fd]))
  }

  lemma AcceptorFrame(a: Acceptor, at: Places, at': Places)
    requires AcceptorPlaced(a, at) && Agree(at, at', OfAcceptor)
    ensures AcceptorPlaced(a, at')
  {
    assert forall fd | fd in at' && at'[fd].Accepted? :: OfAcceptor(at'[fd]);
    assert forall fd | fd in at' && at'[fd].Mapped? :: OfAcceptor(at'[fd]);
  }

  lemma WaitingFrame(epollSockets: set<Fd>, at: Places, at': Places)
    requires WaitingPlaced(epollSockets, at) && Agree(at, at', (st: Stage) => st.InEpoll?)
    ensures WaitingPlaced(epollSockets, at')
  {
  }

  lemma EpollerFrame(e: Epoller, at: Places, at': Places)
    requires EpollerPlaced(e, at) && Agree(at, at', OfEpoller)
    ensures EpollerPlaced(e, at')
  {
    assert forall fd | fd in at' && at'[fd].InReady? :: OfEpoller(at'[fd]);
    assert forall fd | fd in at' && at'[fd].Found? :: OfEpoller(at'[fd]);
    assert forall fd | fd in at' && at'[fd].Locked? :: OfEpoller(at'[fd]);
  }

  lemma QueuesFrame(queues: map<PoolName, seq<Ref>>, fdOf: map<Ref, Fd>, at: Places, at': Places)
    requires QueuesPlaced(queues, fdOf, at) && Agree(at, at', (st: Stage) => st.InQueue?)
    ensures QueuesPlaced(queues, fdOf, at')
  {
    forall p, k | p in queues && 0 <= k < |queues[p]|
      ensures EntryPlaced(p, queues[p][k], fdOf, at')
    {
      assert EntryPlaced(p, queues[p][k], fdOf, at);
    }
  }

  lemma WorkersFrame(workers: seq<Worker>, at: Places, at': Places)
    requires WorkersPlaced(workers, at) && Agree(at, at', (st: Stage) => st.AtWorker?)
    ensures WorkersPlaced(workers, at')
  {
    hide Suits;
  }

  /** The move of one socket leaves alone every structure that neither has it
      before nor gets it. */
  lemma MoveFrame(s: Server, at: Places, fd: Fd, st: Stage)
    requires Inv(s, at)
    ensures var at' := at[fd := st];
            && (!OfAcceptor(st) && (fd in at ==> !OfAcceptor(at[fd])) ==> AcceptorPlaced(s.acceptor, at'))
            && (!st.InEpoll? && (fd in at ==> !at[fd].InEpoll?) ==> WaitingPlaced(s.epollSockets, at'))
            && (!OfEpoller(st) && (fd in at ==> !OfEpoller(at[fd])) ==> EpollerPlaced(s.epoller, at'))
            && (!st.InQueue? && (fd in at ==> !at[fd].InQueue?) ==>
                 QueuesPlaced(s.queues, SocketsOf(s.conns), at'))
            && (!st.AtWorker? && (fd in at ==> !at[fd].AtWorker?) ==> WorkersPlaced(s.workers, at'))
  {
    hide AcceptorPlaced, WaitingPlaced, EpollerPlaced, QueuesPlaced, WorkersPlaced, MapPlaced,
      StatesInOrder, SocketsOf, RefsBelow, KernelInStep;
    var at' := at[fd := st];
    if !OfAcceptor(st) && (fd in at ==> !OfAcceptor(at[fd])) {
      AcceptorFrame(s.acceptor, at, at');
    }
    if !st.InEpoll? && (fd in at ==> !at[fd].InEpoll?) {
      WaitingFrame(s.epollSockets, at, at');
    }
    if !OfEpoller(st) && (fd in at ==> !OfEpoller(at[fd])) {
      EpollerFrame(s.epoller, at, at');
    }
    if !st.InQueue? && (fd in at ==> !at[fd].InQueue?) {
      QueuesFrame(s.queues, SocketsOf(s.conns), at, at');
    }
    if !st.AtWorker? && (fd in at ==> !at[fd].AtWorker?) {
      WorkersFrame(s.workers, at, at');
    }
  }

  /** A socket moves to a place in which it is in the map with the same state. */
  lemma MapFrame(sockets: map<Fd, Ref>, fdOf: map<Ref, Fd>, at: Places, fd: Fd, st: Stage)
    requires MapPlaced(sockets, fdOf, at)
    requires fd in sockets && InMap(st) && (HasRef(st) ==> st.ref == sockets[fd])
    ensures MapPlaced(sockets, fdOf, at[fd := st])
  {
    hide InMap;
  }

  /** A socket that is not in the map moves to a place in which it is not either. */
  lemma MapFrameOutside(sockets: map<Fd, Ref>, fdOf: map<Ref, Fd>, at: Places, fd: Fd, st: Stage)
    requires MapPlaced(sockets, fdOf, at)
    requires fd !in sockets && !InMap(st)
    requires HasRef(st) ==> fd in at && HasRef(at[fd]) && at[fd].ref == st.ref
    ensures MapPlaced(sockets, fdOf, at[fd := st])
  {
    hide InMap;
  }

  /** A socket moves, and its state changes with it. */
  lemma StatesUpdate(sockets: map<Fd, Ref>, conns: map<Ref, Conn>, at: Places, fd: Fd, st: Stage, c: Conn)
    requires MapPlaced(sockets, SocketsOf(conns), at) && StatesInOrder(sockets, conns, at)
    requires fd in sockets && c.socket == fd && InOrder(st, c)
    ensures StatesInOrder(sockets, conns[sockets[fd] := c], at[fd := st])
    ensures SocketsOf(conns[sockets[fd] := c]) == SocketsOf(conns)
  {
    hide InOrder, InMap;
    var conns' := conns[sockets[fd] := c];
    assert SocketsOf(conns') == SocketsOf(conns);
    forall other | other in sockets
      ensures var at' := at[fd := st];
              other in at' && sockets[other] in conns' && InOrder(at'[other], conns'[sockets[other]])
    {
      if other != fd {
        assert SocketsOf(conns)[sockets[other]] == other;
      }
    }
  }

  /** A socket moves, and its state stays as it is. */
  lemma StatesFrame(sockets: map<Fd, Ref>, conns: map<Ref, Conn>, at: Places, fd: Fd, st: Stage)
    requires StatesInOrder(sockets, conns, at)
    requires fd in sockets ==> InOrder(st, conns[sockets[fd]])
    ensures StatesInOrder(sockets, conns, at[fd := st])
  {
    hide InOrder;
  }

  // ---- changes of one structure ----

  lemma EpollerChooses(ready: set<Fd>, at: Places, fd: Fd, ref: Ref)
    requires EpollerPlaced(Dispatching(ready), at) && fd in ready
    ensures At(at, fd, InReady)
    ensures EpollerPlaced(FoundState(fd, ref, ready - {fd}), at[fd := Found(ref)])
  {
  }

  lemma EpollerLocks(fd: Fd, ref: Ref, ready: set<Fd>, at: Places)
    requires EpollerPlaced(FoundState(fd, ref, ready), at)
    ensures EpollerPlaced(LockedState(fd, ref, ready), at[fd := Locked(ref)])
  {
    assert ReadyOf(FoundState(fd, ref, ready)) == ready == ReadyOf(LockedState(fd, ref, ready));
    assert At(at, fd, Found(ref));
  }

  lemma EpollerHandsOn(fd: Fd, ref: Ref, ready: set<Fd>, at: Places, st: Stage)
    requires EpollerPlaced(LockedState(fd, ref, ready), at) && !OfEpoller(st)
    ensures EpollerPlaced(Dispatching(ready), at[fd := st])
  {
    assert ReadyOf(LockedState(fd, ref, ready)) == ready == ReadyOf(Dispatching(ready));
    assert At(at, fd, Locked(ref));
  }

  lemma QueuesPush(queues: map<PoolName, seq<Ref>>, fdOf: map<Ref, Fd>, at: Places, p: PoolName, ref: Ref)
    requires QueuesPlaced(queues, fdOf, at)
    requires ref in fdOf && fdOf[ref] in at && !at[fdOf[ref]].InQueue?
    ensures QueuesPlaced(queues[p := queues[p] + [ref]], fdOf, at[fdOf[ref] := InQueue(p, ref)])
  {
    var queues', at' := queues[p := queues[p] + [ref]], at[fdOf[ref] := InQueue(p, ref)];
    forall q, k | q in queues' && 0 <= k < |queues'[q]|
      ensures EntryPlaced(q, queues'[q][k], fdOf, at')
      ensures q == p && k < |queues[p]| ==> queues'[q][k] != ref
    {
      if q != p || k < |queues[p]| {
        assert EntryPlaced(q, queues[q][k], fdOf, at);
      }
    }
  }

  lemma QueuesPop(queues: map<PoolName, seq<Ref>>, fdOf: map<Ref, Fd>, at: Places, p: PoolName, st: Stage)
    requires QueuesPlaced(queues, fdOf, at)
    requires p in queues && queues[p] != [] && !st.InQueue?
    ensures EntryPlaced(p, queues[p][0], fdOf, at)
    ensures QueuesPlaced(queues[p := queues[p][1..]], fdOf, at[fdOf[queues[p][0]] := st])
  {
    assert EntryPlaced(p, queues[p][0], fdOf, at);
    var queues', fd := queues[p := queues[p][1..]], fdOf[queues[p][0]];
    var at' := at[fd := st];
    forall q, k | q in queues' && 0 <= k < |queues'[q]|
      ensures EntryPlaced(q, queues'[q][k], fdOf, at')
    {
      if q == p {
        assert EntryPlaced(p, queues[p][k + 1], fdOf, at);
      } else {
        assert EntryPlaced(q, queues[q][k], fdOf, at);
      }
    }
    forall other | other in at' && at'[other].InQueue?
      ensures at'[other].ref in queues'[at'[other].p]
    {
      var ref := at[other].ref;
      assert ref in queues[at[other].p];
      if at[other].p == p {
        var k :| 0 <= k < |queues[p]| && queues[p][k] == ref;
        assert EntryPlaced(p, queues[p][k], fdOf, at);
        assert k != 0 ==> queues'[p][k - 1] == ref;
      }
    }
  }

  lemma QueuesMoreRefs(queues: map<PoolName, seq<Ref>>, fdOf: map<Ref, Fd>, at: Places, ref: Ref, fd: Fd)
    requires QueuesPlaced(queues, fdOf, at) && ref !in fdOf
    ensures QueuesPlaced(queues, fdOf[ref := fd], at)
  {
    forall p, k | p in queues && 0 <= k < |queues[p]|
      ensures EntryPlaced(p, queues[p][k], fdOf[ref := fd], at)
    {
      assert EntryPlaced(p, queues[p][k], fdOf, at);
    }
  }

  lemma WorkerMoves(workers: seq<Worker>, at: Places, w: nat, pc: Pc)
    requires WorkersPlaced(workers, at)
    requires w < |workers| && workers[w].task.Busy? && Suits(workers[w].pool, pc)
    ensures var task := workers[w].task;
            WorkersPlaced(workers[w := workers[w].(task := task.(pc := pc))],
                          at[task.fd := AtWorker(w, task.ref, pc)])
  {
    hide Suits;
  }

  lemma WorkerStarts(workers: seq<Worker>, at: Places, w: nat, fd: Fd, ref: Ref, pc: Pc)
    requires WorkersPlaced(workers, at)
    requires w < |workers| && workers[w].task.Free? && Suits(workers[w].pool, pc)
    requires fd in at && !at[fd].AtWorker?
    ensures WorkersPlaced(workers[w := workers[w].(task := Busy(fd, ref, pc))],
                          at[fd := AtWorker(w, ref, pc)])
  {
    hide Suits;
  }

  lemma WorkerLeaves(workers: seq<Worker>, at: Places, w: nat, at': Places)
    requires WorkersPlaced(workers, at)
    requires w < |workers| && workers[w].task.Busy?
    requires at - {workers[w].task.fd} == at' - {workers[w].task.fd}
    requires workers[w].task.fd in at' ==> !at'[workers[w].task.fd].AtWorker?
    ensures WorkersPlaced(workers[w := workers[w].(task := Free)], at')
  {
    hide Suits;
    var fd := workers[w].task.fd;
    assert At(at, fd, AtWorker(w, workers[w].task.ref, workers[w].task.pc));
    assert forall other | other != fd && other in at :: other in at - {fd} && (at - {fd})[other] == at[other];
    assert forall other | other != fd && other in at' :: other in at' - {fd} && (at' - {fd})[other] == at'[other];
    assert forall other | other != fd :: other in at <==> other in at - {fd};
    assert forall other | other != fd :: other in at' <==> other in at' - {fd};
  }

  lemma MapAdd(sockets: map<Fd, Ref>, fdOf: map<Ref, Fd>, at: Places, fd: Fd, ref: Ref)
    requires MapPlaced(sockets, fdOf, at) && At(at, fd, Accepted) && ref !in fdOf
    ensures fd !in sockets
    ensures MapPlaced(sockets[fd := ref], fdOf[ref := fd], at[fd := Mapped])
  {
  }

  lemma StatesAdd(sockets: map<Fd, Ref>, conns: map<Ref, Conn>, at: Places, fd: Fd, ref: Ref)
    requires StatesInOrder(sockets, conns, at) && fd !in sockets && ref !in conns
    ensures StatesInOrder(sockets[fd := ref], conns[ref := NewConn(fd)], at[fd := Mapped])
    ensures SocketsOf(conns[ref := NewConn(fd)]) == SocketsOf(conns)[ref := fd]
  {
    assert InOrder(Mapped, NewConn(fd));
    hide InOrder;
  }

  lemma MapErase(sockets: map<Fd, Ref>, fdOf: map<Ref, Fd>, at: Places, fd: Fd, st: Stage)
    requires MapPlaced(sockets, fdOf, at)
    requires fd in at && HasRef(at[fd]) && HasRef(st) && st.ref == at[fd].ref && !InMap(st)
    ensures MapPlaced(sockets - {fd}, fdOf, at[fd := st])
  {
    hide InMap;
  }

  lemma StatesErase(sockets: map<Fd, Ref>, conns: map<Ref, Conn>, at: Places, fd: Fd, st: Stage)
    requires StatesInOrder(sockets, conns, at)
    ensures StatesInOrder(sockets - {fd}, conns, at[fd := st])
  {
    hide InOrder;
  }

  lemma MapForget(sockets: map<Fd, Ref>, fdOf: map<Ref, Fd>, at: Places, fd: Fd)
    requires MapPlaced(sockets, fdOf, at) && fd !in sockets
    ensures MapPlaced(sockets, fdOf, at - {fd})
  {
    hide InMap;
  }

  lemma StatesForget(sockets: map<Fd, Ref>, conns: map<Ref, Conn>, at: Places, fd: Fd)
    requires StatesInOrder(sockets, conns, at) && fd !in sockets
    ensures StatesInOrder(sockets, conns, at - {fd})
  {
    hide InOrder;
  }

  function Harvested(at: Places, events: set<Fd>): Places {
    map fd | fd in at :: if fd in events then InReady else at[fd]
  }

  lemma MapHarvest(sockets: map<Fd, Ref>, fdOf: map<Ref, Fd>, at: Places, events: set<Fd>)
    requires MapPlaced(sockets, fdOf, at)
    requires forall fd | fd in events :: At(at, fd, InEpoll)
    ensures MapPlaced(sockets, fdOf, Harvested(at, events))
  {
  }

  lemma StatesHarvest(sockets: map<Fd, Ref>, conns: map<Ref, Conn>, at: Places, events: set<Fd>)
    requires StatesInOrder(sockets, conns, at)
    requires forall fd | fd in events :: At(at, fd, InEpoll)
    ensures StatesInOrder(sockets, conns, Harvested(at, events))
  {
    hide InOrder;
    forall fd | fd in sockets
      ensures InOrder(Harvested(at, events)[fd], conns[sockets[fd]])
    {
      assert InOrder(at[fd], conns[sockets[fd]]);
      if fd in events {
        WaitingIsReady(conns[sockets[fd]]);
      }
    }
  }

  lemma WaitingIsReady(c: Conn)
    ensures InOrder(InEpoll, c) ==> InOrder(InReady, c)
  {
  }

  lemma ReadyHarvest(epollSockets: set<Fd>, e: Epoller, at: Places, events: set<Fd>)
    requires WaitingPlaced(epollSockets, at) && EpollerPlaced(e, at) && e.Harvesting?
    requires events <= epollSockets
    ensures WaitingPlaced(epollSockets - events, Harvested(at, events))
    ensures EpollerPlaced(Dispatching(events), Harvested(at, events))
  {
  }

  // ---- the accepting thread ----

  lemma AcceptKeepsInv(s: Server, at: Places, fd: Fd)
    requires Inv(s, at) && s.acceptor == Accepting && fd !in s.open
    ensures Inv(s.(open := s.open + {fd}, acceptor := JustAccepted(fd)), at[fd := Accepted])
  {
    hide WaitingPlaced, EpollerPlaced, QueuesPlaced, WorkersPlaced, StatesInOrder, SocketsOf,
      InOrder, RefsBelow, KernelInStep;
    assert fd !in at && fd !in s.sockets;
    MoveFrame(s, at, fd, Accepted);
    MapFrameOutside(s.sockets, SocketsOf(s.conns), at, fd, Accepted);
    StatesFrame(s.sockets, s.conns, at, fd, Accepted);
  }

  lemma MapSocketKeepsInv(s: Server, at: Places, fd: Fd)
    requires Inv(s, at) && s.acceptor == JustAccepted(fd)
    ensures Inv(AcceptorStep(s), at[fd := Mapped])
  {
    hide WaitingPlaced, EpollerPlaced, QueuesPlaced, WorkersPlaced, MapPlaced, StatesInOrder,
      InOrder, KernelInStep;
    assert s.nextRef !in s.conns && s.nextRef !in SocketsOf(s.conns);
    hide SocketsOf;
    MoveFrame(s, at, fd, Mapped);
    MapAdd(s.sockets, SocketsOf(s.conns), at, fd, s.nextRef);
    StatesAdd(s.sockets, s.conns, at, fd, s.nextRef);
    QueuesMoreRefs(s.queues, SocketsOf(s.conns), at[fd := Mapped], s.nextRef, fd);
  }

  lemma MappedFacts(s: Server, at: Places, fd: Fd)
    requires Inv(s, at) && s.acceptor == JustMapped(fd)
    ensures At(at, fd, Mapped)
    ensures fd in s.sockets && s.sockets[fd] in s.conns && InOrder(Mapped, s.conns[s.sockets[fd]])
  {
    hide WaitingPlaced, EpollerPlaced, QueuesPlaced, WorkersPlaced, SocketsOf, InOrder;
  }

  lemma InsertSocketKeepsInv(s: Server, at: Places, fd: Fd)
    requires Inv(s, at) && s.acceptor == JustMapped(fd)
    ensures Inv(AcceptorStep(s), at[fd := InEpoll])
  {
    hide WaitingPlaced, EpollerPlaced, QueuesPlaced, WorkersPlaced, MapPlaced, StatesInOrder,
      SocketsOf, RefsBelow;
    MappedFacts(s, at, fd);
    assert InOrder(InEpoll, s.conns[s.sockets[fd]]);
    hide InOrder;
    WaitingAdd(s.epollSockets, at, fd);
    MoveFrame(s, at, fd, InEpoll);
    MapFrame(s.sockets, SocketsOf(s.conns), at, fd, InEpoll);
    StatesFrame(s.sockets, s.conns, at, fd, InEpoll);
  }

  // ---- the epoll thread ----

  /** Turns of the loop that move no socket. */
  lemma PollingKeepsInv(s: Server, at: Places, e: Epoller, registered: set<Fd>)
    requires Inv(s, at) && ReadyOf(s.epoller) == {} && !OfHands(s.epoller)
    requires ReadyOf(e) == {} && !OfHands(e)
    requires KernelInStep(registered, s.epollSockets, e)
    ensures Inv(s.(epoller := e, registered := registered), at)
  {
    hide AcceptorPlaced, WaitingPlaced, QueuesPlaced, WorkersPlaced, MapPlaced, StatesInOrder,
      SocketsOf, RefsBelow;
  }

  predicate OfHands(e: Epoller) { e.FoundState? || e.LockedState? }

  lemma EventsWait(epollSockets: set<Fd>, at: Places, events: set<Fd>)
    requires WaitingPlaced(epollSockets, at) && events <= epollSockets
    ensures forall fd | fd in events :: At(at, fd, InEpoll)
  {
  }

  lemma HarvestFrame(s: Server, at: Places)
    requires Inv(s, at) && s.epoller.Harvesting?
    ensures var at' := Harvested(at, s.epoller.events);
            && at'.Keys == at.Keys && Agree(at, at', OfAcceptor)
            && Agree(at, at', (st: Stage) => st.InQueue?) && Agree(at, at', (st: Stage) => st.AtWorker?)
    ensures forall fd | fd in s.epoller.events :: At(at, fd, InEpoll)
  {
    hide AcceptorPlaced, EpollerPlaced, QueuesPlaced, WorkersPlaced, MapPlaced, StatesInOrder, SocketsOf, RefsBelow;
    EventsWait(s.epollSockets, at, s.epoller.events);
  }

  lemma HarvestKeepsInv(s: Server, at: Places)
    requires Inv(s, at) && s.epoller.Harvesting?
    ensures Inv(EpollerStep(s), Harvested(at, s.epoller.events))
  {
    hide AcceptorPlaced, WaitingPlaced, EpollerPlaced, QueuesPlaced, WorkersPlaced, MapPlaced,
      StatesInOrder, SocketsOf, RefsBelow, Harvested, Agree;
    assert s.registered - s.epollSockets == {};
    var events := s.epoller.events;
    var at' := Harvested(at, events);
    HarvestFrame(s, at);
    AcceptorFrame(s.acceptor, at, at');
    QueuesFrame(s.queues, SocketsOf(s.conns), at, at');
    WorkersFrame(s.workers, at, at');
    ReadyHarvest(s.epollSockets, s.epoller, at, events);
    MapHarvest(s.sockets, SocketsOf(s.conns), at, events);
    StatesHarvest(s.sockets, s.conns, at, events);
  }

  lemma ChosenFacts(s: Server, at: Places, fd: Fd)
    requires Inv(s, at) && s.epoller.Dispatching? && fd in s.epoller.ready
    ensures At(at, fd, InReady)
    ensures fd in s.sockets && s.sockets[fd] in s.conns && InOrder(InReady, s.conns[s.sockets[fd]])
  {
    hide AcceptorPlaced, WaitingPlaced, QueuesPlaced, WorkersPlaced, SocketsOf, InOrder;
    assert At(at, fd, InReady);
  }

  lemma ChooseKeepsInv(s: Server, at: Places, fd: Fd)
    requires Inv(s, at) && s.epoller.Dispatching? && fd in s.epoller.ready
    ensures fd in s.sockets
    ensures Inv(ChooseStep(s, fd), at[fd := Found(s.sockets[fd])])
  {
    hide AcceptorPlaced, WaitingPlaced, EpollerPlaced, QueuesPlaced, WorkersPlaced, MapPlaced,
      StatesInOrder, SocketsOf, RefsBelow;
    ChosenFacts(s, at, fd);
    var st := Found(s.sockets[fd]);
    assert InOrder(st, s.conns[s.sockets[fd]]);
    hide InOrder;
    EpollerChooses(s.epoller.ready, at, fd, s.sockets[fd]);
    MoveFrame(s, at, fd, st);
    MapFrame(s.sockets, SocketsOf(s.conns), at, fd, st);
    StatesFrame(s.sockets, s.conns, at, fd, st);
  }

  /** What is known of the socket in the epoll thread's hands. */
  lemma HandFacts(s: Server, at: Places)
    requires Inv(s, at) && OfHands(s.epoller)
    ensures var fd, ref := s.epoller.fd, s.epoller.ref;
            && At(at, fd, if s.epoller.FoundState? then Found(ref) else Locked(ref))
            && fd in s.sockets && s.sockets[fd] == ref
            && ref in s.conns && s.conns[ref].socket == fd
            && ref in SocketsOf(s.conns) && SocketsOf(s.conns)[ref] == fd
            && InOrder(at[fd], s.conns[ref])
  {
    hide AcceptorPlaced, WaitingPlaced, QueuesPlaced, WorkersPlaced, InOrder;
    assert HasRef(at[s.epoller.fd]);
  }

  lemma LockKeepsInv(s: Server, at: Places)
    requires Inv(s, at) && s.epoller.FoundState? && Enabled(s, EpollerNext)
    ensures Inv(EpollerStep(s), at[s.epoller.fd := Locked(s.epoller.ref)])
  {
    hide AcceptorPlaced, WaitingPlaced, EpollerPlaced, QueuesPlaced, WorkersPlaced, MapPlaced, StatesInOrder,
      SocketsOf;
    HandFacts(s, at);
    var fd, ref := s.epoller.fd, s.epoller.ref;
    var st := Locked(ref);
    assert InOrder(st, s.conns[ref].(token := true));
    hide InOrder;
    EpollerLocks(fd, ref, s.epoller.ready, at);
    MoveFrame(s, at, fd, st);
    MapFrame(s.sockets, SocketsOf(s.conns), at, fd, st);
    StatesUpdate(s.sockets, s.conns, at, fd, st, s.conns[ref].(token := true));
  }

  lemma DispatchKeepsInv(s: Server, at: Places)
    requires Inv(s, at) && s.epoller.LockedState? && ReadPool in s.queues
    ensures Inv(EpollerStep(s), at[s.epoller.fd := InQueue(ReadPool, s.epoller.ref)])
  {
    hide AcceptorPlaced, WaitingPlaced, EpollerPlaced, QueuesPlaced, WorkersPlaced, MapPlaced, StatesInOrder,
      SocketsOf, RefsBelow;
    HandFacts(s, at);
    var fd, ref := s.epoller.fd, s.epoller.ref;
    var st := InQueue(ReadPool, ref);
    assert InOrder(st, s.conns[ref]);
    hide InOrder;
    EpollerHandsOn(fd, ref, s.epoller.ready, at, st);
    MoveFrame(s, at, fd, st);
    QueuesPush(s.queues, SocketsOf(s.conns), at, ReadPool, ref);
    MapFrame(s.sockets, SocketsOf(s.conns), at, fd, st);
    StatesFrame(s.sockets, s.conns, at, fd, st);
  }

  // ---- the workers ----

  /** What is known of a busy worker's socket. */
  lemma TaskFacts(s: Server, at: Places, w: nat)
    requires Inv(s, at) && w < |s.workers| && s.workers[w].task.Busy?
    ensures var task := s.workers[w].task;
            && At(at, task.fd, AtWorker(w, task.ref, task.pc))
            && task.ref in s.conns && s.conns[task.ref].socket == task.fd
            && task.ref in SocketsOf(s.conns) && SocketsOf(s.conns)[task.ref] == task.fd
            && Suits(s.workers[w].pool, task.pc)
            && (BeforeErase(task.pc) ==>
                 && task.fd in s.sockets && s.sockets[task.fd] == task.ref
                 && InOrder(AtWorker(w, task.ref, task.pc), s.conns[task.ref]))
            && (!BeforeErase(task.pc) ==> task.fd !in s.sockets)
  {
    hide AcceptorPlaced, WaitingPlaced, EpollerPlaced, QueuesPlaced, InOrder, Suits;
  }

  lemma StartJobKeepsInv(s: Server, at: Places, w: nat)
    requires Inv(s, at) && Enabled(s, StartJob(w))
    ensures var p := s.workers[w].pool;
            var ref := s.queues[p][0];
            Inv(StartStep(s, w), at[s.conns[ref].socket := AtWorker(w, ref, StartPc(p))])
  {
    hide AcceptorPlaced, WaitingPlaced, EpollerPlaced, QueuesPlaced, WorkersPlaced, RefsBelow, KernelInStep,
      Answers, HasAnswer, HasBatch, Clean;
    var p := s.workers[w].pool;
    var ref := s.queues[p][0];
    var fd := SocketsOf(s.conns)[ref];
    assert fd == s.conns[ref].socket;
    hide SocketsOf;
    var st := AtWorker(w, ref, StartPc(p));
    QueuesPop(s.queues, SocketsOf(s.conns), at, p, st);
    assert At(at, fd, InQueue(p, ref));
    MoveFrame(s, at, fd, st);
    WorkerStarts(s.workers, at, w, fd, ref, StartPc(p));
    MapFrame(s.sockets, SocketsOf(s.conns), at, fd, st);
    StatesFrame(s.sockets, s.conns, at, fd, st);
  }

  /** A job goes on to `pc`, its state now being `c`. */
  lemma JobMovesKeepsInv(s: Server, at: Places, w: nat, pc: Pc, c: Conn)
    requires Inv(s, at) && w < |s.workers| && s.workers[w].task.Busy?
    requires var task := s.workers[w].task;
             && BeforeErase(task.pc) && BeforeErase(pc) && Suits(s.workers[w].pool, pc)
             && c.socket == task.fd && InOrder(AtWorker(w, task.ref, pc), c)
    ensures var task := s.workers[w].task;
            Inv(s.(conns := s.conns[task.ref := c], workers := SetTask(s, w, task.(pc := pc))),
                at[task.fd := AtWorker(w, task.ref, pc)])
  {
    hide AcceptorPlaced, WaitingPlaced, EpollerPlaced, QueuesPlaced, WorkersPlaced, MapPlaced,
      StatesInOrder, SocketsOf, InOrder, Suits, KernelInStep;
    TaskFacts(s, at, w);
    var task := s.workers[w].task;
    var st := AtWorker(w, task.ref, pc);
    MoveFrame(s, at, task.fd, st);
    WorkerMoves(s.workers, at, w, pc);
    MapFrame(s.sockets, SocketsOf(s.conns), at, task.fd, st);
    StatesUpdate(s.sockets, s.conns, at, task.fd, st, c);
  }

  lemma HistoryFrame(s: Server, at: Places, history: seq<Note>)
    requires Inv(s, at)
    ensures Inv(s.(history := history), at)
  {
    hide AcceptorPlaced, WaitingPlaced, EpollerPlaced, QueuesPlaced, WorkersPlaced, MapPlaced,
      StatesInOrder, SocketsOf, RefsBelow, KernelInStep;
  }

  lemma ReadKeepsInv(s: Server, at: Places, w: nat, data: Bytes, healthy: bool)
    requires Inv(s, at) && Enabled(s, Read(w, data, healthy))
    ensures var s' := ReadStep(s, w, data, healthy);
            var task := s'.workers[w].task;
            Inv(s', at[task.fd := AtWorker(w, task.ref, task.pc)])
  {
    hide Inv, SocketsOf;
    TaskFacts(s, at, w);
    var s' := ReadStep(s, w, data, healthy);
    var task := s'.workers[w].task;
    JobMovesKeepsInv(s, at, w, task.pc, s'.conns[task.ref]);
    HistoryFrame(s'.(history := s.history), at[task.fd := AtWorker(w, task.ref, task.pc)], s'.history);
  }

  lemma RecordedIsInOrder(w: nat, ref: Ref, c: Conn, reply: Reply)
    requires InOrder(AtWorker(w, ref, ParseStart), c) && Answers(c.readData, reply)
    ensures var c' := Record(c, ParsedCommand(c.readData), reply.fatal, Some(reply.value));
            c'.socket == c.socket && InOrder(AtWorker(w, ref, ParseDone), c')
  {
    hide Answers, ParsedCommand;
    assert reply == Reply(reply.fatal, reply.value);
  }

  lemma ExecuteKeepsInv(s: Server, at: Places, w: nat, c: Conn, reply: Reply)
    requires Inv(s, at) && w < |s.workers| && s.workers[w].task.Busy?
    requires var task := s.workers[w].task;
             task.pc == ParseStart && task.ref in s.conns && c == s.conns[task.ref]
    requires Answers(c.readData, reply)
    ensures var task := s.workers[w].task;
            var c' := Record(c, ParsedCommand(c.readData), reply.fatal, Some(reply.value));
            Inv(s.(conns := s.conns[task.ref := c'], workers := SetTask(s, w, task.(pc := ParseDone)),
                   history := s.history + [Answered(task.ref, c.readData, reply)]),
                at[task.fd := AtWorker(w, task.ref, ParseDone)])
  {
    hide Inv, SocketsOf, Answers, InOrder, ParsedCommand, Record;
    TaskFacts(s, at, w);
    var task := s.workers[w].task;
    RecordedIsInOrder(w, task.ref, c, reply);
    var c' := Record(c, ParsedCommand(c.readData), reply.fatal, Some(reply.value));
    JobMovesKeepsInv(s, at, w, ParseDone, c');
    HistoryFrame(s.(conns := s.conns[task.ref := c'], workers := SetTask(s, w, task.(pc := ParseDone))),
                 at[task.fd := AtWorker(w, task.ref, ParseDone)],
                 s.history + [Answered(task.ref, c.readData, reply)]);
  }

  lemma WriteKeepsInv(s: Server, at: Places, w: nat, healthy: bool)
    requires Inv(s, at) && Enabled(s, Write(w, healthy))
    ensures var s' := WriteStep(s, w, healthy);
            var task := s'.workers[w].task;
            Inv(s', at[task.fd := AtWorker(w, task.ref, task.pc)])
  {
    hide AcceptorPlaced, WaitingPlaced, EpollerPlaced, QueuesPlaced, WorkersPlaced, MapPlaced,
      StatesInOrder, SocketsOf, Answers, RefsBelow, KernelInStep, Serialize, CString;
    TaskFacts(s, at, w);
    var s' := WriteStep(s, w, healthy);
    var task := s'.workers[w].task;
    var c := s.conns[task.ref];
    assert InOrder(AtWorker(w, task.ref, task.pc), c);
    hide InOrder, WireBytes, Inv;
    assert s.conns[task.ref := c] == s.conns;
    JobMovesKeepsInv(s, at, w, task.pc, c);
    HistoryFrame(s'.(history := s.history), at[task.fd := AtWorker(w, task.ref, task.pc)], s'.history);
  }

  /** A job hands its connection to the next pool. */
  lemma HandOnKeepsInv(s: Server, at: Places, w: nat, p: PoolName)
    requires Inv(s, at) && w < |s.workers| && s.workers[w].task.Busy?
    requires var task := s.workers[w].task;
             && (task.pc, p) in {(ReadDone, ParsePool), (ParseDone, WritePool)} && p in s.queues
    ensures var task := s.workers[w].task;
            Inv(s.(queues := Push(s, p, task.ref), workers := SetTask(s, w, Free)),
                at[task.fd := InQueue(p, task.ref)])
  {
    hide AcceptorPlaced, WaitingPlaced, EpollerPlaced, QueuesPlaced, WorkersPlaced, MapPlaced,
      StatesInOrder, SocketsOf, KernelInStep, RefsBelow, Answers;
    TaskFacts(s, at, w);
    var task := s.workers[w].task;
    var st := InQueue(p, task.ref);
    assert InOrder(st, s.conns[task.ref]);
    hide InOrder, Suits;
    MoveFrame(s, at, task.fd, st);
    QueuesPush(s.queues, SocketsOf(s.conns), at, p, task.ref);
    assert at - {task.fd} == at[task.fd := st] - {task.fd};
    WorkerLeaves(s.workers, at, w, at[task.fd := st]);
    MapFrame(s.sockets, SocketsOf(s.conns), at, task.fd, st);
    StatesFrame(s.sockets, s.conns, at, task.fd, st);
  }

  lemma WaitingAdd(epollSockets: set<Fd>, at: Places, fd: Fd)
    requires WaitingPlaced(epollSockets, at)
    ensures WaitingPlaced(epollSockets + {fd}, at[fd := InEpoll])
  {
  }

  lemma RequeueKeepsInv(s: Server, at: Places, w: nat)
    requires Inv(s, at) && w < |s.workers| && s.workers[w].task.Busy?
    requires s.workers[w].task.pc == Requeueing
    ensures var fd := s.workers[w].task.fd;
            Inv(s.(epollSockets := s.epollSockets + {fd}, workers := SetTask(s, w, Free)),
                at[fd := InEpoll])
  {
    hide AcceptorPlaced, WaitingPlaced, EpollerPlaced, QueuesPlaced, WorkersPlaced, MapPlaced,
      StatesInOrder, SocketsOf, RefsBelow, Suits;
    TaskFacts(s, at, w);
    var task := s.workers[w].task;
    assert InOrder(InEpoll, s.conns[task.ref]);
    hide InOrder;
    MoveFrame(s, at, task.fd, InEpoll);
    WaitingAdd(s.epollSockets, at, task.fd);
    assert at - {task.fd} == at[task.fd := InEpoll] - {task.fd};
    WorkerLeaves(s.workers, at, w, at[task.fd := InEpoll]);
    MapFrame(s.sockets, SocketsOf(s.conns), at, task.fd, InEpoll);
    StatesFrame(s.sockets, s.conns, at, task.fd, InEpoll);
  }

  lemma EraseSocketKeepsInv(s: Server, at: Places, w: nat)
    requires Inv(s, at) && w < |s.workers| && s.workers[w].task.Busy?
    requires s.workers[w].task.pc == ErasingSocket
    ensures var task := s.workers[w].task;
            Inv(s.(sockets := s.sockets - {task.fd}, workers := SetTask(s, w, task.(pc := ErasingEpoll))),
                at[task.fd := AtWorker(w, task.ref, ErasingEpoll)])
  {
    hide AcceptorPlaced, WaitingPlaced, EpollerPlaced, QueuesPlaced, WorkersPlaced, MapPlaced,
      StatesInOrder, SocketsOf, RefsBelow, KernelInStep, InOrder;
    TaskFacts(s, at, w);
    var task := s.workers[w].task;
    var st := AtWorker(w, task.ref, ErasingEpoll);
    MoveFrame(s, at, task.fd, st);
    WorkerMoves(s.workers, at, w, ErasingEpoll);
    MapErase(s.sockets, SocketsOf(s.conns), at, task.fd, st);
    StatesErase(s.sockets, s.conns, at, task.fd, st);
  }

  /** The rest of closing touches nothing that a place says. */
  lemma ForgetKeepsInv(s: Server, at: Places, w: nat, pc: Pc, processing: set<Fd>)
    requires Inv(s, at) && w < |s.workers| && s.workers[w].task.Busy?
    requires var from := s.workers[w].task.pc;
             (from == ErasingEpoll && pc == ErasingProcessing) || (from == ErasingProcessing && pc == Closing)
    ensures s.workers[w].task.fd !in s.epollSockets
    ensures var task := s.workers[w].task;
            Inv(s.(processingSockets := processing, workers := SetTask(s, w, task.(pc := pc))),
                at[task.fd := AtWorker(w, task.ref, pc)])
  {
    hide AcceptorPlaced, EpollerPlaced, QueuesPlaced, WorkersPlaced, MapPlaced,
      StatesInOrder, SocketsOf, RefsBelow, KernelInStep, InOrder;
    TaskFacts(s, at, w);
    var task := s.workers[w].task;
    var st := AtWorker(w, task.ref, pc);
    assert task.fd !in s.epollSockets;
    hide WaitingPlaced;
    MoveFrame(s, at, task.fd, st);
    WorkerMoves(s.workers, at, w, pc);
    MapFrameOutside(s.sockets, SocketsOf(s.conns), at, task.fd, st);
    StatesFrame(s.sockets, s.conns, at, task.fd, st);
  }

  lemma CloseKeepsInv(s: Server, at: Places, w: nat)
    requires Inv(s, at) && w < |s.workers| && s.workers[w].task.Busy?
    requires s.workers[w].task.pc == Closing
    ensures var fd := s.workers[w].task.fd;
            Inv(s.(open := s.open - {fd}, registered := s.registered - {fd}, workers := SetTask(s, w, Free)),
                at - {fd})
  {
    hide AcceptorPlaced, WaitingPlaced, EpollerPlaced, QueuesPlaced, WorkersPlaced, MapPlaced,
      StatesInOrder, SocketsOf, RefsBelow, InOrder, Suits;
    TaskFacts(s, at, w);
    var fd := s.workers[w].task.fd;
    var at' := at - {fd};
    AcceptorFrame(s.acceptor, at, at');
    WaitingFrame(s.epollSockets, at, at');
    EpollerFrame(s.epoller, at, at');
    QueuesFrame(s.queues, SocketsOf(s.conns), at, at');
    assert at - {fd} == at' - {fd};
    WorkerLeaves(s.workers, at, w, at');
    MapForget(s.sockets, SocketsOf(s.conns), at, fd);
    StatesForget(s.sockets, s.conns, at, fd);
  }
}

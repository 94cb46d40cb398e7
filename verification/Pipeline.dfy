/** The connection pipeline (src/orchestrator.cpp) as interleaved steps of the
    accepting thread, the epoll thread and any number of workers in three pools.
    A step is one critical section, or one stretch of code that touches only what
    its thread holds. */
module Pipeline {
  import opened ByteStrings
  import opened RespObject
  import opened Commands
  import opened Connections
  import RespSyntax

  type Fd = nat
  type Ref = nat  // a pointer to a State

  datatype PoolName = ReadPool | ParsePool | WritePool

  datatype Acceptor = Accepting | JustAccepted(fd: Fd) | JustMapped(fd: Fd)

  /** The epoll thread: the steps of one turn, and its local set of ready sockets. */
  datatype Epoller =
    | Emptying
    | Arming
    | Polling
    | Harvesting(events: set<Fd>)
    | Dispatching(ready: set<Fd>)
    | FoundState(fd: Fd, ref: Ref, ready: set<Fd>)   // has looked the state up
    | LockedState(fd: Fd, ref: Ref, ready: set<Fd>)  // has locked its mutex

  /** Where a job is; the last five are `close_and_cleanup`. */
  datatype Pc =
    | ReadStart | ReadDone
    | ParseStart | ParseDone
    | WriteStart | WriteDone | Requeueing
    | Unlocking | ErasingSocket | ErasingEpoll | ErasingProcessing | Closing

  datatype Task = Free | Busy(fd: Fd, ref: Ref, pc: Pc)

  datatype Worker = Worker(pool: PoolName, task: Task)

  /** What a client could see, were it told which state serves it: the bytes of one
      read job, the reply recorded for them, and the bytes a write job sent. */
  datatype Note =
    | Asked(ref: Ref, batch: Bytes)
    | Answered(ref: Ref, batch: Bytes, reply: Reply)
    | Told(ref: Ref, bytes: Bytes)

  /** `open` and `registered` belong to the kernel; `history` is what happened on all
      connections in order, and `assertFailed` says whether a lookup in the map of
      sockets has ever missed. */
  datatype Server = Server(
    open: set<Fd>,
    registered: set<Fd>,
    sockets: map<Fd, Ref>,
    conns: map<Ref, Conn>,
    epollSockets: set<Fd>,
    processingSockets: set<Fd>,
    acceptor: Acceptor,
    epoller: Epoller,
    queues: map<PoolName, seq<Ref>>,
    workers: seq<Worker>,
    nextRef: Ref,
    history: seq<Note>,
    assertFailed: bool)

  datatype Action =
    | Accept(fd: Fd)
    | AcceptorNext
    | EpollReady(events: set<Fd>)  // the kernel reports these; none, when interrupted
    | EpollTimeout
    | Choose(fd: Fd)               // take one ready socket and look its state up
    | EpollerNext
    | StartJob(w: nat)
    | Read(w: nat, data: Bytes, healthy: bool)
    | Execute(w: nat, reply: Reply)
    | Write(w: nat, healthy: bool)
    | Continue(w: nat)

  const MAX_EPOLL_EVENTS := 10

  function Start(pools: seq<PoolName>): Server {
    Server({}, {}, map[], map[], {}, {}, Accepting, Emptying,
           map[ReadPool := [], ParsePool := [], WritePool := []],
           seq(|pools|, w requires 0 <= w < |pools| => Worker(pools[w], Free)), 0, [], false)
  }

  function ParsedCommand(batch: Bytes): Option<Object> {
    var parsed := RespSyntax.GetObject(batch);
    if parsed.err == RespSyntax.SUCCESS then parsed.value else None
  }

  // ---- steps ----

  function Push(s: Server, p: PoolName, ref: Ref): map<PoolName, seq<Ref>>
    requires p in s.queues
  {
    s.queues[p := s.queues[p] + [ref]]
  }

  function SetTask(s: Server, w: nat, task: Task): seq<Worker>
    requires w < |s.workers|
  {
    s.workers[w := s.workers[w].(task := task)]
  }

  predicate BusyAt(s: Server, w: nat, pc: Pc) {
    w < |s.workers| && s.workers[w].task.Busy? && s.workers[w].task.pc == pc
    && s.workers[w].task.ref in s.conns
  }

  function StartPc(p: PoolName): Pc {
    match p case ReadPool => ReadStart case ParsePool => ParseStart case WritePool => WriteStart
  }

  predicate Enabled(s: Server, a: Action) {
    match a
    case Accept(fd) => s.acceptor == Accepting && fd !in s.open
    case AcceptorNext => s.acceptor != Accepting
    case EpollReady(events) =>
      s.epoller == Polling && events <= s.registered && |events| <= MAX_EPOLL_EVENTS
    case EpollTimeout => s.epoller == Polling
    case Choose(fd) => s.epoller.Dispatching? && fd in s.epoller.ready
    case EpollerNext =>
      (match s.epoller
       case Emptying => true
       case Arming => true
       case Polling => false
       case Harvesting(_) => true
       case Dispatching(ready) => ready == {}
       case FoundState(_, ref, _) => ref in s.conns && !s.conns[ref].token  // else it blocks
       case LockedState(_, _, _) => ReadPool in s.queues)
    case StartJob(w) =>
      && w < |s.workers| && s.workers[w].task.Free?
      && s.workers[w].pool in s.queues && s.queues[s.workers[w].pool] != []
      && s.queues[s.workers[w].pool][0] in s.conns
    case Read(w, data, healthy) => BusyAt(s, w, ReadStart) && NulFree(data)
    case Execute(w, reply) =>
      BusyAt(s, w, ParseStart) && Answers(s.conns[s.workers[w].task.ref].readData, reply)
    case Write(w, healthy) => BusyAt(s, w, WriteStart)
    case Continue(w) =>
      && w < |s.workers| && s.workers[w].task.Busy?
      && s.workers[w].task.ref in s.conns
      && ParsePool in s.queues && WritePool in s.queues
      && match s.workers[w].task.pc
         case ReadStart => false
         case ParseStart => false
         case WriteStart => false
         case ErasingSocket =>  // the state found in the map is locked: else it blocks
           var fd := s.workers[w].task.fd;
           fd in s.sockets ==> s.sockets[fd] in s.conns && !s.conns[s.sockets[fd]].token
         case _ => true
  }

  function AcceptorStep(s: Server): Server
    requires s.acceptor != Accepting
  {
    match s.acceptor
    case JustAccepted(fd) =>
      s.(sockets := s.sockets[fd := s.nextRef],
         conns := s.conns[s.nextRef := NewConn(fd)],
         nextRef := s.nextRef + 1,
         acceptor := JustMapped(fd))
    case JustMapped(fd) => s.(epollSockets := s.epollSockets + {fd}, acceptor := Accepting)
  }

  /** Harvesting is one critical section under both locks: the kernel's set is
      emptied before the ready sockets leave the set of waiting ones. */
  function EpollerStep(s: Server): Server
    requires Enabled(s, EpollerNext)
  {
    match s.epoller
    case Emptying => s.(registered := s.registered - s.epollSockets, epoller := Arming)
    case Arming => s.(registered := s.registered + s.epollSockets * s.open, epoller := Polling)
    case Harvesting(events) =>
      s.(registered := s.registered - s.epollSockets,
         epollSockets := s.epollSockets - events,
         processingSockets := s.processingSockets + events,
         epoller := Dispatching(events))
    case Dispatching(_) => s.(epoller := Emptying)
    case FoundState(fd, ref, ready) =>
      s.(conns := s.conns[ref := s.conns[ref].(token := true)], epoller := LockedState(fd, ref, ready))
    case LockedState(fd, ref, ready) =>
      s.(queues := Push(s, ReadPool, ref), epoller := Dispatching(ready))
    case Polling => s
  }

  function ChooseStep(s: Server, fd: Fd): Server
    requires Enabled(s, Choose(fd))
  {
    if fd !in s.sockets then s.(assertFailed := true)
    else s.(epoller := FoundState(fd, s.sockets[fd], s.epoller.ready - {fd}))
  }

  function StartStep(s: Server, w: nat): Server
    requires Enabled(s, StartJob(w))
  {
    var p := s.workers[w].pool;
    var ref := s.queues[p][0];
    s.(queues := s.queues[p := s.queues[p][1..]],
       workers := SetTask(s, w, Busy(s.conns[ref].socket, ref, StartPc(p))))
  }

  function ReadStep(s: Server, w: nat, data: Bytes, healthy: bool): Server
    requires Enabled(s, Read(w, data, healthy))
  {
    var task := s.workers[w].task;
    var c := s.conns[task.ref];
    var c' := c.(readData := c.readData + data);
    var pc := if !healthy || c'.readData == [] then Unlocking else ReadDone;
    s.(conns := s.conns[task.ref := c'], workers := SetTask(s, w, task.(pc := pc)),
       history := s.history + if c'.readData == [] then [] else [Asked(task.ref, c'.readData)])
  }

  function ExecuteStep(s: Server, w: nat, reply: Reply): Server
    requires Enabled(s, Execute(w, reply))
  {
    var task := s.workers[w].task;
    var c := s.conns[task.ref];
    var c' := Record(c, ParsedCommand(c.readData), reply.fatal, Some(reply.value));
    s.(conns := s.conns[task.ref := c'], workers := SetTask(s, w, task.(pc := ParseDone)),
       history := s.history + [Answered(task.ref, c.readData, reply)])
  }

  function WriteStep(s: Server, w: nat, healthy: bool): Server
    requires Enabled(s, Write(w, healthy))
  {
    var task := s.workers[w].task;
    var c := s.conns[task.ref];
    var pc := if !healthy || c.isError then Unlocking else WriteDone;
    s.(workers := SetTask(s, w, task.(pc := pc)),
       history := s.history + if healthy then [Told(task.ref, WireBytes(c))] else [])
  }

  function ContinueStep(s: Server, w: nat): Server
    requires Enabled(s, Continue(w))
  {
    var task := s.workers[w].task;
    var fd, ref := task.fd, task.ref;
    match task.pc
    case ReadDone => s.(queues := Push(s, ParsePool, ref), workers := SetTask(s, w, Free))
    case ParseDone => s.(queues := Push(s, WritePool, ref), workers := SetTask(s, w, Free))
    case WriteDone =>
      s.(conns := s.conns[ref := ResetConn(s.conns[ref])],
         workers := SetTask(s, w, task.(pc := Requeueing)))
    case Requeueing => s.(epollSockets := s.epollSockets + {fd}, workers := SetTask(s, w, Free))
    case Unlocking =>
      s.(conns := s.conns[ref := s.conns[ref].(token := false)],
         workers := SetTask(s, w, task.(pc := ErasingSocket)))
    case ErasingSocket =>
      s.(sockets := s.sockets - {fd}, workers := SetTask(s, w, task.(pc := ErasingEpoll)))
    case ErasingEpoll =>
      s.(epollSockets := s.epollSockets - {fd}, workers := SetTask(s, w, task.(pc := ErasingProcessing)))
    case ErasingProcessing =>
      s.(processingSockets := s.processingSockets - {fd}, workers := SetTask(s, w, task.(pc := Closing)))
    case Closing =>
      s.(open := s.open - {fd}, registered := s.registered - {fd}, workers := SetTask(s, w, Free))
    case _ => s
  }

  function Step(s: Server, a: Action): Server
    requires Enabled(s, a)
  {
    match a
    case Accept(fd) => s.(open := s.open + {fd}, acceptor := JustAccepted(fd))
    case AcceptorNext => AcceptorStep(s)
    case EpollReady(events) => s.(epoller := Harvesting(events))
    case EpollTimeout => s.(epoller := Emptying)
    case Choose(fd) => ChooseStep(s, fd)
    case EpollerNext => EpollerStep(s)
    case StartJob(w) => StartStep(s, w)
    case Read(w, data, healthy) => ReadStep(s, w, data, healthy)
    case Execute(w, reply) => ExecuteStep(s, w, reply)
    case Write(w, healthy) => WriteStep(s, w, healthy)
    case Continue(w) => ContinueStep(s, w)
  }

  predicate IsRun(s: Server, actions: seq<Action>)
    decreases |actions|
  {
    actions != [] ==> Enabled(s, actions[0]) && IsRun(Step(s, actions[0]), actions[1..])
  }

  function After(s: Server, actions: seq<Action>): Server
    requires IsRun(s, actions)
    decreases |actions|
  {
    if actions == [] then s else After(Step(s, actions[0]), actions[1..])
  }
}

/** The functions of the orchestrator as the source writes them, over fields that
    they update in place: each is a sequence of its thread's steps in Pipeline.
    Other threads come in only where a method says so. */
module PipelineCode {
  import opened ByteStrings
  import opened Commands
  import opened Connections
  import opened Pipeline
  import opened PipelineInvariant
  import PipelineLaws
  import opened RespObject
  import Refinement
  import Executor

  lemma {:induction false} AppendStep(s: Server, actions: seq<Action>, a: Action)
    requires IsRun(s, actions) && Enabled(After(s, actions), a)
    ensures IsRun(s, actions + [a]) && After(s, actions + [a]) == Step(After(s, actions), a)
    decreases |actions|
  {
    hide Enabled, Step;
    if actions == [] {
      assert [] + [a] == [a] && [a][1..] == [];
      assert IsRun(Step(s, a), []);
    } else {
      AppendStep(Step(s, actions[0]), actions[1..], a);
      assert (actions + [a])[1..] == actions[1..] + [a];
    }
  }

  /** A run so far, and the place of every socket at its end. */
  datatype Trace = Trace(start: Server, steps: seq<Action>, at: Places)

  ghost predicate Reaches(t: Trace, s: Server) {
    IsRun(t.start, t.steps) && After(t.start, t.steps) == s && Inv(s, t.at)
  }

  lemma Advance(t: Trace, s: Server, a: Action) returns (t': Trace)
    requires Reaches(t, s) && Enabled(s, a)
    ensures Reaches(t', Step(s, a))
    ensures t'.start == t.start && t'.steps == t.steps + [a]
  {
    hide Inv, Enabled, Step;
    AppendStep(t.start, t.steps, a);
    var at' := PipelineLaws.StepKeepsInv(s, t.at, a);
    t' := Trace(t.start, t.steps + [a], at');
  }

  lemma EmptyTrace(s: Server, at: Places) returns (t: Trace)
    requires Inv(s, at)
    ensures Reaches(t, s) && t.start == s && t.steps == []
  {
    hide Inv;
    t := Trace(s, [], at);
    assert IsRun(s, []) && After(s, []) == s;
  }

  class Orchestrator {
    var allSockets: map<Fd, Ref>
    var states: map<Ref, Conn>
    var epollSockets: set<Fd>
    var processingSockets: set<Fd>
    var queues: map<PoolName, seq<Ref>>
    var nextRef: Ref  // what the next allocation of a state returns

    // the kernel, the control points of the threads, and history
    ghost var open: set<Fd>
    ghost var registered: set<Fd>
    ghost var acceptor: Acceptor
    ghost var epoller: Epoller
    ghost var workers: seq<Worker>
    ghost var history: seq<Note>
    ghost var assertFailed: bool

    ghost function View(): Server
      reads this
    {
      Server(open, registered, allSockets, states, epollSockets, processingSockets, acceptor,
             epoller, queues, workers, nextRef, history, assertFailed)
    }

    constructor (ghost pools: seq<PoolName>)
      ensures View() == Start(pools)
    {
      allSockets, states, epollSockets, processingSockets := map[], map[], {}, {};
      queues := map[ReadPool := [], ParsePool := [], WritePool := []];
      open, registered, acceptor, epoller := {}, {}, Accepting, Emptying;
      workers := seq(|pools|, w requires 0 <= w < |pools| => Worker(pools[w], Free));
      nextRef, history, assertFailed := 0, [], false;
    }

    // ---- critical sections and single actions ----

    ghost predicate Did(before: Server, a: Action)
      reads this
    {
      Enabled(before, a) && View() == Step(before, a)
    }

    method NoteAccepted(ghost fd: Fd)
      requires acceptor == Accepting && fd !in open
      modifies this`open, this`acceptor
      ensures Did(old(View()), Accept(fd)) && acceptor == JustAccepted(fd)
      ensures open == old(open) + {fd}
    {
      open, acceptor := open + {fd}, JustAccepted(fd);
    }

    method InsertState(fd: Fd)
      requires acceptor == JustAccepted(fd)
      modifies this`states, this`allSockets, this`nextRef, this`acceptor
      ensures Did(old(View()), AcceptorNext) && acceptor == JustMapped(fd)
      ensures allSockets == old(allSockets)[fd := old(nextRef)]
      ensures states == old(states)[old(nextRef) := NewConn(fd)] && nextRef == old(nextRef) + 1
    {
      states := states[nextRef := NewConn(fd)];
      allSockets := allSockets[fd := nextRef];
      nextRef, acceptor := nextRef + 1, JustMapped(fd);
    }

    method InsertWaiting(fd: Fd)
      requires acceptor == JustMapped(fd)
      modifies this`epollSockets, this`acceptor
      ensures Did(old(View()), AcceptorNext) && acceptor == Accepting
      ensures epollSockets == old(epollSockets) + {fd}
    {
      epollSockets := epollSockets + {fd};
      acceptor := Accepting;
    }

    method EpollEmpty()
      requires epoller == Emptying
      modifies this`registered, this`epoller
      ensures Did(old(View()), EpollerNext) && epoller == Arming
      ensures registered == old(registered) - epollSockets
    {
      registered, epoller := registered - epollSockets, Arming;
    }

    method EpollRearm()
      requires epoller == Arming && epollSockets <= open
      modifies this`registered, this`epoller
      ensures Did(old(View()), EpollerNext) && epoller == Polling
      ensures registered == old(registered) + epollSockets
    {
      registered, epoller := registered + epollSockets * open, Polling;
    }

    method EpollWait(ghost events: set<Fd>)
      requires epoller == Polling && events <= registered && |events| <= MAX_EPOLL_EVENTS
      modifies this`epoller
      ensures Did(old(View()), EpollReady(events)) && epoller == Harvesting(events)
    {
      epoller := Harvesting(events);
    }

    method Harvest(events: set<Fd>)
      requires epoller == Harvesting(events)
      modifies this`registered, this`epollSockets, this`processingSockets, this`epoller
      ensures Did(old(View()), EpollerNext) && epoller == Dispatching(events)
      ensures epollSockets == old(epollSockets) - events
      ensures processingSockets == old(processingSockets) + events
      ensures registered == old(registered) - old(epollSockets)
    {
      registered := registered - epollSockets;
      epollSockets := epollSockets - events;
      processingSockets := processingSockets + events;
      epoller := Dispatching(events);
    }

    method FindState(fd: Fd) returns (p: Ref)
      requires epoller.Dispatching? && fd in epoller.ready && fd in allSockets
      modifies this`epoller
      ensures Did(old(View()), Choose(fd)) && p == allSockets[fd]
      ensures epoller == FoundState(fd, p, old(epoller).ready - {fd})
    {
      p := allSockets[fd];
      epoller := FoundState(fd, p, epoller.ready - {fd});
    }

    method LockState(p: Ref)
      requires epoller.FoundState? && epoller.ref == p && p in states && !states[p].token
      modifies this`states, this`epoller
      ensures Did(old(View()), EpollerNext)
      ensures states == old(states)[p := old(states)[p].(token := true)]
      ensures epoller == LockedState(old(epoller).fd, p, old(epoller).ready)
    {
      states := states[p := states[p].(token := true)];
      epoller := LockedState(epoller.fd, p, epoller.ready);
    }

    method AddReadJob(p: Ref)
      requires epoller.LockedState? && epoller.ref == p && ReadPool in queues
      modifies this`queues, this`epoller
      ensures Did(old(View()), EpollerNext) && epoller == Dispatching(old(epoller).ready)
      ensures queues == old(queues)[ReadPool := old(queues)[ReadPool] + [p]]
    {
      queues := queues[ReadPool := queues[ReadPool] + [p]];
      epoller := Dispatching(epoller.ready);
    }

    method EpollTimesOut()
      requires epoller == Polling
      modifies this`epoller
      ensures Did(old(View()), EpollTimeout) && epoller == Emptying
    {
      epoller := Emptying;
    }

    method FinishTurn()
      requires epoller == Dispatching({})
      modifies this`epoller
      ensures Did(old(View()), EpollerNext) && epoller == Emptying
    {
      epoller := Emptying;
    }

    // ---- the accepting thread ----

    /** One turn of its loop, with the socket that `accept` returned. */
    method AcceptOne(fd: Fd, ghost t: Trace) returns (ghost t': Trace)
      requires Reaches(t, View()) && acceptor == Accepting && fd !in open
      modifies this`open, this`acceptor, this`states, this`allSockets, this`nextRef, this`epollSockets
      ensures t'.start == t.start && Reaches(t', View())
      ensures t'.steps == t.steps + [Accept(fd)] + [AcceptorNext] + [AcceptorNext]
      ensures acceptor == Accepting && open == old(open) + {fd}
      ensures epollSockets == old(epollSockets) + {fd}
      ensures allSockets == old(allSockets)[fd := old(nextRef)]
      ensures states == old(states)[old(nextRef) := NewConn(fd)]
      ensures old(nextRef) !in old(states) && fd !in old(allSockets) && nextRef == old(nextRef) + 1
    {
      hide Reaches, Step, Enabled;
      ghost var s := View();
      NumbersAreNew(s, t, fd);
      NoteAccepted(fd);
      t' := Advance(t, s, Accept(fd));
      s := View();
      InsertState(fd);
      t' := Advance(t', s, AcceptorNext);
      s := View();
      InsertWaiting(fd);
      t' := Advance(t', s, AcceptorNext);
    }

    /** Several turns, one for each new socket. */
    method AcceptAll(fds: seq<Fd>, ghost t: Trace) returns (ghost t': Trace)
      requires Reaches(t, View()) && acceptor == Accepting
      requires NewNumbers(fds, open)
      modifies this`open, this`acceptor, this`states, this`allSockets, this`nextRef, this`epollSockets
      ensures t'.start == t.start && Reaches(t', View())
      ensures acceptor == Accepting
      ensures epollSockets == old(epollSockets) + set fd | fd in fds
      ensures SocketsKept(old(allSockets), allSockets)
      ensures StatesKept(old(states), states)
    {
      hide Reaches;
      t' := t;
      for i := 0 to |fds|
        invariant t'.start == t.start && Reaches(t', View()) && acceptor == Accepting
        invariant forall k | i <= k < |fds| :: fds[k] !in open
        invariant epollSockets == old(epollSockets) + set fd | fd in fds[..i]
        invariant SocketsKept(old(allSockets), allSockets) && StatesKept(old(states), states)
      {
        t' := AcceptOne(fds[i], t');
        assert fds[..i + 1] == fds[..i] + [fds[i]];
      }
      assert fds[..|fds|] == fds;
    }

    // ---- the epoll thread ----

    /** Looks the state of a ready socket up, locks it and queues a job for it. The
        lookup hits and the lock is free. */
    method CreateProcessingJob(fd: Fd, ghost t: Trace) returns (ghost t': Trace)
      requires Reaches(t, View()) && epoller.Dispatching? && fd in epoller.ready
      modifies this`states, this`queues, this`epoller
      ensures t'.start == t.start && Reaches(t', View())
      ensures t'.steps == t.steps + [Choose(fd)] + [EpollerNext] + [EpollerNext]
      ensures epoller == Dispatching(old(epoller).ready - {fd})
      ensures fd in allSockets && allSockets[fd] in old(states) && ReadPool in old(queues)
      ensures !old(states)[allSockets[fd]].token
      ensures states == old(states)[allSockets[fd] := old(states)[allSockets[fd]].(token := true)]
      ensures queues == old(queues)[ReadPool := old(queues)[ReadPool] + [allSockets[fd]]]
    {
      hide Reaches, Step, Enabled;
      ghost var s := View();
      ReadyFacts(s, t, fd);
      var p := FindState(fd);
      t' := Advance(t, s, Choose(fd));
      s := View();
      LockState(p);
      t' := Advance(t', s, EpollerNext);
      s := View();
      AddReadJob(p);
      t' := Advance(t', s, EpollerNext);
    }

    /** Takes the ready sockets out of the waiting ones and queues a job for each. */
    method DispatchAll(events: set<Fd>, ghost t: Trace) returns (ghost t': Trace)
      requires Reaches(t, View()) && epoller == Harvesting(events)
      modifies this`states, this`registered, this`epollSockets, this`processingSockets, this`epoller, this`queues
      ensures t'.start == t.start && Reaches(t', View())
      ensures epoller == Emptying
      ensures epollSockets == old(epollSockets) - events
      ensures processingSockets == old(processingSockets) + events
      ensures JobsAdded(old(queues), queues, allSockets, events)
      ensures SameButForMutexes(old(states), states)
    {
      hide Reaches, Step, Enabled;
      ghost var s := View();
      Harvest(events);
      t' := Advance(t, s, EpollerNext);
      t' := CreateJobs(events, t');
      s := View();
      FinishTurn();
      t' := Advance(t', s, EpollerNext);
    }

    method CreateJobs(events: set<Fd>, ghost t: Trace) returns (ghost t': Trace)
      requires Reaches(t, View()) && epoller == Dispatching(events)
      modifies this`states, this`epoller, this`queues
      ensures t'.start == t.start && Reaches(t', View())
      ensures epoller == Dispatching({})
      ensures JobsAdded(old(queues), queues, allSockets, events)
      ensures SameButForMutexes(old(states), states)
    {
      hide Reaches, Step, Enabled, JobsAdded, SameButForMutexes;
      AllQueues(View(), t);
      NoJobAdded(queues, allSockets);
      NoMutexMoved(states, states);
      t' := t;
      var ready := events;
      assert events - ready == {};
      while ready != {}
        invariant ready <= events
        invariant Reaches(t', View()) && t'.start == t.start
        invariant epoller == Dispatching(ready)
        invariant JobsAdded(old(queues), queues, allSockets, events - ready)
        invariant SameButForMutexes(old(states), states)
        decreases ready
      {
        var fd :| fd in ready;
        ghost var queuesBefore, statesBefore := queues, states;
        t' := CreateProcessingJob(fd, t');
        OneJobAdded(old(queues), queuesBefore, allSockets, events - ready, fd);
        OneMutexMoved(old(states), statesBefore, allSockets[fd]);
        assert events - (ready - {fd}) == events - ready + {fd};
        ready := ready - {fd};
      }
      assert events - {} == events;
    }

    /** One turn of the loop. While the thread waits in the kernel, new sockets come
        in; then the kernel reports `events`, or the wait times out. */
    method EpollTurn(events: Option<set<Fd>>, newcomers: seq<Fd>, ghost t: Trace) returns (ghost t': Trace)
      requires Reaches(t, View()) && epoller == Emptying && acceptor == Accepting
      requires events.Some? ==> events.value <= epollSockets && |events.value| <= MAX_EPOLL_EVENTS
      requires NewNumbers(newcomers, open)
      modifies this`open, this`acceptor, this`states, this`allSockets, this`nextRef, this`epollSockets,
        this`registered, this`processingSockets, this`epoller, this`queues
      ensures t'.start == t.start && Reaches(t', View())
      ensures epoller == Emptying && acceptor == Accepting
      ensures var ready := if events.Some? then events.value else {};
              && epollSockets == old(epollSockets) + (set fd | fd in newcomers) - ready
              && processingSockets == old(processingSockets) + ready
              && JobsAdded(old(queues), queues, allSockets, ready)
      ensures SocketsKept(old(allSockets), allSockets)
      ensures SameButForMutexes(old(states), states)
    {
      hide Reaches, Step, Enabled, JobsAdded, SameButForMutexes, SocketsKept, StatesKept, NewNumbers;
      AllQueues(View(), t);
      t' := ArmAndWait(newcomers, t);
      NoMutexMoved(old(states), states);
      ghost var s := View();
      if events.None? {
        NoJobAdded(queues, allSockets);
        EpollTimesOut();
        t' := Advance(t', s, EpollTimeout);
        return;
      }
      EpollWait(events.value);
      t' := Advance(t', s, EpollReady(events.value));
      ghost var statesBefore := states;
      t' := DispatchAll(events.value, t');
      MutexesMovedAgain(old(states), statesBefore, states);
    }

    /** Hands the waiting sockets to the kernel anew; then new ones come in. */
    method ArmAndWait(newcomers: seq<Fd>, ghost t: Trace) returns (ghost t': Trace)
      requires Reaches(t, View()) && epoller == Emptying && acceptor == Accepting
      requires NewNumbers(newcomers, open)
      modifies this`open, this`acceptor, this`states, this`allSockets, this`nextRef, this`epollSockets,
        this`registered, this`epoller
      ensures t'.start == t.start && Reaches(t', View())
      ensures epoller == Polling && acceptor == Accepting && old(epollSockets) <= registered
      ensures epollSockets == old(epollSockets) + set fd | fd in newcomers
      ensures SocketsKept(old(allSockets), allSockets) && StatesKept(old(states), states)
    {
      hide Reaches, Step, Enabled, SocketsKept, StatesKept, NewNumbers;
      ghost var s := View();
      WaitingAreOpen(s, t);
      EpollEmpty();
      t' := Advance(t, s, EpollerNext);
      s := View();
      EpollRearm();
      t' := Advance(t', s, EpollerNext);
      t' := AcceptAll(newcomers, t');
    }

    // ---- the steps of a job ----

    /** Worker `w` has job `(fd, ref)` in hand and is at `pc`. */
    ghost predicate Working(w: nat, fd: Fd, ref: Ref, pc: Pc)
      reads this`workers, this`states
    {
      w < |workers| && workers[w].task == Busy(fd, ref, pc) && ref in states
    }

    /** Worker `w` is at `task` now, and no other worker has moved. */
    ghost predicate Moved(before: seq<Worker>, w: nat, task: Task)
      reads this`workers
    {
      w < |before| && workers == before[w := before[w].(task := task)]
    }

    method PickUpJob(w: nat, pool: PoolName) returns (fd: Fd, ref: Ref)
      requires w < |workers| && workers[w] == Worker(pool, Free)
      requires pool in queues && queues[pool] != [] && queues[pool][0] in states
      modifies this`queues, this`workers
      ensures Moved(old(workers), w, Busy(fd, ref, StartPc(pool)))
      ensures Did(old(View()), StartJob(w))
      ensures ref == old(queues)[pool][0] && fd == states[ref].socket
      ensures Working(w, fd, ref, StartPc(pool)) && workers[w].pool == pool
      ensures queues == old(queues)[pool := old(queues)[pool][1..]]
    {
      ref := queues[pool][0];
      fd := states[ref].socket;
      queues := queues[pool := queues[pool][1..]];
      workers := workers[w := workers[w].(task := Busy(fd, ref, StartPc(pool)))];
    }

    /** The read loop: each chunk is appended as the C string that it leaves in the
        buffer, which must be one: see Connections.ReadIsTerminated. */
    method Gather(ref: Ref, chunks: seq<Bytes>)
      requires ref in states
      requires forall i | 0 <= i < |chunks| :: Readable(chunks[i])
      modifies this`states
      ensures var c := old(states)[ref];
              states == old(states)[ref := c.(readData := c.readData + AllRead(chunks))]
    {
      assert AllRead(chunks[..0]) == [];
      hide AllRead, CString, Readable;
      ghost var c := states[ref];
      assert c.readData + [] == c.readData;
      for i := 0 to |chunks|
        invariant ref in states && states == old(states)[ref := states[ref]]
        invariant states[ref] == c.(readData := c.readData + AllRead(chunks[..i]))
      {
        AllReadOneMore(chunks, i);
        var data := states[ref].readData + CString(chunks[i]);
        assert data == c.readData + AllRead(chunks[..i + 1]);
        states := states[ref := states[ref].(readData := data)];
      }
      assert chunks[..|chunks|] == chunks;
    }

    method ReadAll(w: nat, ghost fd: Fd, ref: Ref, chunks: seq<Bytes>, healthy: bool) returns (proceed: bool)
      requires Working(w, fd, ref, ReadStart)
      requires forall i | 0 <= i < |chunks| :: Readable(chunks[i])
      modifies this`states, this`workers, this`history
      ensures Moved(old(workers), w, Busy(fd, ref, if proceed then ReadDone else Unlocking))
      ensures Did(old(View()), Read(w, AllRead(chunks), healthy))
      ensures var c := old(states)[ref].(readData := old(states)[ref].readData + AllRead(chunks));
              && states == old(states)[ref := c]
              && history == old(history) + if c.readData == [] then [] else [Asked(ref, c.readData)]
      ensures proceed <==> healthy && old(states)[ref].readData + AllRead(chunks) != []
      ensures Working(w, fd, ref, if proceed then ReadDone else Unlocking)
    {
      hide AllRead, AcceptorStep, EpollerStep, ChooseStep, StartStep, ExecuteStep, WriteStep, ContinueStep, Answers;
      Gather(ref, chunks);
      proceed := healthy && states[ref].readData != [];
      history := history + if states[ref].readData == [] then [] else [Asked(ref, states[ref].readData)];
      workers := workers[w := workers[w].(task := Busy(fd, ref, if proceed then ReadDone else Unlocking))];
    }

    method RecordReply(w: nat, ghost fd: Fd, ref: Ref, reply: Reply)
      requires Working(w, fd, ref, ParseStart) && Answers(states[ref].readData, reply)
      modifies this`states, this`workers, this`history
      ensures Moved(old(workers), w, Busy(fd, ref, ParseDone))
      ensures Did(old(View()), Execute(w, reply)) && Working(w, fd, ref, ParseDone)
      ensures states == old(states)[ref := Recorded(old(states)[ref], reply)]
      ensures history == old(history) + [Answered(ref, old(states)[ref].readData, reply)]
    {
      hide AcceptorStep, EpollerStep, ChooseStep, StartStep, ReadStep, WriteStep, ContinueStep, Answers,
        ParsedCommand, Record;
      var command := ParsedCommand(states[ref].readData);
      history := history + [Answered(ref, states[ref].readData, reply)];
      states := states[ref := Record(states[ref], command, reply.fatal, Some(reply.value))];
      workers := workers[w := workers[w].(task := Busy(fd, ref, ParseDone))];
    }

    method HandOn(w: nat, ghost fd: Fd, ref: Ref, next: PoolName)
      requires Working(w, fd, ref, if next == ParsePool then ReadDone else ParseDone)
      requires next != ReadPool && ParsePool in queues && WritePool in queues
      modifies this`queues, this`workers
      ensures Moved(old(workers), w, Free)
      ensures Did(old(View()), Continue(w)) && workers[w].task == Free
      ensures queues == old(queues)[next := old(queues)[next] + [ref]]
    {
      hide AcceptorStep, EpollerStep, ChooseStep, StartStep, ReadStep, ExecuteStep, WriteStep, Answers;
      queues := queues[next := queues[next] + [ref]];
      workers := workers[w := workers[w].(task := Free)];
    }

    /** Chooses the buffer as the source does, and writes it. */
    method Send(w: nat, ghost fd: Fd, ref: Ref, healthy: bool) returns (proceed: bool)
      requires Working(w, fd, ref, WriteStart)
      modifies this`history, this`workers
      ensures Moved(old(workers), w, Busy(fd, ref, if proceed then WriteDone else Unlocking))
      ensures Did(old(View()), Write(w, healthy))
      ensures history == old(history) + if healthy then [Told(ref, WireBytes(states[ref]))] else []
      ensures proceed <==> healthy && !states[ref].isError
      ensures Working(w, fd, ref, if proceed then WriteDone else Unlocking)
    {
      history := history + if healthy then [Told(ref, WireBytes(states[ref]))] else [];
      proceed := healthy && !states[ref].isError;
      workers := workers[w := workers[w].(task := Busy(fd, ref, if proceed then WriteDone else Unlocking))];
    }

    method ResetState(w: nat, ghost fd: Fd, ref: Ref)
      requires Working(w, fd, ref, WriteDone) && ParsePool in queues && WritePool in queues
      modifies this`states, this`workers
      ensures Moved(old(workers), w, Busy(fd, ref, Requeueing))
      ensures Did(old(View()), Continue(w)) && Working(w, fd, ref, Requeueing)
      ensures states == old(states)[ref := ResetConn(old(states)[ref])]
    {
      hide AcceptorStep, EpollerStep, ChooseStep, StartStep, ReadStep, ExecuteStep, WriteStep, Answers;
      states := states[ref := ResetConn(states[ref])];
      workers := workers[w := workers[w].(task := Busy(fd, ref, Requeueing))];
    }

    method AddToEpollQueue(w: nat, fd: Fd, ghost ref: Ref)
      requires Working(w, fd, ref, Requeueing) && ParsePool in queues && WritePool in queues
      modifies this`epollSockets, this`workers
      ensures Moved(old(workers), w, Free)
      ensures Did(old(View()), Continue(w)) && workers[w].task == Free
      ensures epollSockets == old(epollSockets) + {fd}
    {
      hide AcceptorStep, EpollerStep, ChooseStep, StartStep, ReadStep, ExecuteStep, WriteStep, Answers;
      epollSockets := epollSockets + {fd};
      workers := workers[w := workers[w].(task := Free)];
    }

    method UnlockState(w: nat, ghost fd: Fd, ref: Ref)
      requires Working(w, fd, ref, Unlocking) && ParsePool in queues && WritePool in queues
      modifies this`states, this`workers
      ensures Moved(old(workers), w, Busy(fd, ref, ErasingSocket))
      ensures Did(old(View()), Continue(w)) && Working(w, fd, ref, ErasingSocket)
      ensures states == old(states)[ref := old(states)[ref].(token := false)]
    {
      hide AcceptorStep, EpollerStep, ChooseStep, StartStep, ReadStep, ExecuteStep, WriteStep, Answers;
      states := states[ref := states[ref].(token := false)];
      workers := workers[w := workers[w].(task := Busy(fd, ref, ErasingSocket))];
    }

    method EraseFromAll(w: nat, fd: Fd, ghost ref: Ref)
      requires Working(w, fd, ref, ErasingSocket) && ParsePool in queues && WritePool in queues
      requires fd in allSockets && allSockets[fd] == ref && !states[ref].token
      modifies this`allSockets, this`workers
      ensures Moved(old(workers), w, Busy(fd, ref, ErasingEpoll))
      ensures Did(old(View()), Continue(w)) && Working(w, fd, ref, ErasingEpoll)
      ensures allSockets == old(allSockets) - {fd}
    {
      hide AcceptorStep, EpollerStep, ChooseStep, StartStep, ReadStep, ExecuteStep, WriteStep, Answers;
      allSockets := allSockets - {fd};
      workers := workers[w := workers[w].(task := Busy(fd, ref, ErasingEpoll))];
    }

    method EraseFromEpoll(w: nat, fd: Fd, ghost ref: Ref)
      requires Working(w, fd, ref, ErasingEpoll) && ParsePool in queues && WritePool in queues
      modifies this`epollSockets, this`workers
      ensures Moved(old(workers), w, Busy(fd, ref, ErasingProcessing))
      ensures Did(old(View()), Continue(w)) && Working(w, fd, ref, ErasingProcessing)
      ensures epollSockets == old(epollSockets) - {fd}
    {
      hide AcceptorStep, EpollerStep, ChooseStep, StartStep, ReadStep, ExecuteStep, WriteStep, Answers;
      epollSockets := epollSockets - {fd};
      workers := workers[w := workers[w].(task := Busy(fd, ref, ErasingProcessing))];
    }

    method EraseFromProcessing(w: nat, fd: Fd, ghost ref: Ref)
      requires Working(w, fd, ref, ErasingProcessing) && ParsePool in queues && WritePool in queues
      modifies this`processingSockets, this`workers
      ensures Moved(old(workers), w, Busy(fd, ref, Closing))
      ensures Did(old(View()), Continue(w)) && Working(w, fd, ref, Closing)
      ensures processingSockets == old(processingSockets) - {fd}
    {
      hide AcceptorStep, EpollerStep, ChooseStep, StartStep, ReadStep, ExecuteStep, WriteStep, Answers;
      processingSockets := processingSockets - {fd};
      workers := workers[w := workers[w].(task := Busy(fd, ref, Closing))];
    }

    method CloseSocket(w: nat, ghost fd: Fd, ghost ref: Ref)
      requires Working(w, fd, ref, Closing) && ParsePool in queues && WritePool in queues
      modifies this`open, this`registered, this`workers
      ensures Moved(old(workers), w, Free)
      ensures Did(old(View()), Continue(w)) && workers[w].task == Free
      ensures open == old(open) - {fd} && registered == old(registered) - {fd}
    {
      hide AcceptorStep, EpollerStep, ChooseStep, StartStep, ReadStep, ExecuteStep, WriteStep, Answers;
      hide ResetConn, Record, ParsedCommand, WireBytes;
      open, registered := open - {fd}, registered - {fd};
      workers := workers[w := workers[w].(task := Free)];
    }

    // ---- closing and the three jobs ----

    /** Takes the socket out of every set. The lookup finds the connection's own
        state, and its mutex free. */
    method RemoveSocket(w: nat, fd: Fd, ref: Ref, ghost t: Trace) returns (ghost t': Trace)
      requires Reaches(t, View()) && Working(w, fd, ref, ErasingSocket)
      modifies this`allSockets, this`epollSockets, this`processingSockets, this`workers
      ensures t'.start == t.start && Reaches(t', View())
      ensures Moved(old(workers), w, Busy(fd, ref, Closing)) && Working(w, fd, ref, Closing)
      ensures allSockets == old(allSockets) - {fd}
      ensures epollSockets == old(epollSockets) - {fd}
      ensures processingSockets == old(processingSockets) - {fd}
    {
      hide Reaches, Step, Enabled;
      ghost var s := View();
      JobFacts(s, t, w);
      EraseFromAll(w, fd, ref);
      t' := Advance(t, s, Continue(w));
      s := View();
      EraseFromEpoll(w, fd, ref);
      t' := Advance(t', s, Continue(w));
      s := View();
      EraseFromProcessing(w, fd, ref);
      t' := Advance(t', s, Continue(w));
    }

    /** Lets the mutex go, takes the socket out of every set and closes it. */
    method CloseAndCleanup(w: nat, fd: Fd, ref: Ref, ghost t: Trace) returns (ghost t': Trace)
      requires Reaches(t, View()) && Working(w, fd, ref, Unlocking)
      modifies this`states, this`allSockets, this`epollSockets, this`processingSockets,
        this`open, this`registered, this`workers
      ensures t'.start == t.start && Reaches(t', View())
      ensures Moved(old(workers), w, Free)
      ensures allSockets == old(allSockets) - {fd} && open == old(open) - {fd}
      ensures epollSockets == old(epollSockets) - {fd}
      ensures processingSockets == old(processingSockets) - {fd}
    {
      hide Reaches, Step, Enabled;
      ghost var s := View();
      JobFacts(s, t, w);
      UnlockState(w, fd, ref);
      t' := Advance(t, s, Continue(w));
      t' := RemoveSocket(w, fd, ref, t');
      s := View();
      CloseSocket(w, fd, ref);
      t' := Advance(t', s, Continue(w));
    }

    /** A read job, whose reads return `chunks` and end well or not. It starts from
        empty read data, and either passes exactly these bytes on or closes. */
    method ReadJobRun(w: nat, chunks: seq<Bytes>, healthy: bool, ghost t: Trace)
      returns (proceed: bool, ghost fd: Fd, ghost ref: Ref, ghost t': Trace)
      requires Reaches(t, View()) && w < |workers| && workers[w] == Worker(ReadPool, Free)
      requires ReadPool in queues && queues[ReadPool] != []
      requires forall i | 0 <= i < |chunks| :: Readable(chunks[i])
      modifies this`states, this`queues, this`workers, this`history, this`allSockets, this`epollSockets,
        this`processingSockets, this`open, this`registered
      ensures t'.start == t.start && Reaches(t', View())
      ensures workers == old(workers)
      ensures ref == old(queues)[ReadPool][0] && ref in old(states) && fd == old(states)[ref].socket
      ensures proceed <==> healthy && AllRead(chunks) != []
      ensures history == old(history) + if AllRead(chunks) == [] then [] else [Asked(ref, AllRead(chunks))]
      ensures !proceed ==> Closed(fd)
      ensures proceed ==>
                && ParsePool in old(queues)
                && queues == old(queues)[ReadPool := old(queues)[ReadPool][1..]]
                                        [ParsePool := old(queues)[ParsePool] + [ref]]
                && states == old(states)[ref := old(states)[ref].(readData := AllRead(chunks))]
                && allSockets == old(allSockets) && epollSockets == old(epollSockets) && open == old(open)
    {
      hide Reaches, Step, Enabled, AllRead, Readable;
      ghost var s := View();
      QueueFacts(s, t, ReadPool);
      var socket, p := PickUpJob(w, ReadPool);
      fd, ref := socket, p;
      t' := Advance(t, s, StartJob(w));
      s := View();
      ReadStartsEmpty(s, t', w);
      assert states[p].readData + AllRead(chunks) == AllRead(chunks);
      proceed := ReadAll(w, fd, p, chunks, healthy);
      t' := Advance(t', s, Read(w, AllRead(chunks), healthy));
      if !proceed {
        t' := CloseAndCleanup(w, socket, p, t');
        return;
      }
      s := View();
      HandOn(w, fd, p, ParsePool);
      t' := Advance(t', s, Continue(w));
    }

    /** The end of a parse job, once the executor has answered to the bytes read. */
    method FinishParseJob(w: nat, fd: Fd, ref: Ref, reply: Reply, ghost t: Trace) returns (ghost t': Trace)
      requires Reaches(t, View()) && Working(w, fd, ref, ParseStart)
      requires Answers(states[ref].readData, reply)
      modifies this`states, this`queues, this`workers, this`history
      ensures t'.start == t.start && Reaches(t', View())
      ensures Moved(old(workers), w, Free)
      ensures WritePool in old(queues)
      ensures queues == old(queues)[WritePool := old(queues)[WritePool] + [ref]]
      ensures states == old(states)[ref := Recorded(old(states)[ref], reply)]
      ensures history == old(history) + [Answered(ref, old(states)[ref].readData, reply)]
    {
      hide Reaches, Step, Enabled, Answers, ParsedCommand, Record;
      ghost var s := View();
      JobFacts(s, t, w);
      RecordReply(w, fd, ref, reply);
      t' := Advance(t, s, Execute(w, reply));
      s := View();
      HandOn(w, fd, ref, WritePool);
      t' := Advance(t', s, Continue(w));
    }

    /** A parse job: the executor's answer to the bytes read, which is the answer of
        one map, is recorded, and the connection goes on to be written to. */
    method ParseJobRun(w: nat, store: Executor.Orchestrator, ghost t: Trace)
      returns (reply: Reply, ghost ref: Ref, ghost t': Trace)
      requires Reaches(t, View()) && w < |workers| && workers[w] == Worker(ParsePool, Free)
      requires ParsePool in queues && queues[ParsePool] != [] && queues[ParsePool][0] in states
      requires Servable(states[queues[ParsePool][0]].readData)
      requires store.Valid() && Refinement.Partitioned(store.Contents())
      modifies this`states, this`queues, this`workers, this`history, store.datastores
      ensures t'.start == t.start && Reaches(t', View())
      ensures workers == old(workers)
      ensures ref == old(queues)[ParsePool][0] && WritePool in old(queues)
      ensures queues == old(queues)[ParsePool := old(queues)[ParsePool][1..]]
                                   [WritePool := old(queues)[WritePool] + [ref]]
      ensures states == old(states)[ref := Recorded(old(states)[ref], reply)]
      ensures history == old(history) + [Answered(ref, old(states)[ref].readData, reply)]
      ensures Refinement.Partitioned(store.Contents())
      ensures (Refinement.Abs(store.Contents()), reply)
           == Refinement.MapHandle(old(Refinement.Abs(store.Contents())), old(states)[ref].readData)
    {
      hide Reaches, Step, Enabled, Answers, Servable, Handle, Refinement.MapHandle, Refinement.Partitioned,
        Refinement.Abs, Recorded;
      ghost var s, tables := View(), store.Contents();
      QueueFacts(s, t, ParsePool);
      var fd, p := PickUpJob(w, ParsePool);
      ref := p;
      t' := Advance(t, s, StartJob(w));
      var batch := states[p].readData;
      reply := store.ParseAndRun(batch);
      Refinement.HandleRefines(tables, batch);
      Refinement.HandleAnswers(tables, batch);
      t' := FinishParseJob(w, fd, p, reply, t');
    }

    /** A write job: the recorded answer is sent; then the connection waits again, or
        is closed if the write failed or the answer said so. */
    method WriteJobRun(w: nat, healthy: bool, ghost t: Trace)
      returns (proceed: bool, ghost fd: Fd, ghost ref: Ref, ghost t': Trace)
      requires Reaches(t, View()) && w < |workers| && workers[w] == Worker(WritePool, Free)
      requires WritePool in queues && queues[WritePool] != []
      modifies this`states, this`queues, this`workers, this`history, this`allSockets, this`epollSockets,
        this`processingSockets, this`open, this`registered
      ensures t'.start == t.start && Reaches(t', View())
      ensures workers == old(workers)
      ensures ref == old(queues)[WritePool][0] && ref in old(states) && fd == old(states)[ref].socket
      ensures proceed <==> healthy && !old(states)[ref].isError
      ensures old(states)[ref].response.Some?
      ensures history == old(history) + if !healthy then [] else
                           [Told(ref, CString(Serialize(old(states)[ref].response.value)))]
      ensures !proceed ==> Closed(fd)
      ensures proceed ==>
                && queues == old(queues)[WritePool := old(queues)[WritePool][1..]]
                && states == old(states)[ref := NewConn(fd)]
                && epollSockets == old(epollSockets) + {fd}
                && allSockets == old(allSockets) && open == old(open)
    {
      hide Reaches, Step, Enabled, Serialize, CString, WireBytes;
      ghost var s := View();
      QueueFacts(s, t, WritePool);
      var socket, p := PickUpJob(w, WritePool);
      fd, ref := socket, p;
      t' := Advance(t, s, StartJob(w));
      s := View();
      AnswerBytes(s, t', w);
      proceed := Send(w, fd, p, healthy);
      t' := Advance(t', s, Write(w, healthy));
      if !proceed {
        t' := CloseAndCleanup(w, socket, p, t');
        return;
      }
      t' := BackToWaiting(w, socket, p, t');
    }

    /** The end of a write job whose connection stays open. */
    method BackToWaiting(w: nat, fd: Fd, ref: Ref, ghost t: Trace) returns (ghost t': Trace)
      requires Reaches(t, View()) && Working(w, fd, ref, WriteDone)
      modifies this`states, this`workers, this`epollSockets
      ensures t'.start == t.start && Reaches(t', View())
      ensures Moved(old(workers), w, Free)
      ensures states == old(states)[ref := ResetConn(old(states)[ref])]
      ensures epollSockets == old(epollSockets) + {fd}
    {
      hide Reaches, Step, Enabled;
      ghost var s := View();
      JobFacts(s, t, w);
      ResetState(w, fd, ref);
      t' := Advance(t, s, Continue(w));
      s := View();
      AddToEpollQueue(w, fd, ref);
      t' := Advance(t', s, Continue(w));
    }

    /** The socket is nowhere. */
    ghost predicate Closed(fd: Fd)
      reads this`open, this`allSockets, this`epollSockets, this`processingSockets
    {
      fd !in open && fd !in allSockets && fd !in epollSockets && fd !in processingSockets
    }
  }

  const ONE_OF_EACH := [Worker(ReadPool, Free), Worker(ParsePool, Free), Worker(WritePool, Free)]

  /** A new server with a worker in each pool, and its first connection, ready to be
      read. */
  method OpenConnection(fd: Fd) returns (server: Orchestrator, ghost t: Trace)
    ensures fresh(server) && Reaches(t, server.View())
    ensures server.queues == map[ReadPool := [0], ParsePool := [], WritePool := []]
    ensures 0 in server.states && server.states[0].(token := false) == NewConn(fd)
    ensures server.workers == ONE_OF_EACH && server.history == [] && server.epollSockets == {}
  {
    hide Reaches, JobsAdded, SameButForMutexes, Inv, SocketsKept;
    server := new Orchestrator([ReadPool, ParsePool, WritePool]);
    PipelineLaws.StartInv([ReadPool, ParsePool, WritePool]);
    t := EmptyTrace(server.View(), map[]);
    assert server.workers == ONE_OF_EACH;
    t := server.AcceptOne(fd, t);
    assert server.allSockets == map[fd := 0] && server.states == map[0 := NewConn(fd)];
    t := server.EpollTurn(Some({fd}), [], t);
    OnlyMutex(fd, server.states);
    FirstIsKept(fd, server.allSockets);
    OnlyJob(server.queues, server.allSockets, fd);
  }

  /** And then read. */
  method OpenAndRead(fd: Fd, chunks: seq<Bytes>) returns (server: Orchestrator, ghost t: Trace)
    requires forall i | 0 <= i < |chunks| :: Readable(chunks[i])
    requires AllRead(chunks) != []
    ensures fresh(server) && Reaches(t, server.View())
    ensures server.queues == map[ReadPool := [], ParsePool := [0], WritePool := []]
    ensures 0 in server.states
    ensures server.states[0].(token := false) == NewConn(fd).(readData := AllRead(chunks))
    ensures server.workers == ONE_OF_EACH && server.epollSockets == {}
    ensures server.history == [Asked(0, AllRead(chunks))]
  {
    hide Reaches, AllRead, Readable, Inv;
    server, t := OpenConnection(fd);
    ghost var queues := server.queues;
    var _, _, _, t' := server.ReadJobRun(0, chunks, true, t);
    assert queues[ReadPool][1..] == [] && queues[ParsePool] + [0] == [0];
    t := t';
  }

  /** From start-up, the code of all threads in turn: a server and a store are made, a
      connection is accepted, found ready, read, answered and written to. What is sent
      is the answer of one empty map to the bytes read; and the connection waits again
      unless the reply closes it. */
  method FirstRequest(fd: Fd, chunks: seq<Bytes>)
    returns (reply: Reply, ghost history: seq<Note>, ghost waiting: set<Fd>)
    requires forall i | 0 <= i < |chunks| :: Readable(chunks[i])
    requires AllRead(chunks) != [] && Servable(AllRead(chunks))
    ensures reply == Refinement.MapHandle(map[], AllRead(chunks)).1
    ensures history == [Asked(0, AllRead(chunks)), Answered(0, AllRead(chunks), reply),
                        Told(0, CString(Serialize(reply.value)))]
    ensures fd in waiting <==> !reply.fatal
  {
    hide Reaches, AllRead, Servable, Readable, Refinement.MapHandle, Refinement.Partitioned, Refinement.Abs,
      ParsedCommand, Serialize, CString, Recorded, JobsAdded, SameButForMutexes, Inv;
    var store := new Executor.Orchestrator();
    Refinement.EmptyTables();
    ghost var t;
    var server;
    server, t := OpenAndRead(fd, chunks);
    ghost var c := server.states[0];
    var answer, _, t' := server.ParseJobRun(1, store, t);
    RecordedFacts(c, answer);
    var _, _, _, _ := server.WriteJobRun(2, true, t');
    reply, history, waiting := answer, server.history, server.epollSockets;
  }

  lemma RecordedFacts(c: Conn, reply: Reply)
    ensures var c' := Recorded(c, reply);
            && c'.response == Some(reply.value) && c'.socket == c.socket
            && (c'.isError <==> reply.fatal || c.isError)
  {
    hide ParsedCommand;
  }

  lemma OnlyMutex(fd: Fd, states: map<Ref, Conn>)
    requires SameButForMutexes(map[0 := NewConn(fd)], states)
    ensures 0 in states && states[0].(token := false) == NewConn(fd)
  {
    var before: map<Ref, Conn> := map[0 := NewConn(fd)];
    assert 0 in before;
  }

  lemma FirstIsKept(fd: Fd, sockets: map<Fd, Ref>)
    requires SocketsKept(map[fd := 0], sockets)
    ensures fd in sockets && sockets[fd] == 0
  {
    var before: map<Fd, Ref> := map[fd := 0];
    assert fd in before;
  }

  lemma OnlyJob(queues: map<PoolName, seq<Ref>>, sockets: map<Fd, Ref>, fd: Fd)
    requires JobsAdded(map[ReadPool := [], ParsePool := [], WritePool := []], queues, sockets, {fd})
    ensures fd in sockets
    ensures queues == map[ReadPool := [sockets[fd]], ParsePool := [], WritePool := []]
  {
    assert queues[ReadPool][0..] == queues[ReadPool] == [sockets[fd]];
    assert ParsePool in queues && WritePool in queues;
  }

  function Recorded(c: Conn, reply: Reply): Conn {
    Record(c, ParsedCommand(c.readData), reply.fatal, Some(reply.value))
  }

  /** What one read may bring so that its buffer holds a C string. */
  predicate Readable(chunk: Bytes) {
    |chunk| < BUFSIZE || (|chunk| == BUFSIZE && !NulFree(chunk))
  }

  /** These are exactly the reads whose buffer of 513 bytes holds their C string, whatever
      lies behind it. */
  lemma ReadableExactly(chunk: Bytes)
    ensures Readable(chunk)
            <==> |chunk| <= 513 && forall beyond :: CString(Padded(chunk, 513) + beyond) == CString(chunk)
  {
    if |chunk| <= 513 {
      ReadIsTerminated(chunk);
    }
  }

  /** The bytes of several reads, each appended as a C string. */
  function AllRead(chunks: seq<Bytes>): (data: Bytes)
    ensures NulFree(data)
  {
    if chunks == [] then [] else AllRead(chunks[..|chunks| - 1]) + CString(chunks[|chunks| - 1])
  }

  /** Nothing is read of no chunks, the C string of one, and of more what is read of each
      in turn. */
  lemma {:induction false} AllReadIsInTurn(chunks: seq<Bytes>, more: seq<Bytes>, chunk: Bytes)
    ensures AllRead([]) == [] && AllRead([chunk]) == CString(chunk)
    ensures AllRead(chunks + more) == AllRead(chunks) + AllRead(more)
    decreases |more|
  {
    hide CString;
    assert [chunk][..0] == [];
    if more == [] {
      assert chunks + more == chunks;
    } else {
      var init := more[..|more| - 1];
      AllReadIsInTurn(chunks, init, chunk);
      assert (chunks + more)[..|chunks + more| - 1] == chunks + init;
    }
  }

  lemma AllReadOneMore(chunks: seq<Bytes>, i: nat)
    requires i < |chunks|
    ensures AllRead(chunks[..i + 1]) == AllRead(chunks[..i]) + CString(chunks[i])
  {
    hide CString;
    assert chunks[..i + 1][..i] == chunks[..i];
  }

  lemma QueueFacts(s: Server, t: Trace, p: PoolName)
    requires Reaches(t, s) && p in s.queues && s.queues[p] != []
    ensures s.queues[p][0] in s.conns && ParsePool in s.queues && WritePool in s.queues
  {
    hide AcceptorPlaced, WaitingPlaced, EpollerPlaced, WorkersPlaced, MapPlaced, StatesInOrder,
      RefsBelow;
    assert EntryPlaced(p, s.queues[p][0], SocketsOf(s.conns), t.at);
  }

  lemma JobFacts(s: Server, t: Trace, w: nat)
    requires Reaches(t, s) && w < |s.workers| && s.workers[w].task.Busy?
    ensures ParsePool in s.queues && WritePool in s.queues
    ensures var task := s.workers[w].task;
            && task.ref in s.conns
            && (task.pc.ErasingSocket? ==>
                 task.fd in s.sockets && s.sockets[task.fd] == task.ref && !s.conns[task.ref].token)
            && (BeforeErase(task.pc) ==> ContentsAtPc(task.pc, s.conns[task.ref]))
  {
    hide AcceptorPlaced, WaitingPlaced, EpollerPlaced, WorkersPlaced, MapPlaced, StatesInOrder,
      RefsBelow, HasAnswer, HasBatch, SocketsOf;
    TaskFacts(s, t.at, w);
  }

  lemma ReadyFacts(s: Server, t: Trace, fd: Fd)
    requires Reaches(t, s) && s.epoller.Dispatching? && fd in s.epoller.ready
    ensures fd in s.sockets && s.sockets[fd] in s.conns && !s.conns[s.sockets[fd]].token
    ensures ReadPool in s.queues
  {
    hide AcceptorPlaced, WaitingPlaced, WorkersPlaced, SocketsOf, RefsBelow;
    assert At(t.at, fd, InReady);
  }

  /** New jobs for these sockets, and no others, are at the end of the read queue. */
  ghost predicate JobsAdded(before: map<PoolName, seq<Ref>>, after: map<PoolName, seq<Ref>>,
                            sockets: map<Fd, Ref>, ready: set<Fd>)
  {
    && after.Keys == before.Keys && ReadPool in before
    && (forall p | p in before && p != ReadPool :: after[p] == before[p])
    && before[ReadPool] <= after[ReadPool]
    && |after[ReadPool]| == |before[ReadPool]| + |ready|
    && (forall fd | fd in ready ::
         fd in sockets && sockets[fd] in after[ReadPool][|before[ReadPool]|..])
  }

  predicate SameButForMutexes(before: map<Ref, Conn>, after: map<Ref, Conn>) {
    forall ref | ref in before ::
      ref in after && after[ref].(token := before[ref].token) == before[ref]
  }

  lemma NoJobAdded(queues: map<PoolName, seq<Ref>>, sockets: map<Fd, Ref>)
    requires ReadPool in queues
    ensures JobsAdded(queues, queues, sockets, {})
  {
  }

  lemma OneJobAdded(before: map<PoolName, seq<Ref>>, after: map<PoolName, seq<Ref>>,
                    sockets: map<Fd, Ref>, ready: set<Fd>, fd: Fd)
    requires JobsAdded(before, after, sockets, ready) && fd in sockets && fd !in ready
    ensures JobsAdded(before, after[ReadPool := after[ReadPool] + [sockets[fd]]], sockets, ready + {fd})
  {
    var n := |before[ReadPool]|;
    assert (after[ReadPool] + [sockets[fd]])[n..] == after[ReadPool][n..] + [sockets[fd]];
  }

  /** Sockets that the kernel may return from `accept`, one after the other. */
  predicate NewNumbers(fds: seq<Fd>, open: set<Fd>) {
    && (forall i | 0 <= i < |fds| :: fds[i] !in open)
    && (forall i, j | 0 <= i < j < |fds| :: fds[i] != fds[j])
  }

  predicate SocketsKept(before: map<Fd, Ref>, after: map<Fd, Ref>) {
    forall fd | fd in before :: fd in after && after[fd] == before[fd]
  }

  predicate StatesKept(before: map<Ref, Conn>, after: map<Ref, Conn>) {
    forall ref | ref in before :: ref in after && after[ref] == before[ref]
  }

  lemma NoMutexMoved(before: map<Ref, Conn>, after: map<Ref, Conn>)
    requires StatesKept(before, after)
    ensures SameButForMutexes(before, after)
  {
  }

  lemma OneMutexMoved(before: map<Ref, Conn>, after: map<Ref, Conn>, ref: Ref)
    requires SameButForMutexes(before, after) && ref in after
    ensures SameButForMutexes(before, after[ref := after[ref].(token := true)])
  {
  }

  lemma MutexesMovedAgain(a: map<Ref, Conn>, b: map<Ref, Conn>, c: map<Ref, Conn>)
    requires SameButForMutexes(a, b) && SameButForMutexes(b, c)
    ensures SameButForMutexes(a, c)
  {
    forall ref | ref in a
      ensures ref in c && c[ref].(token := a[ref].token) == a[ref]
    {
      assert b[ref].(token := a[ref].token) == a[ref] && c[ref].(token := b[ref].token) == b[ref];
    }
  }

  lemma ReadStartsEmpty(s: Server, t: Trace, w: nat)
    requires Reaches(t, s) && w < |s.workers| && s.workers[w].task.Busy? && s.workers[w].task.pc == ReadStart
    ensures s.workers[w].task.ref in s.conns && s.conns[s.workers[w].task.ref].readData == []
    ensures ParsePool in s.queues && WritePool in s.queues
  {
    hide Reaches;
    JobFacts(s, t, w);
  }

  lemma AnswerBytes(s: Server, t: Trace, w: nat)
    requires Reaches(t, s) && w < |s.workers| && s.workers[w].task.Busy? && s.workers[w].task.pc == WriteStart
    ensures s.workers[w].task.ref in s.conns
    ensures var c := s.conns[s.workers[w].task.ref];
            c.response.Some? && WireBytes(c) == CString(Serialize(c.response.value))
  {
    hide Reaches, Answers;
    JobFacts(s, t, w);
  }

  lemma AllQueues(s: Server, t: Trace)
    requires Reaches(t, s)
    ensures forall p: PoolName :: p in s.queues
  {
    hide AcceptorPlaced, WaitingPlaced, EpollerPlaced, WorkersPlaced, MapPlaced, StatesInOrder,
      SocketsOf, RefsBelow, EntryPlaced;
  }

  lemma NumbersAreNew(s: Server, t: Trace, fd: Fd)
    requires Reaches(t, s) && fd !in s.open
    ensures s.nextRef !in s.conns && fd !in s.sockets
  {
    hide AcceptorPlaced, WaitingPlaced, EpollerPlaced, QueuesPlaced, WorkersPlaced, StatesInOrder,
      SocketsOf;
  }

  lemma WaitingAreOpen(s: Server, t: Trace)
    requires Reaches(t, s)
    ensures s.epollSockets <= s.open
  {
    hide AcceptorPlaced, EpollerPlaced, QueuesPlaced, WorkersPlaced, MapPlaced, StatesInOrder,
      SocketsOf, RefsBelow;
    assert forall fd | fd in s.epollSockets :: At(t.at, fd, InEpoll);
  }
}
